/** The two file streams an object entry talks to, reduced to what it uses:
    `std::ifstream::read` with its failure state, and
    `std::ofstream::write`. The file behind each stream is a byte sequence. */
module Streams {
  import opened ByteOrder

  /** An input file: its bytes, the read position and the fail state. */
  class InputStream {
    const data: seq<byte>
    var pos: nat
    var failed: bool

    ghost predicate Valid()
      reads this
    {
      pos <= |data|
    }

    constructor(contents: seq<byte>)
      ensures Valid() && data == contents && pos == 0 && !failed
    {
      data := contents;
      pos := 0;
      failed := false;
    }

    /** `read(dest, n)`: on a stream in a good state, takes the next `n`
        bytes; when fewer remain it takes what there is, moves to the end and
        enters the fail state. A stream already in the fail state reads
        nothing. The bytes taken are returned; `failed` afterwards is what
        `.fail()` reports. */
    method Read(n: nat) returns (chunk: seq<byte>)
      requires Valid()
      modifies this
      ensures Valid()
      ensures old(pos) <= pos <= old(pos) + n && chunk == data[old(pos)..pos]
      ensures !failed <==> !old(failed) && old(pos) + n <= |data|
      ensures !failed ==> pos == old(pos) + n
      ensures failed && !old(failed) ==> pos == |data|
      ensures old(failed) ==> pos == old(pos)
    {
      if failed {
        chunk := [];
      } else if pos + n <= |data| {
        chunk := data[pos..pos + n];
        pos := pos + n;
      } else {
        chunk := data[pos..];
        pos := |data|;
        failed := true;
      }
    }
  }

  /** An output file: the bytes written so far. */
  class OutputStream {
    var data: seq<byte>

    constructor()
      ensures data == []
    {
      data := [];
    }

    /** `write(src, n)`: appends the bytes. */
    method Write(bytes: seq<byte>)
      modifies this
      ensures data == old(data) + bytes
    {
      data := data + bytes;
    }
  }
}
