/** Fixed-width values and their in-memory byte images.

    The host is fixed to be little-endian with two's-complement integers: the
    byte image of a value, as it sits in memory and as `write`/`read` move it
    to and from a stream, has the least significant byte first.
    `itk::ByteSwapper<T>::SwapFromSystemToBigEndian` on such a host reverses
    the bytes of a 2- or 4-byte value in place and is the identity on a
    1-byte value. */
module ByteOrder {

  /** An `unsigned char`, and one byte of a stream. */
  type byte = x: int | 0 <= x < 0x100

  /** A `short int`. */
  type int16 = x: int | -0x8000 <= x < 0x8000

  /** An `int`. */
  type int32 = x: int | -0x8000_0000 <= x < 0x8000_0000

  function Pow256(n: nat): (p: nat)
    ensures p >= 1
  {
    if n == 0 then 1 else 0x100 * Pow256(n - 1)
  }

  /** The `n`-byte little-endian image of `u`, least significant byte
      first; bytes beyond `n` are dropped. */
  function LittleEndian(u: nat, n: nat): (b: seq<byte>)
    ensures |b| == n
  {
    if n == 0 then [] else [u % 0x100] + LittleEndian(u / 0x100, n - 1)
  }

  /** The unsigned number whose little-endian image is `b`. */
  function Unsigned(b: seq<byte>): (u: nat)
    ensures u < Pow256(|b|)
  {
    if b == [] then 0 else b[0] + 0x100 * Unsigned(b[1..])
  }

  lemma {:induction false} UnsignedLittleEndian(u: nat, n: nat)
    requires u < Pow256(n)
    ensures Unsigned(LittleEndian(u, n)) == u
  {
    if n > 0 {
      UnsignedLittleEndian(u / 0x100, n - 1);
      assert LittleEndian(u, n)[1..] == LittleEndian(u / 0x100, n - 1);
    }
  }

  lemma {:induction false} LittleEndianUnsigned(b: seq<byte>)
    ensures LittleEndian(Unsigned(b), |b|) == b
  {
    if b != [] {
      LittleEndianUnsigned(b[1..]);
      var u := Unsigned(b);
      assert u % 0x100 == b[0] && u / 0x100 == Unsigned(b[1..]);
      assert b == [b[0]] + b[1..];
    }
  }

  /** Memory image of a `short int`. */
  function Store16(v: int16): (b: seq<byte>)
    ensures |b| == 2
  {
    LittleEndian(v % 0x1_0000, 2)
  }

  /** The `short int` whose memory image is `b`; inverse of `Store16`. */
  function Load16(b: seq<byte>): (v: int16)
    requires |b| == 2
    ensures Store16(v) == b
  {
    LittleEndianUnsigned(b);
    Pow256Widths();
    ToSigned16(Unsigned(b))
  }

  /** The two's-complement reading of 16 bits. */
  function ToSigned16(u: nat): (v: int16)
    requires u < 0x1_0000
    ensures v % 0x1_0000 == u
  {
    if u < 0x8000 then u else u - 0x1_0000
  }

  /** Memory image of an `int`. */
  function Store32(v: int32): (b: seq<byte>)
    ensures |b| == 4
  {
    LittleEndian(v % 0x1_0000_0000, 4)
  }

  /** The `int` whose memory image is `b`; inverse of `Store32`. */
  function Load32(b: seq<byte>): (v: int32)
    requires |b| == 4
    ensures Store32(v) == b
  {
    LittleEndianUnsigned(b);
    Pow256Widths();
    ToSigned32(Unsigned(b))
  }

  /** The two's-complement reading of 32 bits. */
  function ToSigned32(u: nat): (v: int32)
    requires u < 0x1_0000_0000
    ensures v % 0x1_0000_0000 == u
  {
    if u < 0x8000_0000 then u else u - 0x1_0000_0000
  }

  lemma Pow256Widths()
    ensures Pow256(2) == 0x1_0000 && Pow256(4) == 0x1_0000_0000
  {
  }

  lemma Load16Store16(v: int16)
    ensures Load16(Store16(v)) == v
  {
    Pow256Widths();
    UnsignedLittleEndian(v % 0x1_0000, 2);
  }

  lemma Load32Store32(v: int32)
    ensures Load32(Store32(v)) == v
  {
    Pow256Widths();
    UnsignedLittleEndian(v % 0x1_0000_0000, 4);
  }

  /** Two values are equal exactly when their memory images are. */
  lemma Store32Injective(u: int32, v: int32)
    ensures Store32(u) == Store32(v) <==> u == v
  {
    if Store32(u) == Store32(v) {
      Load32Store32(u);
      Load32Store32(v);
    }
  }

  lemma Store16Injective(u: int16, v: int16)
    ensures Store16(u) == Store16(v) <==> u == v
  {
    if Store16(u) == Store16(v) {
      Load16Store16(u);
      Load16Store16(v);
    }
  }

  function Reverse(s: seq<byte>): (r: seq<byte>)
    ensures |r| == |s|
    ensures forall i :: 0 <= i < |s| ==> r[i] == s[|s| - 1 - i]
  {
    if s == [] then [] else Reverse(s[1..]) + [s[0]]
  }

  lemma {:induction false} ReverseReverse(s: seq<byte>)
    ensures Reverse(Reverse(s)) == s
  {
    var r := Reverse(Reverse(s));
    assert |r| == |s|;
    forall i | 0 <= i < |s| ensures r[i] == s[i] {
    }
  }

  /** `ByteSwapper<short>`: reverse the two bytes of the image. */
  function Swap16(v: int16): (r: int16)
    ensures Store16(r) == Reverse(Store16(v))
  {
    Load16(Reverse(Store16(v)))
  }

  /** `ByteSwapper<int>`, and `ByteSwapper<float>` on the bits of a
      `float`: reverse the four bytes of the image. */
  function Swap32(v: int32): (r: int32)
    ensures Store32(r) == Reverse(Store32(v))
  {
    Load32(Reverse(Store32(v)))
  }

  /** A second swap undoes the first. */
  lemma Swap16Involution(v: int16)
    ensures Swap16(Swap16(v)) == v
  {
    ReverseReverse(Store16(v));
    Load16Store16(v);
  }

  lemma Swap32Involution(v: int32)
    ensures Swap32(Swap32(v)) == v
  {
    ReverseReverse(Store32(v));
    Load32Store32(v);
  }

  /** Swapping after a little-endian load is loading the same bytes in the
      other order: a swapped read takes a big-endian value. */
  lemma Swap32AfterLoad(b: seq<byte>)
    requires |b| == 4
    ensures Swap32(Load32(b)) == Load32(Reverse(b))
  {
  }

  lemma Swap16AfterLoad(b: seq<byte>)
    requires |b| == 2
    ensures Swap16(Load16(b)) == Load16(Reverse(b))
  {
  }

  /** Assigning an `int` to a `short int` keeps its low 16 bits: the result
      is the `short int` congruent to `v` modulo 2^16. */
  function Wrap16(v: int32): (s: int16)
    ensures (s - v) % 0x1_0000 == 0
  {
    (v + 0x8000) % 0x1_0000 - 0x8000
  }

  /** Storing into a `short int` keeps exactly the values a `short int` can
      hold. */
  lemma Wrap16Identity(v: int32)
    ensures Wrap16(v) == v <==> -0x8000 <= v < 0x8000
  {
  }

  /** Two `int`s stored into a `short int` give the same value exactly when
      they agree modulo 2^16. */
  lemma Wrap16Congruent(u: int32, v: int32)
    ensures Wrap16(u) == Wrap16(v) <==> (u - v) % 0x1_0000 == 0
  {
  }
}
