/** NUL-terminated byte strings as the C library sees them, and the two
    library routines `SetName` relies on: `strncpy`, which copies a string
    into a fixed-size buffer and pads it with NUL bytes, and `strcmp`, which
    compares two strings byte by byte as `unsigned char`. */
module CStrings {
  import opened ByteOrder

  /** The C string held in `s`: its bytes up to the first NUL, or all of `s`
      when it holds no NUL. */
  function CString(s: seq<byte>): (r: seq<byte>)
    ensures |r| <= |s| && r == s[..|r|]
    ensures forall i :: 0 <= i < |r| ==> r[i] != 0
    ensures |r| < |s| ==> s[|r|] == 0
  {
    if s == [] || s[0] == 0 then [] else [s[0]] + CString(s[1..])
  }

  /** The contract of `CString` pins it down: a NUL-free prefix of `s` that
      is all of `s` or is followed by a NUL is the C string of `s`. */
  lemma CStringUnique(s: seq<byte>, t: seq<byte>)
    requires |t| <= |s| && t == s[..|t|]
    requires forall i :: 0 <= i < |t| ==> t[i] != 0
    requires |t| < |s| ==> s[|t|] == 0
    ensures CString(s) == t
  {
    var r := CString(s);
    if |r| < |t| {
      assert false;
    } else if |t| < |r| {
      assert false;
    }
  }

  /** The bytes before the first NUL are its C string, whatever follows. */
  lemma CStringOfPrefix(s: seq<byte>, n: nat)
    requires n <= |s|
    requires forall i :: 0 <= i < n ==> s[i] != 0
    requires n < |s| ==> s[n] == 0
    ensures CString(s) == s[..n]
  {
    CStringUnique(s, s[..n]);
  }

  /** A C string read again is the same C string. */
  lemma CStringIdempotent(s: seq<byte>)
    ensures CString(CString(s)) == CString(s)
  {
    CStringUnique(CString(s), CString(s));
  }

  /** `std::string::c_str` appends a NUL; that does not change the C string
      of a buffer. */
  lemma CStringTerminated(s: seq<byte>)
    ensures CString(s + [0]) == CString(s)
  {
    var t := CString(s);
    assert (s + [0])[..|t|] == s[..|t|];
    CStringUnique(s + [0], t);
  }

  /** The C string of `s`, cut to at most `n` bytes: what `strncpy` copies
      before it starts padding. */
  function Truncate(s: seq<byte>, n: nat): (r: seq<byte>)
    ensures |r| <= n && |r| <= |s| && r == s[..|r|]
    ensures forall i :: 0 <= i < |r| ==> r[i] != 0
    ensures |r| < n && |r| < |s| ==> s[|r|] == 0
  {
    var c := CString(s);
    if |c| <= n then c else c[..n]
  }

  /** `n` NUL bytes. */
  function Zeros(n: nat): (z: seq<byte>)
    ensures |z| == n && forall i :: 0 <= i < n ==> z[i] == 0
  {
    seq(n, _ => 0)
  }

  /** The `n` bytes `strncpy(dst, src, n)` leaves in `dst`: the C string of
      `src` cut to `n` bytes, then NUL padding up to `n`. */
  function StrNCopied(src: seq<byte>, n: nat): (d: seq<byte>)
    ensures |d| == n
    ensures d[..|Truncate(src, n)|] == Truncate(src, n)
    ensures forall i :: |Truncate(src, n)| <= i < n ==> d[i] == 0
  {
    var t := Truncate(src, n);
    t + Zeros(n - |t|)
  }

  /** A copied string followed by a NUL reads back as the truncated string:
      the padding, or the NUL after a full buffer, ends it. */
  lemma StrNCopiedCString(src: seq<byte>, n: nat)
    ensures CString(StrNCopied(src, n) + [0]) == Truncate(src, n)
  {
    var t := Truncate(src, n);
    var d := StrNCopied(src, n) + [0];
    assert d[..|t|] == t;
    assert d[|t|] == 0;
    CStringUnique(d, t);
  }

  /** Cutting the C string of a NUL-terminated copy again changes nothing
      once the bound is no smaller. */
  lemma TruncateTerminated(s: seq<byte>, n: nat)
    ensures Truncate(s + [0], n) == Truncate(s, n)
  {
    CStringTerminated(s);
  }

  /** `strncpy(dst, src, n)`: copy bytes of `src` up to its first NUL (the
      end of `src` standing for a NUL), at most `n` of them, then fill the
      rest of the first `n` bytes of `dst` with NULs. */
  method StrNCopy(dst: array<byte>, src: seq<byte>, n: nat)
    requires n <= dst.Length
    modifies dst
    ensures dst[..n] == StrNCopied(src, n)
    ensures dst[n..] == old(dst[n..])
  {
    var i := 0;
    while i < n && i < |src| && src[i] != 0
      invariant i <= n && i <= |src|
      invariant forall k :: 0 <= k < i ==> src[k] != 0
      invariant dst[..i] == src[..i]
      invariant dst[n..] == old(dst[n..])
    {
      dst[i] := src[i];
      i := i + 1;
    }
    ghost var t := Truncate(src, n);
    if i < n {
      CStringOfPrefix(src, i);
    } else {
      CStringPrefix(src, n);
    }
    assert t == src[..i];
    while i < n
      invariant |t| <= i <= n
      invariant dst[..|t|] == t
      invariant forall k :: |t| <= k < i ==> dst[k] == 0
      invariant dst[n..] == old(dst[n..])
    {
      dst[i] := 0;
      i := i + 1;
    }
    assert dst[..n] == StrNCopied(src, n);
  }

  /** When the first `n` bytes hold no NUL, the C string starts with them. */
  lemma CStringPrefix(s: seq<byte>, n: nat)
    requires n <= |s|
    requires forall i :: 0 <= i < n ==> s[i] != 0
    ensures n <= |CString(s)| && CString(s)[..n] == s[..n]
  {
    var r := CString(s);
    if |r| < n {
      assert false;
    }
  }

  /** Lexicographic order on byte strings, bytes compared as unsigned: a
      proper prefix comes first. */
  predicate Precedes(x: seq<byte>, y: seq<byte>)
  {
    if x == [] then y != []
    else y != [] && (x[0] < y[0] || (x[0] == y[0] && Precedes(x[1..], y[1..])))
  }

  /** Exactly one of `x` before `y`, `x` equal to `y`, `y` before `x`. */
  lemma {:induction false} PrecedesTrichotomy(x: seq<byte>, y: seq<byte>)
    ensures Precedes(x, y) || x == y || Precedes(y, x)
    ensures !(Precedes(x, y) && Precedes(y, x))
    ensures Precedes(x, y) ==> x != y
  {
    if x != [] && y != [] && x[0] == y[0] {
      PrecedesTrichotomy(x[1..], y[1..]);
      if x[1..] == y[1..] {
        assert x == [x[0]] + x[1..] && y == [y[0]] + y[1..];
      }
    }
  }

  /** The order is transitive; with `PrecedesTrichotomy` it is a strict
      total order. */
  lemma {:induction false} PrecedesTransitive(x: seq<byte>, y: seq<byte>, z: seq<byte>)
    requires Precedes(x, y) && Precedes(y, z)
    ensures Precedes(x, z)
  {
    if x != [] && x[0] == y[0] && y[0] == z[0] {
      PrecedesTransitive(x[1..], y[1..], z[1..]);
    }
  }

  /** A common prefix does not decide the order. */
  lemma {:induction false} PrecedesCommonPrefix(x: seq<byte>, y: seq<byte>, n: nat)
    requires n <= |x| && n <= |y| && x[..n] == y[..n]
    ensures Precedes(x, y) == Precedes(x[n..], y[n..])
  {
    if n > 0 {
      assert x[0] == x[..n][0] == y[..n][0] == y[0];
      assert x[1..][..n - 1] == x[1..n] == x[..n][1..];
      assert y[1..][..n - 1] == y[1..n] == y[..n][1..];
      PrecedesCommonPrefix(x[1..], y[1..], n - 1);
      assert x[1..][n - 1..] == x[n..];
      assert y[1..][n - 1..] == y[n..];
    }
  }

  /** `strcmp(a, b)`: walk both strings while the bytes agree and are not
      NUL; the result is the difference of the bytes where they stop. Both
      buffers must hold a NUL. */
  method StrCmp(a: array<byte>, b: array<byte>) returns (r: int)
    requires 0 in a[..] && 0 in b[..]
    ensures r == 0 <==> CString(a[..]) == CString(b[..])
    ensures r < 0 <==> Precedes(CString(a[..]), CString(b[..]))
    ensures r > 0 <==> Precedes(CString(b[..]), CString(a[..]))
  {
    var i := 0;
    while a[i] != 0 && a[i] == b[i]
      invariant i < a.Length && i < b.Length
      invariant 0 in a[i..] && 0 in b[i..]
      invariant forall k :: 0 <= k < i ==> a[k] != 0 && a[k] == b[k]
      decreases a.Length - i
    {
      i := i + 1;
    }
    r := a[i] as int - b[i] as int;
    ghost var ca, cb := CString(a[..]), CString(b[..]);
    CStringPrefix(a[..], i);
    CStringPrefix(b[..], i);
    assert ca[..i] == a[..i] == b[..i] == cb[..i];
    PrecedesCommonPrefix(ca, cb, i);
    PrecedesCommonPrefix(cb, ca, i);
    PrecedesTrichotomy(ca, cb);
    if a[i] == 0 {
      CStringOfPrefix(a[..], i);
      assert ca[i..] == [];
    } else {
      assert ca[i..][0] == a[i];
    }
    if b[i] == 0 {
      CStringOfPrefix(b[..], i);
      assert cb[i..] == [];
    } else {
      assert cb[i..][0] == b[i];
    }
    if a[i] == 0 && b[i] == 0 {
      assert ca == ca[..i] + ca[i..];
      assert cb == cb[..i] + cb[i..];
    } else {
      assert ca[i..] != cb[i..];
    }
  }
}
