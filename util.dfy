/**
 * String helpers of main/util.c: the `+`-to-space decoding applied to form
 * fields, and `s_strcpy`, the NULL-tolerant bounded copy every manager uses
 * to fill its fixed-size text fields.
 */
module Util {
  import opened Esp

  /** The C string held by a character buffer: every character before the first NUL. */
  function CStr(buf: seq<char>): (r: seq<char>)
    ensures |r| <= |buf| && r == buf[..|r|]
    ensures '\0' !in r
    ensures |r| < |buf| ==> buf[|r|] == '\0'
  {
    if buf == [] || buf[0] == '\0' then [] else [buf[0]] + CStr(buf[1..])
  }

  /** A C string's characters: a NUL can only terminate it. */
  type CString = s: seq<char> | '\0' !in s

  /** At most `cap` leading characters of `s`. */
  function Bounded(s: seq<char>, cap: nat): (r: seq<char>)
    ensures |r| == Min(|s|, cap) && r == s[..|r|]
    ensures '\0' !in s ==> '\0' !in r
  {
    var r := s[..Min(|s|, cap)];
    assert forall i :: 0 <= i < |r| ==> r[i] == s[i];
    r
  }

  /** `+` becomes a space; every other character is kept. */
  function PlusToSpace(s: seq<char>): (r: seq<char>)
  {
    seq(|s|, i requires 0 <= i < |s| => if s[i] == '+' then ' ' else s[i])
  }

  /** The buffer `replace_plus_with_space` leaves: the C string decoded, the rest untouched. */
  function DecodedBuffer(buf: seq<char>): seq<char>
  {
    PlusToSpace(CStr(buf)) + buf[|CStr(buf)|..]
  }

  /** Decoding leaves no `+`, keeps every other character where it was, and keeps the length. */
  lemma PlusToSpaceMeaning(s: seq<char>)
    ensures |PlusToSpace(s)| == |s|
    ensures '+' !in PlusToSpace(s)
    ensures forall i :: 0 <= i < |s| && s[i] != '+' ==> PlusToSpace(s)[i] == s[i]
    ensures forall i :: 0 <= i < |s| && s[i] == '+' ==> PlusToSpace(s)[i] == ' '
  {
  }

  /** Decoding an already decoded buffer changes nothing. */
  lemma {:induction false} DecodedBufferIdempotent(buf: seq<char>)
    ensures DecodedBuffer(DecodedBuffer(buf)) == DecodedBuffer(buf)
  {
    var c := CStr(buf);
    var d := DecodedBuffer(buf);
    CStrOfDecoded(buf);
    assert CStr(d) == PlusToSpace(c);
    assert d[|PlusToSpace(c)|..] == buf[|c|..];
    assert PlusToSpace(PlusToSpace(c)) == PlusToSpace(c);
  }

  /** The terminator stays where it was: the decoded buffer holds the decoded C string. */
  lemma {:induction false} CStrOfDecoded(buf: seq<char>)
    ensures CStr(DecodedBuffer(buf)) == PlusToSpace(CStr(buf))
  {
    var c := CStr(buf);
    var d := DecodedBuffer(buf);
    assert d[..|c|] == PlusToSpace(c);
    CStrOfTerminated(d, |c|);
  }

  /** A buffer whose first NUL sits at `n` holds the C string of its first `n` characters. */
  lemma {:induction false} CStrOfTerminated(buf: seq<char>, n: nat)
    requires n <= |buf| && '\0' !in buf[..n]
    requires n < |buf| ==> buf[n] == '\0'
    ensures CStr(buf) == buf[..n]
    decreases n
  {
    if n == 0 {
    } else {
      assert buf[0] == buf[..n][0];
      assert buf[1..][..n - 1] == buf[..n][1..];
      CStrOfTerminated(buf[1..], n - 1);
      assert buf[..n] == [buf[0]] + buf[1..][..n - 1];
    }
  }

  /**
   * `replace_plus_with_space`: walks the C string held by `str` and turns every
   * `+` into a space, in place; the terminator and what follows it are untouched.
   */
  method ReplacePlusWithSpace(str: array<char>)
    requires '\0' in str[..]
    modifies str
    ensures str[..] == DecodedBuffer(old(str[..]))
  {
    ghost var c := CStr(str[..]);
    ghost var b := str[..];
    var i := 0;
    while str[i] != '\0'
      invariant 0 <= i <= |c| < str.Length
      invariant str[..i] == PlusToSpace(c[..i])
      invariant forall k :: i <= k < str.Length ==> str[k] == b[k]
      invariant c == CStr(b)
      decreases |c| - i
    {
      if str[i] == '+' {
        str[i] := ' ';
      }
      assert str[..i + 1] == str[..i] + [str[i]];
      assert PlusToSpace(c[..i + 1]) == PlusToSpace(c[..i]) + PlusToSpace([c[i]]);
      i := i + 1;
    }
    assert i == |c|;
    assert c[..i] == c;
    assert str[i..] == b[i..];
    assert str[..] == str[..i] + str[i..];
  }

  /** What `strlcpy(dst, s, size)` leaves in the buffer `buf`, for `size > 0`. */
  function StrlcpyInto(buf: seq<char>, size: nat, s: seq<char>): seq<char>
    requires 0 < size <= |buf|
  {
    var n := Min(|s|, size - 1);
    s[..n] + ['\0'] + buf[n + 1..]
  }

  /**
   * The C string `s_strcpy` leaves in a buffer of `size > 0` bytes: the empty
   * string for a NULL source, otherwise at most `size - 1` characters of it.
   */
  function SCopy(src: Option<seq<char>>, size: nat): seq<char>
    requires size > 0
  {
    if src.None? then [] else Bounded(CStr(src.value), size - 1)
  }

  /** `strlcpy` leaves exactly the bounded copy as the buffer's C string. */
  lemma {:induction false} StrlcpyHoldsBoundedCopy(buf: seq<char>, size: nat, s: seq<char>)
    requires 0 < size <= |buf| && '\0' !in s
    ensures CStr(StrlcpyInto(buf, size, s)) == Bounded(s, size - 1)
    ensures |StrlcpyInto(buf, size, s)| == |buf|
  {
    var n := Min(|s|, size - 1);
    var r := StrlcpyInto(buf, size, s);
    assert r[..n] == s[..n];
    assert r[n] == '\0';
    CStrOfTerminated(r, n);
  }

  /**
   * `s_strcpy`: no effect for a NULL or zero-sized destination, an empty
   * string for a NULL source, otherwise `strlcpy`.
   */
  method SStrcpy(dst: array?<char>, dstSize: nat, src: Option<seq<char>>)
    requires dst != null ==> dstSize <= dst.Length
    modifies dst
    ensures dst == null || dstSize == 0 ==> dst == null || dst[..] == old(dst[..])
    ensures dst != null && dstSize > 0 && src.None? ==> dst[..] == old(dst[..])[0 := '\0']
    ensures dst != null && dstSize > 0 && src.Some? ==>
              dst[..] == StrlcpyInto(old(dst[..]), dstSize, CStr(src.value))
    ensures dst != null && dstSize > 0 ==> CStr(dst[..]) == SCopy(src, dstSize)
  {
    if dst == null || dstSize == 0 {
      return;
    }
    if src.None? {
      dst[0] := '\0';
      CStrOfTerminated(dst[..], 0);
      return;
    }
    var s := CStr(src.value);
    var n := Min(|s|, dstSize - 1);
    ghost var b := dst[..];
    for i := 0 to n
      invariant dst[..i] == s[..i]
      invariant forall k :: i <= k < dst.Length ==> dst[k] == b[k]
    {
      dst[i] := s[i];
      assert dst[..i + 1] == dst[..i] + [dst[i]];
    }
    dst[n] := '\0';
    assert dst[n + 1..] == b[n + 1..];
    assert dst[..] == dst[..n] + [dst[n]] + dst[n + 1..];
    assert dst[..] == StrlcpyInto(b, dstSize, s);
    StrlcpyHoldsBoundedCopy(b, dstSize, s);
  }
}
