/**
 * The byte layer both wire directions rely on: unsigned little-endian
 * fields (int.from_bytes(..., byteorder='little') and struct.pack('<I'),
 * '<H', '<Q'), Python's clamping slice s[lo:hi], and the UTF-8 encoding
 * that turns a str response body into bytes.
 */
module Bytes {

  newtype byte = x: int | 0 <= x < 256

  /** 256^n: the number of values an n-byte unsigned field can hold. */
  function Pow256(n: nat): (r: nat)
    ensures r >= 1
  {
    if n == 0 then 1 else 256 * Pow256(n - 1)
  }

  lemma {:induction false} Pow256Monotone(m: nat, n: nat)
    requires m <= n
    ensures Pow256(m) <= Pow256(n)
  {
    if m < n {
      Pow256Monotone(m, n - 1);
    }
  }

  /** int.from_bytes(s, byteorder='little'): the first byte is the least significant. */
  function FromLittleEndian(s: seq<byte>): (r: nat)
    ensures r < Pow256(|s|)
  {
    if s == [] then 0
    else
      var rest := FromLittleEndian(s[1..]);
      assert s[0] as nat + 256 * rest <= 255 + 256 * (Pow256(|s| - 1) - 1);
      s[0] as nat + 256 * rest
  }

  /**
   * struct.pack of an n-byte little-endian unsigned value. Python's
   * struct.pack raises for values that do not fit; callers check that first.
   */
  function ToLittleEndian(v: nat, n: nat): (r: seq<byte>)
    requires v < Pow256(n)
    ensures |r| == n
    ensures FromLittleEndian(r) == v
  {
    if n == 0 then []
    else
      assert v / 256 < Pow256(n - 1);
      var r := [(v % 256) as byte] + ToLittleEndian(v / 256, n - 1);
      assert r[1..] == ToLittleEndian(v / 256, n - 1);
      r
  }

  /** Packing a decoded field gives back the very bytes it was decoded from. */
  lemma {:induction false} ToFromLittleEndian(s: seq<byte>)
    ensures ToLittleEndian(FromLittleEndian(s), |s|) == s
  {
    if s != [] {
      var rest := FromLittleEndian(s[1..]);
      var v := s[0] as nat + 256 * rest;
      assert v % 256 == s[0] as nat && v / 256 == rest;
      ToFromLittleEndian(s[1..]);
    }
  }

  function Min(a: nat, b: nat): nat
  {
    if a <= b then a else b
  }

  /** Python's s[lo:hi] for non-negative bounds: out-of-range bounds are clamped. */
  function Slice<T>(s: seq<T>, lo: nat, hi: nat): (r: seq<T>)
    ensures |r| == if lo < Min(hi, |s|) then Min(hi, |s|) - lo else 0
    ensures forall k :: 0 <= k < |r| ==> r[k] == s[lo + k]
  {
    if lo < Min(hi, |s|) then s[lo..Min(hi, |s|)] else []
  }

  /** The first n elements, or all of them when there are fewer. */
  function Take<T>(s: seq<T>, n: nat): (r: seq<T>)
    ensures |r| == Min(n, |s|)
    ensures r == s[..Min(n, |s|)]
  {
    Slice(s, 0, n)
  }

  /** What is left after the first n elements. */
  function Drop<T>(s: seq<T>, n: nat): (r: seq<T>)
    ensures Take(s, n) + r == s
  {
    assert Slice(s, n, |s|) == s[Min(n, |s|)..];
    Slice(s, n, |s|)
  }

  /** Slicing past a prefix is slicing the rest. */
  lemma SliceAfter<T>(a: seq<T>, b: seq<T>, lo: nat, hi: nat)
    requires |a| <= lo <= hi
    ensures Slice(a + b, lo, hi) == Slice(b, lo - |a|, hi - |a|)
  {
  }

  /** Slicing exactly the prefix gives the prefix. */
  lemma SlicePrefix<T>(a: seq<T>, b: seq<T>)
    ensures Slice(a + b, 0, |a|) == a
  {
    assert (a + b)[..|a|] == a;
  }

  /** Concatenation regroups freely; stated once so that long chains need not be re-derived. */
  lemma AppendAssoc<T>(a: seq<T>, b: seq<T>, c: seq<T>)
    ensures (a + b) + c == a + (b + c)
  {
  }

  lemma TakeTake<T>(s: seq<T>, m: nat, n: nat)
    requires m <= n
    ensures Take(Take(s, n), m) == Take(s, m)
  {
  }

  lemma TakeAppend<T>(a: seq<T>, b: seq<T>)
    ensures Take(a + b, |a|) == a && Drop(a + b, |a|) == b
  {
    assert (a + b)[..|a|] == a;
  }

  /** The UTF-8 encoding of one Unicode scalar value, as RFC 3629 section 3 lays it out. */
  function Utf8Char(c: char): (r: seq<byte>)
    ensures 1 <= |r| <= 4
  {
    var v := c as int;
    if v < 0x80 then
      [v as byte]
    else if v < 0x800 then
      [(0xC0 + v / 0x40) as byte, (0x80 + v % 0x40) as byte]
    else if v < 0x1_0000 then
      [(0xE0 + v / 0x1000) as byte, (0x80 + v / 0x40 % 0x40) as byte, (0x80 + v % 0x40) as byte]
    else
      [(0xF0 + v / 0x4_0000) as byte, (0x80 + v / 0x1000 % 0x40) as byte,
       (0x80 + v / 0x40 % 0x40) as byte, (0x80 + v % 0x40) as byte]
  }

  /**
   * str.encode('utf-8'). Every character takes one to four bytes, so the
   * encoding is empty exactly when the text is.
   */
  function Utf8Encode(s: string): (r: seq<byte>)
    ensures |s| <= |r| <= 4 * |s|
  {
    if s == [] then [] else Utf8Char(s[0]) + Utf8Encode(s[1..])
  }
}
