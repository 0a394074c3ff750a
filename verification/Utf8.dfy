/** UTF-8 as section 3 of RFC 3629 defines it, for the byte lengths and character boundaries the
    source's string code works with. */
module Utf8 {

  /** A character's bytes. */
  function Encode(c: char): (r: seq<int>)
    ensures 1 <= |r| <= 4 && !IsContinuation(r[0])
    ensures forall i | 0 <= i < |r| :: 0 <= r[i] < 256
    ensures forall i | 0 < i < |r| :: IsContinuation(r[i])
  {
    var n := c as int;
    if n < 0x80 then [n]
    else if n < 0x800 then [0xC0 + n / 64, 0x80 + n % 64]
    else if n < 0x10000 then [0xE0 + n / 4096, 0x80 + n / 64 % 64, 0x80 + n % 64]
    else [0xF0 + n / 262144, 0x80 + n / 4096 % 64, 0x80 + n / 64 % 64, 0x80 + n % 64]
  }

  function Bytes(s: string): (r: seq<int>)
    ensures forall i | 0 <= i < |r| :: 0 <= r[i] < 256
  {
    if s == [] then [] else Encode(s[0]) + Bytes(s[1..])
  }

  predicate IsContinuation(b: int) {
    0x80 <= b < 0xC0
  }

  /** str::is_char_boundary: the ends, and every byte that does not continue a character. */
  predicate IsBoundary(bytes: seq<int>, i: nat) {
    i == 0 || i == |bytes| || (i < |bytes| && !IsContinuation(bytes[i]))
  }

  lemma {:induction false} BytesConcat(a: string, b: string)
    ensures Bytes(a + b) == Bytes(a) + Bytes(b)
  {
    if a == [] {
      assert a + b == b;
    } else {
      assert (a + b)[1..] == a[1..] + b;
      BytesConcat(a[1..], b);
    }
  }

  /** The byte offset of the k-th character. */
  function Offset(s: string, k: nat): nat
    requires k <= |s|
  {
    |Bytes(s[..k])|
  }

  lemma BytesOfChar(c: char)
    ensures Bytes([c]) == Encode(c)
  {
    assert [c][1..] == [];
  }

  lemma MiddleBytes(a: seq<int>, b: seq<int>, c: seq<int>)
    ensures forall i | 0 <= i < |b| :: (a + b + c)[|a| + i] == b[i]
  {
  }

  lemma OffsetStep(s: string, k: nat)
    requires k < |s|
    ensures Offset(s, k + 1) == Offset(s, k) + |Encode(s[k])|
    ensures Offset(s, k + 1) <= |Bytes(s)|
    ensures forall i | 0 <= i < |Encode(s[k])| :: Bytes(s)[Offset(s, k) + i] == Encode(s[k])[i]
  {
    assert s[..k + 1] == s[..k] + [s[k]];
    BytesConcat(s[..k], [s[k]]);
    BytesOfChar(s[k]);
    assert s == s[..k + 1] + s[k + 1..];
    BytesConcat(s[..k + 1], s[k + 1..]);
    MiddleBytes(Bytes(s[..k]), Encode(s[k]), Bytes(s[k + 1..]));
  }

  lemma OffsetEnds(s: string)
    ensures Offset(s, 0) == 0 && Offset(s, |s|) == |Bytes(s)|
  {
    assert s[..|s|] == s;
  }

  /** The number of whole characters within the first `max` bytes. */
  function Fitting(s: string, max: nat): (k: nat)
    ensures k <= |s|
  {
    if s == [] || |Encode(s[0])| > max then 0 else 1 + Fitting(s[1..], max - |Encode(s[0])|)
  }

  /** Those characters end at a boundary at most three bytes short of `max`. */
  lemma {:induction false} FittingIsLongest(s: string, max: nat)
    ensures var k := Fitting(s, max);
      && Offset(s, k) <= max
      && (k < |s| ==> max < Offset(s, k + 1) && max < Offset(s, k) + 4)
  {
    var k := Fitting(s, max);
    if k == 0 {
      if s != [] {
        OffsetStep(s, 0);
      }
    } else {
      var n := |Encode(s[0])|;
      FittingIsLongest(s[1..], max - n);
      assert s[..k] == [s[0]] + s[1..][..k - 1];
      if k < |s| {
        assert s[..k + 1] == [s[0]] + s[1..][..k];
      }
    }
  }

  lemma {:induction false} OffsetsGrow(s: string, j: nat, k: nat)
    requires j <= k <= |s|
    ensures Offset(s, j) + (k - j) <= Offset(s, k)
  {
    if j < k {
      OffsetStep(s, k - 1);
      OffsetsGrow(s, j, k - 1);
    }
  }

  /** Inside a character there is no boundary. */
  lemma NoBoundaryInside(s: string, k: nat, i: nat)
    requires k < |s| && Offset(s, k) < i < Offset(s, k + 1)
    ensures !IsBoundary(Bytes(s), i)
  {
    OffsetStep(s, k);
    assert Bytes(s)[Offset(s, k) + (i - Offset(s, k))] == Encode(s[k])[i - Offset(s, k)];
  }

  lemma BoundaryAtOffset(s: string, k: nat)
    requires k <= |s|
    ensures Offset(s, k) <= |Bytes(s)| && IsBoundary(Bytes(s), Offset(s, k))
  {
    OffsetEnds(s);
    if k < |s| {
      OffsetStep(s, k);
      assert Bytes(s)[Offset(s, k) + 0] == Encode(s[k])[0];
    }
  }

  // ---- Unique decoding ----

  /** The code point a character's bytes spell. */
  function CodeOf(r: seq<int>): int
    requires 1 <= |r| <= 4
  {
    if |r| == 1 then r[0]
    else if |r| == 2 then (r[0] - 0xC0) * 64 + (r[1] - 0x80)
    else if |r| == 3 then (r[0] - 0xE0) * 4096 + (r[1] - 0x80) * 64 + (r[2] - 0x80)
    else (r[0] - 0xF0) * 262144 + (r[1] - 0x80) * 4096 + (r[2] - 0x80) * 64 + (r[3] - 0x80)
  }

  lemma CodeOfEncode(c: char)
    ensures CodeOf(Encode(c)) == c as int
  {
    var n := c as int;
    assert n == n / 64 * 64 + n % 64;
    assert n / 64 == n / 4096 * 64 + n / 64 % 64;
    assert n / 4096 == n / 262144 * 64 + n / 4096 % 64;
  }

  lemma NextByte(a: seq<int>, x: seq<int>, b: seq<int>, y: seq<int>)
    requires a + x == b + y && |a| < |b|
    ensures x != [] && x[0] == b[|a|]
  {
    assert (a + x)[|a|] == (b + y)[|a|];
  }

  lemma NoLonger(a: seq<int>, x: seq<int>, b: seq<int>, y: seq<int>)
    requires a + x == b + y && |a| > 0
    requires forall i | 0 < i < |b| :: IsContinuation(b[i])
    requires x != [] ==> !IsContinuation(x[0])
    ensures |a| >= |b|
  {
    if |a| < |b| {
      NextByte(a, x, b, y);
      assert false;
    }
  }

  /** The first byte and its continuations determine the character. */
  lemma EncodePrefixFree(c: char, d: char, x: seq<int>, y: seq<int>)
    requires Encode(c) + x == Encode(d) + y
    requires x != [] ==> !IsContinuation(x[0])
    requires y != [] ==> !IsContinuation(y[0])
    ensures c == d
  {
    var a, b := Encode(c), Encode(d);
    NoLonger(a, x, b, y);
    NoLonger(b, y, a, x);
    assert (a + x)[..|a|] == a && (b + y)[..|b|] == b;
    CodeOfEncode(c);
    CodeOfEncode(d);
  }

  lemma BytesStart(s: string)
    ensures s != [] ==> Bytes(s) != [] && !IsContinuation(Bytes(s)[0])
  {
  }

  lemma {:induction false} BytesInjective(a: string, b: string)
    requires Bytes(a) == Bytes(b)
    ensures a == b
  {
    BytesStart(a);
    BytesStart(b);
    if a != [] {
      BytesStart(a[1..]);
      BytesStart(b[1..]);
      EncodePrefixFree(a[0], b[0], Bytes(a[1..]), Bytes(b[1..]));
      var n := |Encode(a[0])|;
      assert Bytes(a)[n..] == Bytes(a[1..]) && Bytes(b)[n..] == Bytes(b[1..]);
      BytesInjective(a[1..], b[1..]);
    }
  }
}
