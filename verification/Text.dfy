/** Strings as the source's text code sees them: sequences of Unicode scalar values. */
module Text {

  datatype Option<+T> = None | Some(value: T)

  /** The Unicode White_Space property, which is what Rust's char::is_whitespace tests. */
  predicate IsSpace(c: char) {
    || '\t' <= c <= '\r' || c == ' ' || c == '\U{85}' || c == '\U{A0}' || c == '\U{1680}'
    || '\U{2000}' <= c <= '\U{200A}' || c == '\U{2028}' || c == '\U{2029}' || c == '\U{202F}'
    || c == '\U{205F}' || c == '\U{3000}'
  }

  predicate AllSpace(s: string) {
    forall i | 0 <= i < |s| :: IsSpace(s[i])
  }

  /** A slice of a slice is a slice. */
  lemma SliceOfSlice<T>(s: seq<T>, a: nat, b: nat, i: nat, j: nat)
    requires a <= b <= |s| && i <= j <= b - a
    ensures s[a..b][i..j] == s[a + i..a + j]
  {
    assert forall k | 0 <= k < j - i :: s[a..b][i..j][k] == s[a..b][i + k] == s[a + i..a + j][k];
  }

  lemma EmptySlice<T>(s: seq<T>, a: nat)
    requires a <= |s|
    ensures s[a..a] == []
  {
  }

  lemma SliceSnoc<T>(s: seq<T>, a: nat, b: nat)
    requires a <= b < |s|
    ensures s[a..b] + [s[b]] == s[a..b + 1]
  {
  }

  lemma EmptyConcat<T>(s: seq<T>)
    ensures [] + s == s && s + [] == s
  {
  }

  lemma ConcatAssociative<T>(a: seq<T>, b: seq<T>, c: seq<T>)
    ensures a + b + c == a + (b + c)
  {
  }

  lemma Unsnoc<T>(s: seq<T>, front: seq<T>, last: T)
    requires s != [] && front == s[..|s| - 1] && last == s[|s| - 1]
    ensures s == front + [last]
  {
  }

  lemma SuffixSlice<T>(s: seq<T>, n: nat, c: nat, d: nat)
    requires n <= |s| && c <= d <= |s| - n
    ensures s[n..][c..d] == s[n + c..n + d]
  {
  }

  lemma ThreeParts<T>(s: seq<T>, a: nat, b: nat)
    requires a <= b <= |s|
    ensures s == s[..a] + (s[a..b] + s[b..])
  {
  }

  // ---- Trimming ----

  /** The first index from `i` on that holds no space. */
  function InkStart(s: string, i: nat): (r: nat)
    requires i <= |s|
    ensures i <= r <= |s| && (r < |s| ==> !IsSpace(s[r]))
    ensures forall j | i <= j < r :: IsSpace(s[j])
    decreases |s| - i
  {
    if i < |s| && IsSpace(s[i]) then InkStart(s, i + 1) else i
  }

  /** The end of the last character before `n` that is no space. */
  function InkEnd(s: string, n: nat): (r: nat)
    requires n <= |s|
    ensures r <= n && (r > 0 ==> !IsSpace(s[r - 1]))
    ensures forall j | r <= j < n :: IsSpace(s[j])
  {
    if n > 0 && IsSpace(s[n - 1]) then InkEnd(s, n - 1) else n
  }

  function TrimStart(s: string): (r: string)
    ensures |r| <= |s| && r == s[|s| - |r|..] && AllSpace(s[..|s| - |r|])
    ensures r != [] ==> !IsSpace(r[0])
  {
    s[InkStart(s, 0)..]
  }

  function TrimEnd(s: string): (r: string)
    ensures |r| <= |s| && r == s[..|r|] && AllSpace(s[|r|..])
    ensures r != [] ==> !IsSpace(r[|r| - 1])
  {
    s[..InkEnd(s, |s|)]
  }

  function Trim(s: string): string {
    TrimEnd(TrimStart(s))
  }

  predicate IsTrimmed(s: string) {
    s != [] ==> !IsSpace(s[0]) && !IsSpace(s[|s| - 1])
  }

  /** Trimming removes space from both ends and nothing else. */
  lemma TrimSplits(s: string) returns (a: nat, b: nat)
    ensures a <= b <= |s| && Trim(s) == s[a..b]
    ensures AllSpace(s[..a]) && AllSpace(s[b..])
    ensures IsTrimmed(Trim(s))
  {
    var t := TrimStart(s);
    a := |s| - |t|;
    b := a + |Trim(s)|;
    assert Trim(s) == t[..|Trim(s)|];
    assert s[b..] == t[|Trim(s)|..];
    if Trim(s) != [] {
      assert Trim(s)[0] == t[0];
    }
  }

  lemma TrimmedIsFixed(s: string)
    requires IsTrimmed(s)
    ensures Trim(s) == s && TrimEnd(s) == s && TrimStart(s) == s
  {
  }

  // ---- Non-space characters ----

  /** The non-space characters of s, in order. */
  function Ink(s: string): string {
    if s == [] then []
    else (if IsSpace(s[0]) then [] else [s[0]]) + Ink(s[1..])
  }

  lemma {:induction false} InkConcat(s: string, t: string)
    ensures Ink(s + t) == Ink(s) + Ink(t)
  {
    if s == [] {
      assert s + t == t;
    } else {
      assert (s + t)[1..] == s[1..] + t;
      InkConcat(s[1..], t);
    }
  }

  lemma {:induction false} InkOfSpace(s: string)
    requires AllSpace(s)
    ensures Ink(s) == []
  {
    if s != [] {
      InkOfSpace(s[1..]);
    }
  }

  lemma {:induction false} NoInkIsSpace(s: string)
    requires Ink(s) == []
    ensures AllSpace(s)
  {
    if s != [] {
      NoInkIsSpace(s[1..]);
      forall i | 0 <= i < |s|
        ensures IsSpace(s[i])
      {
        assert i > 0 ==> s[i] == s[1..][i - 1];
      }
    }
  }

  lemma InkBetweenSpace(a: string, s: string, b: string)
    requires AllSpace(a) && AllSpace(b)
    ensures Ink(a + (s + b)) == Ink(s)
  {
    InkConcat(a, s + b);
    InkConcat(s, b);
    InkOfSpace(a);
    InkOfSpace(b);
  }

  lemma InkTrim(s: string)
    ensures Ink(Trim(s)) == Ink(s)
  {
    var a, b := TrimSplits(s);
    ThreeParts(s, a, b);
    InkBetweenSpace(s[..a], s[a..b], s[b..]);
  }

  // ---- Joining ----

  function Concat(parts: seq<string>): string {
    if parts == [] then [] else parts[0] + Concat(parts[1..])
  }

  lemma {:induction false} ConcatAppend(a: seq<string>, b: seq<string>)
    ensures Concat(a + b) == Concat(a) + Concat(b)
  {
    if a == [] {
      assert a + b == b;
    } else {
      assert (a + b)[1..] == a[1..] + b;
      ConcatAppend(a[1..], b);
    }
  }

  lemma ConcatOne(s: string)
    ensures Concat([s]) == s
  {
    assert [s][1..] == [];
  }

  lemma InkSnoc(front: seq<string>, last: string)
    ensures Ink(Concat(front + [last])) == Ink(Concat(front)) + Ink(last)
  {
    ConcatAppend(front, [last]);
    ConcatOne(last);
    InkConcat(Concat(front), last);
  }

  /** Parts that hold the ink of x, then parts that hold the ink of y. */
  lemma InkParts(a: seq<string>, b: seq<string>, x: string, y: string)
    requires Ink(Concat(a)) == Ink(x) && Ink(Concat(b)) == Ink(y)
    ensures Ink(Concat(a + b)) == Ink(x + y)
  {
    ConcatAppend(a, b);
    InkConcat(Concat(a), Concat(b));
    InkConcat(x, y);
  }

  lemma InkPartsSnoc(a: seq<string>, b: seq<string>, front: seq<string>, last: string)
    requires Ink(Concat(a)) == Ink(Concat(front)) && Ink(Concat(b)) == Ink(last)
    ensures Ink(Concat(a + b)) == Ink(Concat(front + [last]))
  {
    InkParts(a, b, Concat(front), last);
    InkConcat(Concat(front), last);
    InkSnoc(front, last);
  }

  function Join(parts: seq<string>, sep: string): string {
    if parts == [] then []
    else if |parts| == 1 then parts[0]
    else parts[0] + sep + Join(parts[1..], sep)
  }

  lemma {:induction false} JoinAppend(a: seq<string>, b: seq<string>, sep: string)
    requires a != [] && b != []
    ensures Join(a + b, sep) == Join(a, sep) + sep + Join(b, sep)
  {
    assert (a + b)[1..] == a[1..] + b;
    if |a| > 1 {
      JoinAppend(a[1..], b, sep);
    } else {
      assert a[1..] + b == b;
    }
  }

  /** Joining with a separator made of space adds no ink. */
  lemma {:induction false} InkJoin(parts: seq<string>, sep: string)
    requires AllSpace(sep)
    ensures Ink(Join(parts, sep)) == Ink(Concat(parts))
  {
    if |parts| == 1 {
      ConcatOne(parts[0]);
      assert parts == [parts[0]];
    } else if |parts| > 1 {
      InkJoin(parts[1..], sep);
      InkConcat(parts[0], Concat(parts[1..]));
      InkConcat(parts[0] + sep, Join(parts[1..], sep));
      InkConcat(parts[0], sep);
      InkOfSpace(sep);
    }
  }

  // ---- Searching and splitting ----

  predicate OccursAt(t: string, s: string, i: int) {
    0 <= i && i + |t| <= |s| && s[i..i + |t|] == t
  }

  predicate Contains(s: string, t: string) {
    exists i | 0 <= i <= |s| :: OccursAt(t, s, i)
  }

  lemma ContainsSlice(s: string, t: string, a: nat, b: nat)
    requires a <= b <= |s| && Contains(s[a..b], t)
    ensures Contains(s, t)
  {
    var i :| 0 <= i <= b - a && OccursAt(t, s[a..b], i);
    SliceOfSlice(s, a, b, i, i + |t|);
    assert OccursAt(t, s, a + i);
  }

  /** The first occurrence of t in s at or after `from`. */
  function Find(s: string, t: string, from: nat): (r: Option<nat>)
    requires from <= |s|
    ensures r.Some? ==> from <= r.value && OccursAt(t, s, r.value)
    ensures r.Some? ==> forall j | from <= j < r.value :: !OccursAt(t, s, j)
    ensures r.None? ==> forall j | from <= j <= |s| :: !OccursAt(t, s, j)
    decreases |s| - from
  {
    if OccursAt(t, s, from) then Some(from)
    else if from == |s| then None
    else Find(s, t, from + 1)
  }

  /** Rust's str::split on a nonempty pattern: the text between non-overlapping matches. */
  function Split(s: string, sep: string): (parts: seq<string>)
    requires sep != []
    ensures parts != []
    decreases |s|
  {
    match Find(s, sep, 0)
    case None => [s]
    case Some(i) => [s[..i]] + Split(s[i + |sep|..], sep)
  }

  lemma {:induction false} SplitJoins(s: string, sep: string)
    requires sep != []
    ensures Join(Split(s, sep), sep) == s
    decreases |s|
  {
    match Find(s, sep, 0)
    case None =>
    case Some(i) =>
      var rest := Split(s[i + |sep|..], sep);
      SplitJoins(s[i + |sep|..], sep);
      assert ([s[..i]] + rest)[1..] == rest;
      assert s == s[..i] + sep + s[i + |sep|..];
  }

  lemma SplitTail(s: string, sep: string) returns (n: nat)
    requires sep != [] && |Split(s, sep)| > 1
    ensures 0 < n <= |s| && Split(s, sep)[1..] == Split(s[n..], sep)
  {
    n := Find(s, sep, 0).value + |sep|;
  }

  lemma SplitHead(s: string, sep: string)
    requires sep != []
    ensures var head := Split(s, sep)[0]; head <= s && !Contains(head, sep)
  {
    match Find(s, sep, 0)
    case None =>
      PrefixBeforeFirst(s, sep, |s|);
      assert s[..|s|] == s;
    case Some(i) => PrefixBeforeFirst(s, sep, i);
  }

  lemma TailIndex<T>(s: seq<T>, rest: seq<T>, k: nat)
    requires 0 < k < |s| && s[1..] == rest
    ensures s[k] == rest[k - 1]
  {
  }

  lemma {:induction false} SplitPieceIsFree(s: string, sep: string, k: nat)
    requires sep != [] && k < |Split(s, sep)|
    ensures !Contains(Split(s, sep)[k], sep)
    decreases |s|
  {
    if k == 0 {
      SplitHead(s, sep);
    } else {
      var n := SplitTail(s, sep);
      TailIndex(Split(s, sep), Split(s[n..], sep), k);
      SplitPieceIsFree(s[n..], sep, k - 1);
    }
  }

  lemma {:induction false} SplitPieceIsSlice(s: string, sep: string, k: nat) returns (a: nat, b: nat)
    requires sep != [] && k < |Split(s, sep)|
    ensures a <= b <= |s| && Split(s, sep)[k] == s[a..b]
    decreases |s|
  {
    if k == 0 {
      SplitHead(s, sep);
      a, b := 0, |Split(s, sep)[0]|;
    } else {
      var n := SplitTail(s, sep);
      TailIndex(Split(s, sep), Split(s[n..], sep), k);
      var c, d := SplitPieceIsSlice(s[n..], sep, k - 1);
      SuffixSlice(s, n, c, d);
      a, b := n + c, n + d;
    }
  }

  /** Every piece of a split is a slice of the text and is free of the separator. */
  lemma SplitPieces(s: string, sep: string, k: nat) returns (a: nat, b: nat)
    requires sep != [] && k < |Split(s, sep)|
    ensures a <= b <= |s| && Split(s, sep)[k] == s[a..b]
    ensures !Contains(s[a..b], sep)
  {
    a, b := SplitPieceIsSlice(s, sep, k);
    SplitPieceIsFree(s, sep, k);
  }

  lemma OccursInPrefix(s: string, t: string, i: nat, j: int)
    requires i <= |s| && OccursAt(t, s[..i], j)
    ensures OccursAt(t, s, j) && j + |t| <= i
  {
    SliceOfSlice(s, 0, i, j, j + |t|);
  }

  /** The text before the first match holds no match. */
  lemma PrefixBeforeFirst(s: string, t: string, i: nat)
    requires i <= |s| && t != []
    requires forall j | 0 <= j < i :: !OccursAt(t, s, j)
    ensures !Contains(s[..i], t)
  {
    forall j | 0 <= j <= i
      ensures !OccursAt(t, s[..i], j)
    {
      if OccursAt(t, s[..i], j) {
        OccursInPrefix(s, t, i, j);
      }
    }
  }

  predicate IsWord(w: string) {
    w != [] && forall i | 0 <= i < |w| :: !IsSpace(w[i])
  }

  predicate AreWords(ws: seq<string>) {
    forall k | 0 <= k < |ws| :: IsWord(ws[k])
  }

  /** The maximal runs of non-space characters, as Rust's split_whitespace yields them. */
  function Words(s: string): (ws: seq<string>)
    ensures AreWords(ws)
    decreases |s|
  {
    if s == [] then []
    else if IsSpace(s[0]) then Words(s[1..])
    else
      var n := WordLength(s);
      [s[..n]] + Words(s[n..])
  }

  function WordLength(s: string): (n: nat)
    ensures n <= |s| && forall i | 0 <= i < n :: !IsSpace(s[i])
    ensures n < |s| ==> IsSpace(s[n])
    ensures s != [] && !IsSpace(s[0]) ==> n > 0
  {
    if s == [] || IsSpace(s[0]) then 0 else 1 + WordLength(s[1..])
  }

  lemma {:induction false} InkWords(s: string)
    ensures Concat(Words(s)) == Ink(s)
    decreases |s|
  {
    if s == [] {
    } else if IsSpace(s[0]) {
      InkWords(s[1..]);
    } else {
      var n := WordLength(s);
      InkWords(s[n..]);
      assert ([s[..n]] + Words(s[n..]))[1..] == Words(s[n..]);
      assert s == s[..n] + s[n..];
      InkConcat(s[..n], s[n..]);
      InkOfInk(s[..n]);
    }
  }

  lemma {:induction false} InkOfInk(s: string)
    requires forall i | 0 <= i < |s| :: !IsSpace(s[i])
    ensures Ink(s) == s
  {
    if s != [] {
      InkOfInk(s[1..]);
    }
  }

  lemma {:induction false} WordLengthPadded(s: string, post: string)
    requires AllSpace(post)
    ensures WordLength(s + post) == WordLength(s)
  {
    if s == [] {
      assert s + post == post;
    } else if !IsSpace(s[0]) {
      assert (s + post)[1..] == s[1..] + post;
      WordLengthPadded(s[1..], post);
    }
  }

  lemma {:induction false} WordsAfterSpace(pre: string, s: string)
    requires AllSpace(pre)
    ensures Words(pre + s) == Words(s)
  {
    if pre == [] {
      assert pre + s == s;
    } else {
      assert (pre + s)[1..] == pre[1..] + s;
      WordsAfterSpace(pre[1..], s);
    }
  }

  lemma WordsStep(s: string, post: string)
    requires s != [] && !IsSpace(s[0]) && AllSpace(post)
    ensures var n := WordLength(s);
      && Words(s) == [s[..n]] + Words(s[n..])
      && Words(s + post) == [s[..n]] + Words(s[n..] + post)
  {
    var n := WordLength(s);
    WordLengthPadded(s, post);
    assert (s + post)[..n] == s[..n] && (s + post)[n..] == s[n..] + post;
  }

  lemma {:induction false} WordsBeforeSpace(s: string, post: string)
    requires AllSpace(post)
    ensures Words(s + post) == Words(s)
    decreases |s|
  {
    if s == [] {
      WordsAfterSpace(post, []);
      EmptyConcat(post);
    } else if IsSpace(s[0]) {
      assert (s + post)[1..] == s[1..] + post;
      WordsBeforeSpace(s[1..], post);
    } else {
      WordsStep(s, post);
      WordsBeforeSpace(s[WordLength(s)..], post);
    }
  }

  /** Space around a text does not change its words. */
  lemma WordsOfTrimmed(s: string)
    ensures Words(Trim(s)) == Words(s)
  {
    var a, b := TrimSplits(s);
    ThreeParts(s, a, b);
    WordsAfterSpace(s[..a], s[a..b] + s[b..]);
    WordsBeforeSpace(s[a..b], s[b..]);
  }
}
