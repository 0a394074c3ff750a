/** A multi-artist credit is its names with separators between them (src/match_keys.rs). */
module Credits {
  import opened Text
  import opened MatchKeys

  /** The pieces with the separators between them. */
  function Woven(pieces: seq<string>, seps: seq<string>): string
    requires |pieces| == |seps| + 1
  {
    if seps == [] then pieces[0] else pieces[0] + seps[0] + Woven(pieces[1..], seps[1..])
  }

  lemma {:induction false} WovenAppend(a: seq<string>, s: seq<string>, t: string, b: seq<string>,
                                       r: seq<string>)
    requires |a| == |s| + 1 && |b| == |r| + 1
    ensures |a + b| == |s + [t] + r| + 1
    ensures Woven(a + b, s + [t] + r) == Woven(a, s) + (t + Woven(b, r))
  {
    var pieces, seps := a + b, s + [t] + r;
    if s == [] {
      assert pieces[1..] == b && seps[1..] == r && seps[0] == t;
      ConcatAssociative(a[0], t, Woven(b, r));
    } else {
      assert pieces[1..] == a[1..] + b && seps[1..] == s[1..] + [t] + r && seps[0] == s[0];
      WovenAppend(a[1..], s[1..], t, b, r);
      ConcatAssociative(a[0] + s[0], Woven(a[1..], s[1..]), t + Woven(b, r));
    }
  }

  function Repeat(sep: string, n: nat): (s: seq<string>)
    ensures |s| == n && forall i | 0 <= i < n :: s[i] == sep
  {
    if n == 0 then [] else [sep] + Repeat(sep, n - 1)
  }

  lemma {:induction false} JoinIsWoven(parts: seq<string>, sep: string)
    requires parts != []
    ensures Join(parts, sep) == Woven(parts, Repeat(sep, |parts| - 1))
  {
    if |parts| > 1 {
      JoinIsWoven(parts[1..], sep);
      assert Repeat(sep, |parts| - 1)[1..] == Repeat(sep, |parts| - 2);
    }
  }

  /** The pieces are the text, cut at separators from the list. */
  ghost predicate Weaves(text: string, pieces: seq<string>, seps: seq<string>, from: seq<string>) {
    && |pieces| == |seps| + 1 && Woven(pieces, seps) == text
    && forall i | 0 <= i < |seps| :: seps[i] in from
  }

  lemma SplitWeaves(text: string, sep: string) returns (seps: seq<string>)
    requires sep != []
    ensures Weaves(text, Split(text, sep), seps, [sep])
  {
    seps := Repeat(sep, |Split(text, sep)| - 1);
    SplitJoins(text, sep);
    JoinIsWoven(Split(text, sep), sep);
  }

  lemma WeaveTwo(a: string, as_: seq<string>, s: seq<string>, t: string, b: string, bs: seq<string>,
                 r: seq<string>, from: seq<string>)
    requires Weaves(a, as_, s, from) && Weaves(b, bs, r, from) && t in from
    ensures Weaves(a + (t + b), as_ + bs, s + [t] + r, from)
  {
    WovenAppend(as_, s, t, bs, r);
  }

  lemma MoreSeparators(text: string, pieces: seq<string>, seps: seq<string>, from: seq<string>,
                       more: seq<string>)
    requires Weaves(text, pieces, seps, from) && forall s :: s in from ==> s in more
    ensures Weaves(text, pieces, seps, more)
  {
  }

  lemma {:induction false} SplitEachWeaves(text: string, parts: seq<string>, seps: seq<string>,
                                           sep: string, from: seq<string>)
    returns (more: seq<string>)
    requires Weaves(text, parts, seps, from) && sep != [] && sep in from
    ensures Weaves(text, SplitEach(parts, sep), more, from)
    decreases |parts|
  {
    var m := |parts| - 1;
    var front, last := parts[..m], parts[m];
    var tail := SplitWeaves(last, sep);
    MoreSeparators(last, Split(last, sep), tail, [sep], from);
    if m == 0 {
      assert front == [] && parts == [last];
      EmptyConcat(Split(last, sep));
      more := tail;
    } else {
      var less, t := seps[..m - 1], seps[m - 1];
      var none: seq<string> := [];
      Unsnoc(parts, front, last);
      Unsnoc(seps, less, t);
      EmptyConcat(less + [t]);
      WovenAppend(front, less, t, [last], none);
      var before := SplitEachWeaves(Woven(front, less), front, less, sep, from);
      WeaveTwo(Woven(front, less), SplitEach(front, sep), before, t, last, Split(last, sep), tail, from);
      more := before + [t] + tail;
    }
  }

  /** The names of a credit are exactly what stands between its separators, in order: putting the
      separators back gives the credit, and no name holds a separator of the list. */
  lemma {:induction false} CreditIsWoven(artist: string, n: nat) returns (seps: seq<string>)
    requires n <= |SEPARATORS|
    ensures Weaves(artist, CreditPieces(artist, n), seps, SEPARATORS)
    ensures forall p | p in CreditPieces(artist, n) :: FreeOf(p, n)
  {
    CreditPiecesFree(artist, n);
    if n == 0 {
      seps := [];
    } else {
      var less := CreditIsWoven(artist, n - 1);
      assert SEPARATORS[n - 1] in SEPARATORS;
      seps := SplitEachWeaves(artist, CreditPieces(artist, n - 1), less, SEPARATORS[n - 1], SEPARATORS);
    }
  }
}
