/** The order and the limits of a selection (src/passages/rank.rs), written out in what a passage is:
    when it was played, how close it is, what it names, what it is about, and its id. */
module RankOrder {
  import opened Text
  import opened MatchKeys
  import opened Ranker

  const WINDOW: int := 30 * 24 * 60 * 60 * 1_000_000

  /** Never played, or not within the last thirty days. */
  predicate IsEligible(l: Lookup, c: Candidate) {
    c.lastPlayed.None? || l.now - c.lastPlayed.value >= WINDOW
  }

  predicate NamesSong(l: Lookup, c: Candidate) {
    l.songKey != [] && Contains(MatchKey(l.casing, c.text), l.songKey)
  }

  function Share(subject: Subject): real {
    if subject == Song then 1.0 else if subject == Album then 0.85 else 0.7
  }

  /** How far a played passage has recovered, by the whole seconds since. */
  function Faded(l: Lookup, c: Candidate): real {
    if c.lastPlayed.None? then 1.0 else l.fade((l.now - c.lastPlayed.value) / 1_000_000)
  }

  function Closeness(l: Lookup, c: Candidate): real {
    Cosine(l.query, c.embedding) + if NamesSong(l, c) then 0.05 else 0.0
  }

  function Points(l: Lookup, c: Candidate): real {
    Closeness(l, c) * Share(c.subject) * Faded(l, c)
  }

  lemma RecoveryIs(l: Lookup, c: Candidate)
    ensures Recovery(l, c.lastPlayed) == if IsEligible(l, c) then Some(Faded(l, c)) else None
  {
    ExcludedIff(l, c.lastPlayed);
  }

  lemma ClosenessIs(l: Lookup, c: Candidate)
    ensures Cosine(l.query, c.embedding) + Boost(l, c.text) == Closeness(l, c)
    ensures Weight(c.subject) == Share(c.subject)
  {
  }

  /** Who is ranked, and by what: the play, the points and the passage itself. */
  lemma RankIs(l: Lookup, c: Candidate)
    ensures Rank(l, c)
      == if IsEligible(l, c) then Some(Ranked(c.lastPlayed.None?, Points(l, c), c)) else None
  {
    RecoveryIs(l, c);
    ClosenessIs(l, c);
    PointsAre(l, c);
  }

  lemma PointsAre(l: Lookup, c: Candidate)
    ensures Score(Closeness(l, c), Share(c.subject), Faded(l, c)) == Points(l, c)
  {
  }

  // ---- The order ----

  /** Never played before played, then more points, then the smaller id. */
  predicate ComesFirst(l: Lookup, c: Candidate, d: Candidate) {
    if c.lastPlayed.None? != d.lastPlayed.None? then c.lastPlayed.None?
    else if Points(l, c) != Points(l, d) then Points(l, c) > Points(l, d)
    else c.chunkId < d.chunkId
  }

  lemma PrecedesIs(l: Lookup, c: Candidate, d: Candidate)
    ensures Precedes(l, c, d) <==> IsEligible(l, c) && IsEligible(l, d) && ComesFirst(l, c, d)
  {
    RankIs(l, c);
    RankIs(l, d);
  }

  lemma BestComesFirst(l: Lookup, cs: seq<Candidate>, s: seq<Ranked>, c: Candidate)
    requires DistinctIds(cs) && s == Sort(Scored(l, cs)) && c in cs && IsEligible(l, c) && s != []
    ensures c == s[0].candidate || ComesFirst(l, s[0].candidate, c)
  {
    RankIs(l, c);
    var k := EligibleIsRanked(l, cs, s, c);
    if k > 0 {
      SortedPrecedes(l, cs, s, 0, k);
      PrecedesIs(l, s[0].candidate, c);
    }
  }

  /** The first selected passage comes before every other eligible one, and each before the next:
      the never played before the played, among either kind those with more points first, and
      among equals the smaller id. */
  lemma SelectionIsRanked(l: Lookup, cs: seq<Candidate>, budget: nat, result: Selection)
    returns (chosen: seq<Candidate>)
    requires IsSelection(l, cs, budget, result) && DistinctIds(cs) && result.Chosen?
    ensures result.ids == Ids(chosen) && chosen != []
    ensures forall i | 0 <= i < |chosen| :: chosen[i] in cs && IsEligible(l, chosen[i])
    ensures forall i, j | 0 <= i < j < |chosen| :: ComesFirst(l, chosen[i], chosen[j])
    ensures forall c | c in cs && IsEligible(l, c) :: c == chosen[0] || ComesFirst(l, chosen[0], c)
  {
    chosen := SelectionLimits(l, cs, budget, result);
    var s := Sort(Scored(l, cs));
    forall i, j | 0 <= i < j < |chosen|
      ensures ComesFirst(l, chosen[i], chosen[j])
    {
      assert Precedes(l, chosen[i], chosen[j]);
      PrecedesIs(l, chosen[i], chosen[j]);
    }
    forall i | 0 <= i < |chosen|
      ensures IsEligible(l, chosen[i])
    {
      SelectedIsEligible(l, cs, budget, result, chosen[i]);
    }
    forall c | c in cs && IsEligible(l, c)
      ensures c == chosen[0] || ComesFirst(l, chosen[0], c)
    {
      BestComesFirst(l, cs, s, c);
    }
  }

  lemma SelectedIsEligible(l: Lookup, cs: seq<Candidate>, budget: nat, result: Selection, c: Candidate)
    requires IsSelection(l, cs, budget, result) && DistinctIds(cs) && result.Chosen?
    requires c in cs && c.chunkId in result.ids
    ensures IsEligible(l, c)
  {
    if !IsEligible(l, c) {
      RecentPlaysAreExcluded(l, cs, budget, result, c);
    }
  }

  // ---- What makes a passage come first ----

  lemma MoreTimes(a: real, b: real, f: real)
    ensures f > 0.0 ==> (a * f > b * f <==> a > b)
  {
  }

  /** Of two passages alike in all but the vector, the one closer to the query comes first, once it
      has recovered at all. */
  lemma CloserComesFirst(l: Lookup, c: Candidate, d: Candidate)
    requires c.text == d.text && c.subject == d.subject && c.lastPlayed == d.lastPlayed
    requires Cosine(l.query, c.embedding) > Cosine(l.query, d.embedding) && Faded(l, c) > 0.0
    ensures ComesFirst(l, c, d)
  {
    var share, faded := Share(c.subject), Faded(l, c);
    MoreTimes(Closeness(l, c), Closeness(l, d), share);
    MoreTimes(Closeness(l, c) * share, Closeness(l, d) * share, faded);
  }

  /** Of two alike in all but the text, the one that names the song comes first. */
  lemma NamingComesFirst(l: Lookup, c: Candidate, d: Candidate)
    requires c.embedding == d.embedding && c.subject == d.subject && c.lastPlayed == d.lastPlayed
    requires NamesSong(l, c) && !NamesSong(l, d) && Faded(l, c) > 0.0
    ensures ComesFirst(l, c, d)
  {
    var share, faded := Share(c.subject), Faded(l, c);
    MoreTimes(Closeness(l, c), Closeness(l, d), share);
    MoreTimes(Closeness(l, c) * share, Closeness(l, d) * share, faded);
  }

  predicate MoreSpecific(a: Subject, b: Subject) {
    (a == Song && b != Song) || (a == Album && b == Artist)
  }

  /** Of two alike in all but the subject, song before album before artist, has more points exactly
      when what the subject weighs is positive: a passage that points away from the query, by more
      than the boost, loses by being about the song. */
  lemma SpecificHasMorePointsIff(l: Lookup, c: Candidate, d: Candidate)
    requires c.embedding == d.embedding && c.text == d.text && c.lastPlayed == d.lastPlayed
    requires MoreSpecific(c.subject, d.subject) && Faded(l, c) > 0.0
    ensures Points(l, c) > Points(l, d) <==> Closeness(l, c) > 0.0
    ensures Closeness(l, c) > 0.0 ==> ComesFirst(l, c, d)
  {
    var x, faded := Closeness(l, c), Faded(l, c);
    assert Share(c.subject) > Share(d.subject);
    ProductsCompare(x, Share(c.subject), Share(d.subject));
    MoreTimes(x * Share(c.subject), x * Share(d.subject), faded);
  }

  lemma ProductsCompare(x: real, a: real, b: real)
    requires a > b
    ensures x * a > x * b <==> x > 0.0
  {
    assert x * a - x * b == x * (a - b);
  }

  // ---- The similarity ----

  /** The dot product, component by component over the common length. */
  lemma {:induction false} CosineSnoc(a: Embedding, b: Embedding, x: real, y: real)
    requires |a| == |b|
    ensures Cosine(a + [x], b + [y]) == Cosine(a, b) + x * y
  {
    if a == [] {
      assert Cosine(a + [x], b + [y]) == x * y + Cosine([], []) by {
        assert (a + [x])[1..] == [] && (b + [y])[1..] == [];
      }
    } else {
      assert (a + [x])[1..] == a[1..] + [x] && (b + [y])[1..] == b[1..] + [y];
      CosineSnoc(a[1..], b[1..], x, y);
    }
  }

  lemma {:induction false} CosineOfCommon(a: Embedding, b: Embedding)
    ensures a == [] || b == [] ==> Cosine(a, b) == 0.0
    ensures |a| <= |b| ==> Cosine(a, b) == Cosine(a, b[..|a|])
    ensures Cosine(a, b) == Cosine(b, a)
  {
    if a != [] && b != [] {
      CosineOfCommon(a[1..], b[1..]);
      if |a| <= |b| {
        assert b[..|a|][1..] == b[1..][..|a| - 1];
      }
    }
  }

  // ---- The limits ----

  lemma {:induction false} CountedIsThere(cs: seq<Candidate>, d: int) returns (i: nat)
    requires CountOf(cs, d) >= 1
    ensures i < |cs| && cs[i].documentId == d
  {
    if cs[|cs| - 1].documentId == d {
      i := |cs| - 1;
    } else {
      i := CountedIsThere(cs[..|cs| - 1], d);
    }
  }

  lemma {:induction false} ThereIsCounted(cs: seq<Candidate>, d: int, i: nat)
    requires i < |cs| && cs[i].documentId == d
    ensures CountOf(cs, d) >= 1
  {
    if i < |cs| - 1 {
      ThereIsCounted(cs[..|cs| - 1], d, i);
    }
  }

  predicate TwoOf(cs: seq<Candidate>, d: int, i: int, j: int) {
    0 <= i < j < |cs| && cs[i].documentId == d && cs[j].documentId == d
  }

  lemma {:induction false} TwoAreCounted(cs: seq<Candidate>, d: int, i: nat, j: nat)
    requires TwoOf(cs, d, i, j)
    ensures CountOf(cs, d) >= 2
  {
    var front := cs[..|cs| - 1];
    if j == |cs| - 1 {
      ThereIsCounted(front, d, i);
    } else {
      TwoAreCounted(front, d, i, j);
    }
  }

  lemma {:induction false} CountedAreTwo(cs: seq<Candidate>, d: int) returns (i: nat, j: nat)
    requires CountOf(cs, d) >= 2
    ensures TwoOf(cs, d, i, j)
  {
    var front := cs[..|cs| - 1];
    if cs[|cs| - 1].documentId == d {
      i := CountedIsThere(front, d);
      j := |cs| - 1;
    } else {
      i, j := CountedAreTwo(front, d);
    }
  }

  /** A passage is blocked exactly by two chosen ones of its document or by a chosen one that is
      almost the same. */
  lemma BlockedIff(cs: seq<Candidate>, c: Candidate)
    ensures Blocked(cs, c) <==>
      || (exists i, j :: TwoOf(cs, c.documentId, i, j))
      || (exists k | 0 <= k < |cs| :: Cosine(cs[k].embedding, c.embedding) > 0.92)
  {
    if CountOf(cs, c.documentId) >= 2 {
      var i, j := CountedAreTwo(cs, c.documentId);
    }
    if i, j :| TwoOf(cs, c.documentId, i, j) {
      TwoAreCounted(cs, c.documentId, i, j);
    }
  }

  predicate ThreeOf(cs: seq<Candidate>, i: int, j: int, k: int) {
    0 <= i < j < k < |cs| && cs[i].documentId == cs[j].documentId == cs[k].documentId
  }

  lemma {:induction false} ThreeAreCounted(cs: seq<Candidate>, i: nat, j: nat, k: nat)
    requires ThreeOf(cs, i, j, k)
    ensures CountOf(cs, cs[i].documentId) >= 3
  {
    var front := cs[..|cs| - 1];
    if k == |cs| - 1 {
      TwoAreCounted(front, cs[i].documentId, i, j);
    } else {
      ThreeAreCounted(front, i, j, k);
    }
  }

  /** The tokens of passages, one by one. */
  lemma TokensAdd(cs: seq<Candidate>, c: Candidate)
    ensures TokensOf(cs + [c]) == TokensOf(cs) + c.tokenCount && TokensOf([]) == 0
  {
    assert (cs + [c])[..|cs|] == cs;
  }

  /** No document is selected three times, and no two selected passages are almost the same. */
  lemma SelectionVaries(l: Lookup, cs: seq<Candidate>, budget: nat, result: Selection)
    returns (chosen: seq<Candidate>)
    requires IsSelection(l, cs, budget, result) && result.Chosen?
    ensures result.ids == Ids(chosen)
    ensures forall i, j, k :: !ThreeOf(chosen, i, j, k)
    ensures forall i, j | 0 <= i < j < |chosen| :: Cosine(chosen[i].embedding, chosen[j].embedding) <= 0.92
    ensures TokensOf(chosen) <= budget || |chosen| == 1
  {
    chosen := SelectionLimits(l, cs, budget, result);
    forall i, j, k
      ensures !ThreeOf(chosen, i, j, k)
    {
      if ThreeOf(chosen, i, j, k) {
        ThreeAreCounted(chosen, i, j, k);
      }
    }
  }
}
