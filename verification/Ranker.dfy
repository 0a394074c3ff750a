/** Ranking the passages of one lookup (src/passages/rank.rs). Scores are exact reals; times are
    microseconds. */
module Ranker {
  import opened Text
  import opened MatchKeys

  const PER_DOCUMENT: nat := 2
  const NEAR_DUPLICATE: real := 0.92
  const TITLE_BOOST: real := 0.05
  const SECOND: int := 1_000_000
  const EXCLUSION_SECONDS: int := 30 * 86_400

  datatype Subject = Song | Album | Artist

  type Embedding = seq<real>

  datatype Candidate = Candidate(
    chunkId: int, documentId: int, text: string, tokenCount: nat, embedding: Embedding,
    subject: Subject, lastPlayed: Option<int>)

  datatype Selection = Chosen(ids: seq<int>) | AllExcluded | Empty

  /** A lookup: the query vector, the wanted song's key, the time, and how a played passage
      recovers with the seconds since it was played. */
  datatype Lookup = Lookup(query: Embedding, songKey: string, now: int, fade: int -> real, casing: Casing)

  // ---- Scores ----

  function Cosine(a: Embedding, b: Embedding): real {
    if a == [] || b == [] then 0.0 else a[0] * b[0] + Cosine(a[1..], b[1..])
  }

  function Weight(subject: Subject): real {
    match subject case Song => 1.0 case Album => 0.85 case Artist => 0.7
  }

  /** Whole seconds, rounded toward zero. */
  function Seconds(elapsed: int): int {
    if elapsed >= 0 then elapsed / SECOND else -(-elapsed / SECOND)
  }

  function Recovery(l: Lookup, lastPlayed: Option<int>): Option<real> {
    match lastPlayed
    case None => Some(1.0)
    case Some(at) =>
      if Seconds(l.now - at) < EXCLUSION_SECONDS then None else Some(l.fade(Seconds(l.now - at)))
  }

  /** Only a passage played less than thirty days ago is excluded. */
  lemma ExcludedIff(l: Lookup, lastPlayed: Option<int>)
    ensures Recovery(l, lastPlayed).None? <==>
      lastPlayed.Some? && l.now - lastPlayed.value < EXCLUSION_SECONDS * SECOND
  {
  }

  function Boost(l: Lookup, text: string): real {
    if l.songKey != [] && Contains(MatchKey(l.casing, text), l.songKey) then TITLE_BOOST else 0.0
  }

  function Score(closeness: real, weight: real, recovery: real): real {
    closeness * weight * recovery
  }

  datatype Ranked = Ranked(neverPlayed: bool, score: real, candidate: Candidate)

  function Rank(l: Lookup, c: Candidate): Option<Ranked> {
    match Recovery(l, c.lastPlayed)
    case None => None
    case Some(recovery) =>
      Some(Ranked(c.lastPlayed.None?,
                  Score(Cosine(l.query, c.embedding) + Boost(l, c.text), Weight(c.subject), recovery),
                  c))
  }

  function Scored(l: Lookup, cs: seq<Candidate>): seq<Ranked> {
    if cs == [] then []
    else
      Scored(l, cs[..|cs| - 1])
      + (match Rank(l, cs[|cs| - 1]) case None => [] case Some(r) => [r])
  }

  // ---- The order ----

  /** Never played first, then the higher score, then the smaller chunk id. */
  predicate Ahead(a: Ranked, b: Ranked) {
    || (a.neverPlayed && !b.neverPlayed)
    || (a.neverPlayed == b.neverPlayed
        && (a.score > b.score || (a.score == b.score && a.candidate.chunkId < b.candidate.chunkId)))
  }

  function Insert(sorted: seq<Ranked>, r: Ranked): seq<Ranked> {
    if sorted == [] then [r]
    else if Ahead(r, sorted[|sorted| - 1]) then
      Insert(sorted[..|sorted| - 1], r) + [sorted[|sorted| - 1]]
    else sorted + [r]
  }

  function Sort(rs: seq<Ranked>): seq<Ranked> {
    if rs == [] then [] else Insert(Sort(rs[..|rs| - 1]), rs[|rs| - 1])
  }

  ghost predicate StrictlySorted(rs: seq<Ranked>) {
    forall i, j | 0 <= i < j < |rs| :: Ahead(rs[i], rs[j])
  }

  lemma {:induction false} InsertElements(sorted: seq<Ranked>, r: Ranked)
    ensures forall x :: x in Insert(sorted, r) <==> x in sorted || x == r
  {
    if sorted != [] {
      var front, last := sorted[..|sorted| - 1], sorted[|sorted| - 1];
      assert sorted == front + [last];
      InsertElements(front, r);
    }
  }

  lemma {:induction false} InsertSorts(sorted: seq<Ranked>, r: Ranked)
    requires StrictlySorted(sorted)
    requires forall x :: x in sorted ==> x.candidate.chunkId != r.candidate.chunkId
    ensures StrictlySorted(Insert(sorted, r))
  {
    if sorted != [] {
      var front, last := sorted[..|sorted| - 1], sorted[|sorted| - 1];
      if Ahead(r, last) {
        InsertSorts(front, r);
        InsertElements(front, r);
        forall i | 0 <= i < |Insert(front, r)|
          ensures Ahead(Insert(front, r)[i], last)
        {
          assert Insert(front, r)[i] in Insert(front, r);
        }
      } else {
        assert last in sorted;
        forall i | 0 <= i < |sorted|
          ensures Ahead(sorted[i], r)
        {
        }
      }
    }
  }

  ghost predicate DistinctRanked(rs: seq<Ranked>) {
    forall i, j | 0 <= i < j < |rs| :: rs[i].candidate.chunkId != rs[j].candidate.chunkId
  }

  /** Sorting keeps the elements and, when the chunk ids are distinct, orders them strictly. */
  lemma {:induction false} SortSorts(rs: seq<Ranked>)
    ensures forall x :: x in Sort(rs) <==> x in rs
    ensures DistinctRanked(rs) ==> StrictlySorted(Sort(rs))
  {
    if rs != [] {
      var front, last := rs[..|rs| - 1], rs[|rs| - 1];
      assert rs == front + [last];
      SortSorts(front);
      InsertElements(Sort(front), last);
      if DistinctRanked(rs) {
        forall x | x in Sort(front)
          ensures x.candidate.chunkId != last.candidate.chunkId
        {
          var i :| 0 <= i < |front| && front[i] == x;
          assert rs[i] == x && rs[|rs| - 1] == last;
        }
        assert DistinctRanked(front) by {
          forall i, j | 0 <= i < j < |front|
            ensures front[i].candidate.chunkId != front[j].candidate.chunkId
          {
            assert rs[i] == front[i] && rs[j] == front[j];
          }
        }
        InsertSorts(Sort(front), last);
      }
    }
  }

  lemma SameHead(a: seq<Ranked>, b: seq<Ranked>)
    requires StrictlySorted(a) && StrictlySorted(b) && a != [] && b != []
    requires forall x :: x in a <==> x in b
    ensures a[0] == b[0]
  {
    assert a[0] in b && b[0] in a;
    var k :| 0 <= k < |b| && b[k] == a[0];
    var m :| 0 <= m < |a| && a[m] == b[0];
  }

  /** The strict order has one arrangement of given elements. */
  lemma {:induction false} SortedUnique(a: seq<Ranked>, b: seq<Ranked>)
    requires StrictlySorted(a) && StrictlySorted(b)
    requires forall x :: x in a <==> x in b
    ensures a == b
  {
    assert |b| > 0 ==> b[0] in b;
    if a != [] {
      assert a[0] in b;
      SameHead(a, b);
      forall x
        ensures x in a[1..] <==> x in b[1..]
      {
        NotInTail(a, x);
        NotInTail(b, x);
      }
      SortedUnique(a[1..], b[1..]);
      assert a == [a[0]] + a[1..] && b == [b[0]] + b[1..];
    }
  }

  lemma NotInTail(a: seq<Ranked>, x: Ranked)
    requires StrictlySorted(a) && a != []
    ensures x in a[1..] <==> x in a && x != a[0]
  {
    if x in a && x != a[0] {
      var i :| 0 <= i < |a| && a[i] == x;
      assert a[1..][i - 1] == x;
    }
    forall i | 0 <= i < |a[1..]|
      ensures a[1..][i] in a && a[1..][i] != a[0]
    {
      assert a[1..][i] == a[i + 1];
    }
  }

  // ---- The greedy choice ----

  function TokensOf(cs: seq<Candidate>): nat {
    if cs == [] then 0 else TokensOf(cs[..|cs| - 1]) + cs[|cs| - 1].tokenCount
  }

  function CountOf(cs: seq<Candidate>, documentId: int): nat {
    if cs == [] then 0
    else CountOf(cs[..|cs| - 1], documentId)
         + (if cs[|cs| - 1].documentId == documentId then 1 else 0)
  }

  predicate NearDuplicate(cs: seq<Candidate>, c: Candidate) {
    exists i | 0 <= i < |cs| :: Cosine(cs[i].embedding, c.embedding) > NEAR_DUPLICATE
  }

  predicate Blocked(cs: seq<Candidate>, c: Candidate) {
    CountOf(cs, c.documentId) >= PER_DOCUMENT || NearDuplicate(cs, c)
  }

  predicate Affordable(cs: seq<Candidate>, c: Candidate, budget: nat) {
    cs == [] || TokensOf(cs) + c.tokenCount <= budget
  }

  /** The candidates of s at the kept positions below n, in order. */
  function KeptBelow(s: seq<Ranked>, kept: set<nat>, n: nat): seq<Candidate>
    requires n <= |s|
  {
    if n == 0 then []
    else KeptBelow(s, kept, n - 1) + (if n - 1 in kept then [s[n - 1].candidate] else [])
  }

  /** What the greedy choice is: up to `stop`, exactly the candidates not blocked by those kept
      before them are kept, each within the budget; the one at `stop`, if any, is not blocked
      and is over the budget. */
  ghost predicate IsGreedy(s: seq<Ranked>, budget: nat, kept: set<nat>, stop: nat) {
    && stop <= |s| && (forall i :: i in kept ==> i < stop)
    && (forall i | 0 <= i < stop :: KeptRightly(s, budget, kept, i))
    && (stop < |s| ==> StopsAt(s, budget, kept, stop))
  }

  ghost predicate KeptRightly(s: seq<Ranked>, budget: nat, kept: set<nat>, i: nat)
    requires i < |s|
  {
    var before := KeptBelow(s, kept, i);
    && (i in kept <==> !Blocked(before, s[i].candidate))
    && (i in kept ==> Affordable(before, s[i].candidate, budget))
  }

  ghost predicate StopsAt(s: seq<Ranked>, budget: nat, kept: set<nat>, i: nat)
    requires i < |s|
  {
    var before := KeptBelow(s, kept, i);
    !Blocked(before, s[i].candidate) && !Affordable(before, s[i].candidate, budget)
  }

  lemma {:induction false} KeptBelowSame(s: seq<Ranked>, a: set<nat>, b: set<nat>, n: nat)
    requires n <= |s| && forall i: nat | i < n :: i in a <==> i in b
    ensures KeptBelow(s, a, n) == KeptBelow(s, b, n)
  {
    if n > 0 {
      KeptBelowSame(s, a, b, n - 1);
    }
  }

  lemma {:induction false} GreedySame(s: seq<Ranked>, budget: nat, a: set<nat>, m: nat, b: set<nat>,
                                      n: nat, i: nat)
    requires IsGreedy(s, budget, a, m) && IsGreedy(s, budget, b, n) && i <= m && i <= n
    ensures forall k: nat | k < i :: k in a <==> k in b
  {
    if i > 0 {
      GreedySame(s, budget, a, m, b, n, i - 1);
      KeptBelowSame(s, a, b, i - 1);
      assert KeptRightly(s, budget, a, i - 1) && KeptRightly(s, budget, b, i - 1);
    }
  }

  lemma NoLaterStop(s: seq<Ranked>, budget: nat, a: set<nat>, m: nat, b: set<nat>, n: nat)
    requires IsGreedy(s, budget, a, m) && IsGreedy(s, budget, b, n)
    ensures m >= n
  {
    if m < n {
      GreedySame(s, budget, a, m, b, n, m);
      KeptBelowSame(s, a, b, m);
      KeptAt(s, budget, b, n, m);
      assert false;
    }
  }

  lemma KeptAt(s: seq<Ranked>, budget: nat, kept: set<nat>, stop: nat, i: nat)
    requires IsGreedy(s, budget, kept, stop) && i < stop
    ensures KeptRightly(s, budget, kept, i)
  {
  }

  ghost predicate IsChoice(s: seq<Ranked>, budget: nat, chosen: seq<Candidate>) {
    exists kept: set<nat>, stop: nat ::
      IsGreedy(s, budget, kept, stop) && chosen == KeptBelow(s, kept, stop)
  }

  lemma GreedyUnique(s: seq<Ranked>, budget: nat, a: set<nat>, m: nat, b: set<nat>, n: nat)
    requires IsGreedy(s, budget, a, m) && IsGreedy(s, budget, b, n)
    ensures m == n && KeptBelow(s, a, m) == KeptBelow(s, b, n)
  {
    NoLaterStop(s, budget, a, m, b, n);
    NoLaterStop(s, budget, b, n, a, m);
    GreedySame(s, budget, a, m, b, n, m);
    KeptBelowSame(s, a, b, m);
  }

  /** The greedy choice is determined by what it is. */
  lemma ChoiceUnique(s: seq<Ranked>, budget: nat, p: seq<Candidate>, q: seq<Candidate>)
    requires IsChoice(s, budget, p) && IsChoice(s, budget, q)
    ensures p == q
  {
    var a: set<nat>, m: nat :| IsGreedy(s, budget, a, m) && p == KeptBelow(s, a, m);
    var b: set<nat>, n: nat :| IsGreedy(s, budget, b, n) && q == KeptBelow(s, b, n);
    GreedyUnique(s, budget, a, m, b, n);
  }

  method GreedyChoice(s: seq<Ranked>, budget: nat) returns (chosen: seq<Candidate>)
    ensures IsChoice(s, budget, chosen)
  {
    chosen := [];
    ghost var kept: set<nat> := {};
    var used := 0;
    var i: nat := 0;
    while i < |s|
      invariant i <= |s| && used == TokensOf(chosen)
      invariant forall k :: k in kept ==> k < i
      invariant forall k | 0 <= k < i :: KeptRightly(s, budget, kept, k)
      invariant chosen == KeptBelow(s, kept, i)
    {
      var c := s[i].candidate;
      if Blocked(chosen, c) {
        SkipOne(s, budget, kept, i);
      } else {
        if chosen != [] && used + c.tokenCount > budget {
          assert IsGreedy(s, budget, kept, i);
          return;
        }
        KeepOne(s, budget, kept, i);
        used := used + c.tokenCount;
        assert (chosen + [c])[..|chosen|] == chosen;
        chosen := chosen + [c];
        kept := kept + {i};
      }
      i := i + 1;
    }
    assert IsGreedy(s, budget, kept, i);
  }

  lemma SkipOne(s: seq<Ranked>, budget: nat, kept: set<nat>, i: nat)
    requires i < |s| && (forall k :: k in kept ==> k < i)
    requires forall k | 0 <= k < i :: KeptRightly(s, budget, kept, k)
    requires Blocked(KeptBelow(s, kept, i), s[i].candidate)
    ensures forall k | 0 <= k < i + 1 :: KeptRightly(s, budget, kept, k)
    ensures KeptBelow(s, kept, i + 1) == KeptBelow(s, kept, i)
  {
    assert i !in kept;
  }

  lemma KeepOne(s: seq<Ranked>, budget: nat, kept: set<nat>, i: nat)
    requires i < |s| && (forall k :: k in kept ==> k < i)
    requires forall k | 0 <= k < i :: KeptRightly(s, budget, kept, k)
    requires !Blocked(KeptBelow(s, kept, i), s[i].candidate)
    requires Affordable(KeptBelow(s, kept, i), s[i].candidate, budget)
    ensures forall k | 0 <= k < i + 1 :: KeptRightly(s, budget, kept + {i}, k)
    ensures KeptBelow(s, kept + {i}, i + 1) == KeptBelow(s, kept, i) + [s[i].candidate]
  {
    forall k: nat | k <= i
      ensures KeptBelow(s, kept + {i}, k) == KeptBelow(s, kept, k)
    {
      KeptBelowSame(s, kept + {i}, kept, k);
    }
    forall k | 0 <= k < i + 1
      ensures KeptRightly(s, budget, kept + {i}, k)
    {
      assert k < i ==> KeptRightly(s, budget, kept, k);
    }
  }

  // ---- select ----

  function Ids(cs: seq<Candidate>): (ids: seq<int>)
    ensures |ids| == |cs| && forall i | 0 <= i < |cs| :: ids[i] == cs[i].chunkId
  {
    if cs == [] then [] else [cs[0].chunkId] + Ids(cs[1..])
  }

  /** The lookup's selection is the greedy choice from the sorted scored candidates. */
  ghost predicate IsSelection(l: Lookup, cs: seq<Candidate>, budget: nat, result: Selection) {
    match result
    case Empty => cs == []
    case AllExcluded => cs != [] && Scored(l, cs) == []
    case Chosen(ids) =>
      && Scored(l, cs) != []
      && exists chosen :: IsChoice(Sort(Scored(l, cs)), budget, chosen) && ids == Ids(chosen)
  }

  method Select(l: Lookup, cs: seq<Candidate>, budget: nat) returns (result: Selection)
    ensures IsSelection(l, cs, budget, result)
  {
    if cs == [] {
      return Empty;
    }
    var scored := Scored(l, cs);
    if scored == [] {
      return AllExcluded;
    }
    var chosen := GreedyChoice(Sort(scored), budget);
    result := Chosen(Ids(chosen));
  }

  // ---- What a selection guarantees ----

  /** The selection is a function of the lookup and the candidates. */
  lemma SelectionUnique(l: Lookup, cs: seq<Candidate>, budget: nat, a: Selection, b: Selection)
    requires IsSelection(l, cs, budget, a) && IsSelection(l, cs, budget, b)
    ensures a == b
  {
    if a.Chosen? && b.Chosen? {
      var s := Sort(Scored(l, cs));
      var p :| IsChoice(s, budget, p) && a.ids == Ids(p);
      var q :| IsChoice(s, budget, q) && b.ids == Ids(q);
      ChoiceUnique(s, budget, p, q);
    }
  }

  ghost predicate DistinctIds(cs: seq<Candidate>) {
    forall i, j | 0 <= i < j < |cs| :: cs[i].chunkId != cs[j].chunkId
  }

  lemma {:induction false} ScoredElements(l: Lookup, cs: seq<Candidate>, r: Ranked)
    ensures r in Scored(l, cs) <==> r.candidate in cs && Rank(l, r.candidate) == Some(r)
  {
    if cs != [] {
      var front, last := cs[..|cs| - 1], cs[|cs| - 1];
      assert cs == front + [last];
      ScoredElements(l, front, r);
    }
  }

  lemma {:induction false} ScoredDistinct(l: Lookup, cs: seq<Candidate>)
    requires DistinctIds(cs)
    ensures DistinctRanked(Scored(l, cs))
  {
    if cs != [] {
      var front, last := cs[..|cs| - 1], cs[|cs| - 1];
      ScoredDistinct(l, front);
      var rs := Scored(l, front);
      forall i | 0 <= i < |rs|
        ensures rs[i].candidate.chunkId != last.chunkId
      {
        assert rs[i] in rs;
        ScoredElements(l, front, rs[i]);
        var k :| 0 <= k < |front| && front[k] == rs[i].candidate;
        assert cs[k] == front[k];
      }
    }
  }

  lemma SameElements(a: seq<Candidate>, b: seq<Candidate>)
    requires multiset(a) == multiset(b)
    ensures forall c :: c in a <==> c in b
    ensures a == [] <==> b == []
  {
    forall c
      ensures c in a <==> c in b
    {
      assert c in a <==> c in multiset(a);
      assert c in b <==> c in multiset(b);
    }
    assert |multiset(a)| == |a| && |multiset(b)| == |b|;
  }

  lemma SameScored(l: Lookup, cs: seq<Candidate>, ds: seq<Candidate>)
    requires forall c :: c in cs <==> c in ds
    ensures forall r :: r in Scored(l, cs) <==> r in Scored(l, ds)
    ensures Scored(l, cs) == [] <==> Scored(l, ds) == []
  {
    forall r
      ensures r in Scored(l, cs) <==> r in Scored(l, ds)
    {
      ScoredElements(l, cs, r);
      ScoredElements(l, ds, r);
    }
    assert Scored(l, cs) != [] ==> Scored(l, cs)[0] in Scored(l, cs);
    assert Scored(l, ds) != [] ==> Scored(l, ds)[0] in Scored(l, ds);
  }

  /** The order in which the candidates arrive does not matter. */
  lemma SelectionIgnoresOrder(l: Lookup, cs: seq<Candidate>, ds: seq<Candidate>, budget: nat,
                              a: Selection, b: Selection)
    requires DistinctIds(cs) && DistinctIds(ds) && multiset(cs) == multiset(ds)
    requires IsSelection(l, cs, budget, a) && IsSelection(l, ds, budget, b)
    ensures a == b
  {
    SameElements(cs, ds);
    SameScored(l, cs, ds);
    ScoredDistinct(l, cs);
    ScoredDistinct(l, ds);
    SortSorts(Scored(l, cs));
    SortSorts(Scored(l, ds));
    SortedUnique(Sort(Scored(l, cs)), Sort(Scored(l, ds)));
    assert IsSelection(l, cs, budget, b);
    SelectionUnique(l, cs, budget, a, b);
  }

  /** The variety and budget limits a choice keeps to. */
  ghost predicate WithinLimits(chosen: seq<Candidate>, budget: nat) {
    && (forall d: int :: CountOf(chosen, d) <= PER_DOCUMENT)
    && (forall i, j | 0 <= i < j < |chosen| ::
      Cosine(chosen[i].embedding, chosen[j].embedding) <= NEAR_DUPLICATE)
    && (TokensOf(chosen) <= budget || |chosen| <= 1)
  }

  lemma AddWithin(chosen: seq<Candidate>, c: Candidate, budget: nat)
    requires WithinLimits(chosen, budget) && !Blocked(chosen, c) && Affordable(chosen, c, budget)
    ensures WithinLimits(chosen + [c], budget)
  {
    assert (chosen + [c])[..|chosen|] == chosen;
    forall d: int
      ensures CountOf(chosen + [c], d) <= PER_DOCUMENT
    {
      assert CountOf(chosen, d) <= PER_DOCUMENT;
    }
  }

  lemma KeptBelowStep(s: seq<Ranked>, kept: set<nat>, i: nat)
    requires i < |s|
    ensures KeptBelow(s, kept, i + 1)
      == KeptBelow(s, kept, i) + if i in kept then [s[i].candidate] else []
  {
  }

  lemma WithinStep(s: seq<Ranked>, budget: nat, kept: set<nat>, i: nat)
    requires i < |s| && KeptRightly(s, budget, kept, i)
    requires WithinLimits(KeptBelow(s, kept, i), budget)
    ensures WithinLimits(KeptBelow(s, kept, i + 1), budget)
  {
    var before := KeptBelow(s, kept, i);
    KeptBelowStep(s, kept, i);
    if i in kept {
      AddWithin(before, s[i].candidate, budget);
    } else {
      EmptyConcat(before);
    }
  }

  lemma {:induction false} GreedyWithin(s: seq<Ranked>, budget: nat, kept: set<nat>, stop: nat, i: nat)
    requires IsGreedy(s, budget, kept, stop) && i <= stop
    ensures WithinLimits(KeptBelow(s, kept, i), budget)
  {
    if i > 0 {
      GreedyWithin(s, budget, kept, stop, i - 1);
      KeptAt(s, budget, kept, stop, i - 1);
      WithinStep(s, budget, kept, i - 1);
    }
  }

  lemma {:induction false} KeptFrom(s: seq<Ranked>, kept: set<nat>, n: nat, i: nat)
    requires i < n <= |s| && i in kept
    ensures KeptBelow(s, kept, i) + [s[i].candidate] <= KeptBelow(s, kept, n)
  {
    if i < n - 1 {
      KeptFrom(s, kept, n - 1, i);
    }
  }

  lemma FirstIsKept(s: seq<Ranked>, budget: nat, kept: set<nat>, stop: nat)
    requires IsGreedy(s, budget, kept, stop) && s != []
    ensures KeptBelow(s, kept, stop) != [] && KeptBelow(s, kept, stop)[0] == s[0].candidate
  {
    assert KeptBelow(s, kept, 0) == [];
    assert !Blocked([], s[0].candidate);
    if stop == 0 {
      assert false;
    }
    assert KeptRightly(s, budget, kept, 0);
    KeptFrom(s, kept, stop, 0);
  }

  /** Passages in the order of the ranking. */
  ghost predicate InOrder(l: Lookup, cs: seq<Candidate>) {
    forall i, j | 0 <= i < j < |cs| :: Precedes(l, cs[i], cs[j])
  }

  predicate Precedes(l: Lookup, c: Candidate, d: Candidate) {
    Rank(l, c).Some? && Rank(l, d).Some? && Ahead(Rank(l, c).value, Rank(l, d).value)
  }

  /** A selection is not empty and opens with the best passage, follows the ranking, repeats no
      document more than twice, holds no near duplicates, and is over the budget only when it is
      that passage alone. */
  lemma SelectionLimits(l: Lookup, cs: seq<Candidate>, budget: nat, result: Selection)
    returns (chosen: seq<Candidate>)
    requires IsSelection(l, cs, budget, result) && result.Chosen?
    ensures result.ids == Ids(chosen) && chosen != [] && WithinLimits(chosen, budget)
    ensures Sort(Scored(l, cs)) != [] && chosen[0] == Sort(Scored(l, cs))[0].candidate
    ensures forall i | 0 <= i < |chosen| :: chosen[i] in cs
    ensures DistinctIds(cs) ==> InOrder(l, chosen)
  {
    var s := Sort(Scored(l, cs));
    var kept: set<nat>, stop: nat :|
      IsGreedy(s, budget, kept, stop) && result.ids == Ids(KeptBelow(s, kept, stop));
    SortSorts(Scored(l, cs));
    assert Scored(l, cs)[0] in s;
    FirstIsKept(s, budget, kept, stop);
    GreedyWithin(s, budget, kept, stop, stop);
    chosen := KeptBelow(s, kept, stop);
    forall i | 0 <= i < |chosen|
      ensures chosen[i] in cs
    {
      KeptIsCandidate(l, cs, s, kept, stop, i);
    }
    if DistinctIds(cs) {
      SelectionInOrder(l, cs, s, kept, stop);
    }
  }

  lemma {:induction false} KeptIsRanked(s: seq<Ranked>, kept: set<nat>, n: nat, i: nat)
    requires n <= |s| && i < |KeptBelow(s, kept, n)|
    ensures exists k :: 0 <= k < n && s[k].candidate == KeptBelow(s, kept, n)[i]
  {
    if i < |KeptBelow(s, kept, n - 1)| {
      KeptIsRanked(s, kept, n - 1, i);
    }
  }

  lemma KeptIsCandidate(l: Lookup, cs: seq<Candidate>, s: seq<Ranked>, kept: set<nat>, n: nat, i: nat)
    requires s == Sort(Scored(l, cs)) && n <= |s| && i < |KeptBelow(s, kept, n)|
    ensures var c := KeptBelow(s, kept, n)[i];
      c in cs && Recovery(l, c.lastPlayed).Some?
  {
    KeptIsRanked(s, kept, n, i);
    var k :| 0 <= k < n && s[k].candidate == KeptBelow(s, kept, n)[i];
    SortSorts(Scored(l, cs));
    assert s[k] in s;
    ScoredElements(l, cs, s[k]);
  }

  lemma {:induction false} KeptInOrder(s: seq<Ranked>, kept: set<nat>, n: nat, i: nat, j: nat)
    requires StrictlySorted(s) && n <= |s| && i < j < |KeptBelow(s, kept, n)|
    ensures exists a, b :: 0 <= a < b < n
                           && s[a].candidate == KeptBelow(s, kept, n)[i]
                           && s[b].candidate == KeptBelow(s, kept, n)[j]
  {
    var before := KeptBelow(s, kept, n - 1);
    if j < |before| {
      KeptInOrder(s, kept, n - 1, i, j);
    } else {
      KeptIsRanked(s, kept, n - 1, i);
      assert s[n - 1].candidate == KeptBelow(s, kept, n)[j];
    }
  }

  lemma SelectionInOrder(l: Lookup, cs: seq<Candidate>, s: seq<Ranked>, kept: set<nat>, n: nat)
    requires DistinctIds(cs) && s == Sort(Scored(l, cs)) && n <= |s|
    ensures InOrder(l, KeptBelow(s, kept, n))
  {
    ScoredDistinct(l, cs);
    SortSorts(Scored(l, cs));
    var chosen := KeptBelow(s, kept, n);
    forall i, j | 0 <= i < j < |chosen|
      ensures Precedes(l, chosen[i], chosen[j])
    {
      KeptInOrder(s, kept, n, i, j);
      var a, b :| 0 <= a < b < n && s[a].candidate == chosen[i] && s[b].candidate == chosen[j];
      SortedPrecedes(l, cs, s, a, b);
    }
  }

  lemma SortedPrecedes(l: Lookup, cs: seq<Candidate>, s: seq<Ranked>, a: nat, b: nat)
    requires DistinctIds(cs) && s == Sort(Scored(l, cs)) && a < b < |s|
    ensures Precedes(l, s[a].candidate, s[b].candidate)
  {
    ScoredDistinct(l, cs);
    SortSorts(Scored(l, cs));
    assert s[a] in s && s[b] in s;
    ScoredElements(l, cs, s[a]);
    ScoredElements(l, cs, s[b]);
  }

  lemma {:induction false} KeptGrows(s: seq<Ranked>, kept: set<nat>, m: nat, n: nat)
    requires m <= n <= |s|
    ensures KeptBelow(s, kept, m) <= KeptBelow(s, kept, n)
  {
    if m < n {
      KeptGrows(s, kept, m, n - 1);
    }
  }

  lemma KeptIsListed(s: seq<Ranked>, kept: set<nat>, n: nat, k: nat)
    requires k < n <= |s| && k in kept
    ensures s[k].candidate.chunkId in Ids(KeptBelow(s, kept, n))
  {
    KeptFrom(s, kept, n, k);
    var before := KeptBelow(s, kept, k);
    assert (before + [s[k].candidate])[|before|] == s[k].candidate;
    assert Ids(KeptBelow(s, kept, n))[|before|] == s[k].candidate.chunkId;
  }

  /** Why a passage is passed over: those kept before it, all ranked before it, block it, or it
      is, or comes after, the first passage that nothing kept blocks and the budget cannot take. */
  ghost predicate PassedOver(l: Lookup, cs: seq<Candidate>, chosen: seq<Candidate>, budget: nat,
                             c: Candidate) {
    || (exists n: nat | n <= |chosen| :: BlockedBy(l, chosen[..n], c))
    || (exists d | d in cs :: OverBudget(l, chosen, budget, c, d))
  }

  ghost predicate BlockedBy(l: Lookup, before: seq<Candidate>, c: Candidate) {
    Blocked(before, c) && forall i | 0 <= i < |before| :: Precedes(l, before[i], c)
  }

  predicate OverBudget(l: Lookup, chosen: seq<Candidate>, budget: nat, c: Candidate, d: Candidate) {
    (d == c || Precedes(l, d, c)) && !Blocked(chosen, d) && !Affordable(chosen, d, budget)
  }

  lemma SkippedIsBlocked(l: Lookup, cs: seq<Candidate>, s: seq<Ranked>, budget: nat, kept: set<nat>,
                         stop: nat, k: nat)
    requires DistinctIds(cs) && s == Sort(Scored(l, cs)) && IsGreedy(s, budget, kept, stop)
    requires k < stop && k !in kept
    ensures PassedOver(l, cs, KeptBelow(s, kept, stop), budget, s[k].candidate)
  {
    var before, chosen := KeptBelow(s, kept, k), KeptBelow(s, kept, stop);
    KeptAt(s, budget, kept, stop, k);
    KeptGrows(s, kept, k, stop);
    forall i | 0 <= i < |before|
      ensures Precedes(l, before[i], s[k].candidate)
    {
      KeptIsRanked(s, kept, k, i);
      var a :| 0 <= a < k && s[a].candidate == before[i];
      SortedPrecedes(l, cs, s, a, k);
    }
    assert chosen[..|before|] == before;
  }

  lemma AfterStop(l: Lookup, cs: seq<Candidate>, s: seq<Ranked>, budget: nat, kept: set<nat>,
                  stop: nat, k: nat)
    requires DistinctIds(cs) && s == Sort(Scored(l, cs)) && IsGreedy(s, budget, kept, stop)
    requires stop <= k < |s|
    ensures PassedOver(l, cs, KeptBelow(s, kept, stop), budget, s[k].candidate)
  {
    var d := s[stop].candidate;
    assert StopsAt(s, budget, kept, stop);
    if stop < k {
      SortedPrecedes(l, cs, s, stop, k);
    }
    RankedIsCandidate(l, cs, s, stop);
    assert OverBudget(l, KeptBelow(s, kept, stop), budget, s[k].candidate, d);
  }

  lemma RankedIsCandidate(l: Lookup, cs: seq<Candidate>, s: seq<Ranked>, k: nat)
    requires s == Sort(Scored(l, cs)) && k < |s|
    ensures s[k].candidate in cs
  {
    SortSorts(Scored(l, cs));
    assert s[k] in s;
    ScoredElements(l, cs, s[k]);
  }

  lemma EligibleIsRanked(l: Lookup, cs: seq<Candidate>, s: seq<Ranked>, c: Candidate) returns (k: nat)
    requires s == Sort(Scored(l, cs)) && c in cs && Recovery(l, c.lastPlayed).Some?
    ensures k < |s| && s[k].candidate == c
  {
    SortSorts(Scored(l, cs));
    var r := Rank(l, c).value;
    ScoredElements(l, cs, r);
    k :| 0 <= k < |s| && s[k] == r;
  }

  /** Every passage that was eligible and not selected was passed over for one of the reasons. */
  lemma LeftOutRightly(l: Lookup, cs: seq<Candidate>, budget: nat, result: Selection, c: Candidate)
    returns (chosen: seq<Candidate>)
    requires IsSelection(l, cs, budget, result) && DistinctIds(cs) && result.Chosen?
    requires c in cs && Recovery(l, c.lastPlayed).Some? && c.chunkId !in result.ids
    ensures result.ids == Ids(chosen) && PassedOver(l, cs, chosen, budget, c)
  {
    var s := Sort(Scored(l, cs));
    chosen :| IsChoice(s, budget, chosen) && result.ids == Ids(chosen);
    var kept: set<nat>, stop: nat :| IsGreedy(s, budget, kept, stop) && chosen == KeptBelow(s, kept, stop);
    var k := EligibleIsRanked(l, cs, s, c);
    if k >= stop {
      AfterStop(l, cs, s, budget, kept, stop, k);
    } else if k in kept {
      KeptIsListed(s, kept, stop, k);
    } else {
      SkippedIsBlocked(l, cs, s, budget, kept, stop, k);
    }
  }

  /** A passage played less than thirty days ago is not selected. */
  lemma RecentPlaysAreExcluded(l: Lookup, cs: seq<Candidate>, budget: nat, result: Selection,
                               c: Candidate)
    requires IsSelection(l, cs, budget, result) && DistinctIds(cs) && c in cs
    requires c.lastPlayed.Some? && l.now - c.lastPlayed.value < EXCLUSION_SECONDS * SECOND
    ensures result.Chosen? ==> c.chunkId !in result.ids
  {
    ExcludedIff(l, c.lastPlayed);
    if result.Chosen? && c.chunkId in result.ids {
      var s := Sort(Scored(l, cs));
      var kept: set<nat>, stop: nat :|
        IsGreedy(s, budget, kept, stop) && result.ids == Ids(KeptBelow(s, kept, stop));
      var i :| 0 <= i < |result.ids| && result.ids[i] == c.chunkId;
      var d := KeptBelow(s, kept, stop)[i];
      KeptIsCandidate(l, cs, s, kept, stop, i);
      SameIdSameCandidate(cs, c, d);
    }
  }

  lemma SameIdSameCandidate(cs: seq<Candidate>, c: Candidate, d: Candidate)
    requires DistinctIds(cs) && c in cs && d in cs && c.chunkId == d.chunkId
    ensures c == d
  {
    var i :| 0 <= i < |cs| && cs[i] == c;
    var j :| 0 <= j < |cs| && cs[j] == d;
  }

  /** The passages are exhausted exactly when there are some and all were played in the window. */
  lemma ExhaustedIff(l: Lookup, cs: seq<Candidate>, budget: nat, result: Selection)
    requires IsSelection(l, cs, budget, result)
    ensures result == AllExcluded <==>
      cs != [] && forall c | c in cs ::
        c.lastPlayed.Some? && l.now - c.lastPlayed.value < EXCLUSION_SECONDS * SECOND
  {
    forall c | c in cs
      ensures Recovery(l, c.lastPlayed).Some? ==> Scored(l, cs) != []
    {
      if Recovery(l, c.lastPlayed).Some? {
        ScoredElements(l, cs, Rank(l, c).value);
      }
    }
    if Scored(l, cs) != [] {
      var r := Scored(l, cs)[0];
      ScoredElements(l, cs, r);
      ExcludedIff(l, r.candidate.lastPlayed);
    }
  }
}
