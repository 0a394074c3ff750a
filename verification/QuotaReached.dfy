/** The daily quota's bound is reached: for every number of overlapping lookups there is a run that
    queues as many jobs as the bound allows (src/passages/api.rs and src/passages/jobs.rs). */
module QuotaReached {
  import opened Text
  import opened JobTable
  import opened IngestQueue
  import opened Quota

  function Range(lo: int, n: nat): (r: set<int>)
    ensures |r| == n && forall i :: i in r <==> lo <= i < lo + n
  {
    if n == 0 then {} else Range(lo, n - 1) + {lo + n - 1}
  }

  /** A series of tracks, and the key each is queued under. */
  datatype Series = Series(tracks: int -> Track, keyOf: Track -> Key) {
    function TrackAt(id: int): Track { tracks(id) }

    function KeyAt(id: int): Key { keyOf(TrackAt(id)) }

    ghost predicate DistinctKeys() {
      forall n: int :: NewKey(n)
    }

    /** The n-th key is none of those before it. */
    ghost predicate NewKey(n: int) {
      forall id | 1 <= id < n :: KeyAt(id) != KeyAt(n)
    }
  }

  /** n jobs queued for the user at one moment. */
  function Queued(q: Series, user: int, n: nat): Rows {
    map id | id in Range(1, n) :: NewRow(q.TrackAt(id), q.KeyAt(id), Some(user), true, 0)
  }

  function Uncycled(n: nat): map<int, Cycle> {
    map id | id in Range(1, n) :: Cycle(0, 0, 0, 0)
  }

  function Askers(user: int, j: nat): map<int, int> {
    map l | l in Range(0, j) :: user
  }

  function Filled(q: Series, user: int, n: nat): System {
    System(Table(Queued(q, user, n), n + 1), 0, map[], Uncycled(n))
  }

  /** ... while j lookups are about to insert. */
  function Filling(q: Series, user: int, n: nat, j: nat): Site {
    Site(Filled(q, user, n), Askers(user, j))
  }

  lemma OneMoreAsks(user: int, j: nat)
    ensures j !in Askers(user, j) && Askers(user, j + 1) == Askers(user, j)[j := user]
    ensures Askers(user, j + 1) - {j} == Askers(user, j)
  {
  }

  lemma FillingCounts(q: Series, user: int, n: nat, j: nat)
    ensures var s := Filling(q, user, n, j);
      |AutoJobs(s.queue.table.rows, user, 0)| == n && |Asking(s, user)| == j
  {
    var s := Filling(q, user, n, j);
    assert AutoJobs(s.queue.table.rows, user, 0) == Range(1, n);
    assert Asking(s, user) == Range(0, j);
  }

  lemma AskFills(q: Series, user: int, n: nat, j: nat)
    requires n < AUTO_DAILY_LIMIT
    ensures var s := Filling(q, user, n, j);
      Allowed(s, Ask(j, user)) && Next(q.keyOf, s, Ask(j, user)) == Filling(q, user, n, j + 1)
  {
    OneMoreAsks(user, j);
    FillingCounts(q, user, n, j);
  }

  lemma QueueOne(q: Series, user: int, n: nat)
    requires q.NewKey(n + 1)
    ensures InsertJob(Table(Queued(q, user, n), n + 1), q.TrackAt(n + 1), q.KeyAt(n + 1),
                      Some(user), true, 0)
      == Table(Queued(q, user, n + 1), n + 2)
    ensures !KeyTaken(Queued(q, user, n), q.KeyAt(n + 1))
  {
    var rows := Queued(q, user, n);
    forall id | id in rows
      ensures rows[id].key != q.KeyAt(n + 1)
    {
      assert rows[id].key == q.KeyAt(id);
    }
    assert Queued(q, user, n + 1)
      == rows[n + 1 := NewRow(q.TrackAt(n + 1), q.KeyAt(n + 1), Some(user), true, 0)];
  }

  lemma OneMoreCycle(n: nat)
    ensures Uncycled(n)[n + 1 := Cycle(0, 0, 0, 0)] == Uncycled(n + 1)
  {
  }

  lemma InsertFills(q: Series, user: int, n: nat)
    requires q.NewKey(n + 1)
    ensures Apply(Filled(q, user, n), Insert(q.TrackAt(n + 1), q.KeyAt(n + 1), Some(user), true))
      == Filled(q, user, n + 1)
  {
    QueueOne(q, user, n);
    OneMoreCycle(n);
  }

  lemma AnswerFills(q: Series, user: int, n: nat, j: nat)
    requires q.NewKey(n + 1)
    ensures var s, e := Filling(q, user, n, j + 1), Answer(j, q.TrackAt(n + 1));
      Allowed(s, e) && Next(q.keyOf, s, e) == Filling(q, user, n + 1, j)
  {
    OneMoreAsks(user, j);
    InsertFills(q, user, n);
  }

  ghost predicate EndsIn(keyOf: Track -> Key, ss: seq<Site>, es: seq<Step>, user: int, k: nat, s: Site) {
    IsQuotaRun(keyOf, ss, es, user, k) && ss[|es|] == s
  }

  lemma Extend(keyOf: Track -> Key, ss: seq<Site>, es: seq<Step>, user: int, k: nat, s: Site, e: Step,
               s': Site)
    requires EndsIn(keyOf, ss, es, user, k, s) && Allowed(s, e) && Next(keyOf, s, e) == s'
    requires |Asking(s', user)| <= k
    ensures EndsIn(keyOf, ss + [s'], es + [e], user, k, s')
  {
    var ss', es' := ss + [s'], es + [e];
    forall i: nat | i < |es'|
      ensures StepAt(keyOf, ss', es', i)
    {
      assert i < |es| ==> StepAt(keyOf, ss, es, i);
    }
    forall i: nat | i < |ss'|
      ensures FewAsk(ss', user, k, i)
    {
      assert i < |ss| ==> FewAsk(ss, user, k, i);
    }
  }

  ghost predicate CanReach(keyOf: Track -> Key, user: int, k: nat, s: Site) {
    exists ss, es :: EndsIn(keyOf, ss, es, user, k, s)
  }

  lemma NothingQueued(q: Series, user: int, k: nat)
    ensures CanReach(q.keyOf, user, k, Filling(q, user, 0, 0))
  {
    var s := Filling(q, user, 0, 0);
    FillingCounts(q, user, 0, 0);
    assert EndsIn(q.keyOf, [s], [], user, k, s);
  }

  lemma ReachNext(keyOf: Track -> Key, user: int, k: nat, s: Site, e: Step, s': Site)
    requires CanReach(keyOf, user, k, s) && Allowed(s, e) && Next(keyOf, s, e) == s'
    requires |Asking(s', user)| <= k
    ensures CanReach(keyOf, user, k, s')
  {
    var ss, es :| EndsIn(keyOf, ss, es, user, k, s);
    Extend(keyOf, ss, es, user, k, s, e, s');
  }

  lemma AskNext(q: Series, user: int, k: nat, n: nat, j: nat, s: Site)
    requires s == Filling(q, user, n, j) && n < AUTO_DAILY_LIMIT && j < k
    requires CanReach(q.keyOf, user, k, s)
    ensures CanReach(q.keyOf, user, k, Filling(q, user, n, j + 1))
  {
    AskFills(q, user, n, j);
    FillingCounts(q, user, n, j + 1);
    ReachNext(q.keyOf, user, k, s, Ask(j, user), Filling(q, user, n, j + 1));
  }

  lemma AnswerNext(q: Series, user: int, k: nat, n: nat, j: nat, s: Site)
    requires s == Filling(q, user, n, j + 1) && j <= k && CanReach(q.keyOf, user, k, s)
    requires q.DistinctKeys()
    ensures CanReach(q.keyOf, user, k, Filling(q, user, n + 1, j))
  {
    var e := Answer(j, q.TrackAt(n + 1));
    assert q.NewKey(n + 1);
    AnswerFills(q, user, n, j);
    FillingCounts(q, user, n + 1, j);
    ReachNext(q.keyOf, user, k, s, e, Filling(q, user, n + 1, j));
  }

  /** A number of jobs, and of lookups about to insert. */
  datatype Rung = Rung(jobs: int, asking: int)

  /** From a rung that is reached, another lookup may ask, or one may insert. */
  ghost predicate Climbs(reached: Rung -> bool, k: nat, n: int, j: int) {
    && (0 <= j < k && 0 <= n < AUTO_DAILY_LIMIT && reached(Rung(n, j)) ==> reached(Rung(n, j + 1)))
    && (0 <= j <= k && 0 <= n && reached(Rung(n, j + 1)) ==> reached(Rung(n + 1, j)))
  }

  /** To n jobs and j lookups about to insert: first one lookup after the other, then, when one
      place is left, k at once. */
  lemma {:induction false} Climb(reached: Rung -> bool, k: nat, n: nat, j: nat)
    requires reached(Rung(0, 0)) && forall a: int, b: int :: Climbs(reached, k, a, b)
    requires 0 < k && j <= k && (n < AUTO_DAILY_LIMIT || n + j == AUTO_DAILY_LIMIT - 1 + k)
    ensures reached(Rung(n, j))
    decreases n, if n < AUTO_DAILY_LIMIT then j else 0
  {
    if n < AUTO_DAILY_LIMIT && j > 0 {
      Climb(reached, k, n, j - 1);
      assert Climbs(reached, k, n, j - 1);
    } else if n > 0 {
      Climb(reached, k, n - 1, j + 1);
      assert Climbs(reached, k, n - 1, j);
    }
  }

  ghost function Reached(q: Series, user: int, k: nat): Rung -> bool {
    (r: Rung) => 0 <= r.jobs && 0 <= r.asking
      && CanReach(q.keyOf, user, k, Filling(q, user, r.jobs, r.asking))
  }

  lemma AskClimbs(q: Series, user: int, k: nat, n: nat, j: nat)
    requires n < AUTO_DAILY_LIMIT && j < k && Reached(q, user, k)(Rung(n, j))
    ensures Reached(q, user, k)(Rung(n, j + 1))
  {
    AskNext(q, user, k, n, j, Filling(q, user, n, j));
  }

  lemma AnswerClimbs(q: Series, user: int, k: nat, n: nat, j: nat)
    requires q.DistinctKeys() && j <= k && Reached(q, user, k)(Rung(n, j + 1))
    ensures Reached(q, user, k)(Rung(n + 1, j))
  {
    AnswerNext(q, user, k, n, j, Filling(q, user, n, j + 1));
  }

  lemma ClimbsEverywhere(q: Series, user: int, k: nat, n: int, j: int)
    requires q.DistinctKeys()
    ensures Climbs(Reached(q, user, k), k, n, j)
  {
    var reached := Reached(q, user, k);
    if 0 <= j < k && 0 <= n < AUTO_DAILY_LIMIT && reached(Rung(n, j)) {
      AskClimbs(q, user, k, n, j);
    }
    if 0 <= j <= k && 0 <= n && reached(Rung(n, j + 1)) {
      AnswerClimbs(q, user, k, n, j);
    }
  }

  lemma FillRun(q: Series, user: int, k: nat, n: nat)
    requires q.DistinctKeys() && 0 < k && n == AUTO_DAILY_LIMIT - 1 + k
    ensures CanReach(q.keyOf, user, k, Filling(q, user, n, 0))
  {
    var reached := Reached(q, user, k);
    NothingQueued(q, user, k);
    forall a: int, b: int
      ensures Climbs(reached, k, a, b)
    {
      ClimbsEverywhere(q, user, k, a, b);
    }
    Climb(reached, k, n, 0);
    assert reached(Rung(n, 0));
  }

  /** The bound is exact: k overlapping lookups of tracks with different keys do get k - 1 jobs
      past the limit, so the limit holds in every run only when lookups of one user do not
      overlap. */
  lemma OverlappingLookupsExceed(q: Series, user: int, k: nat)
    returns (ss: seq<Site>, es: seq<Step>)
    requires q.DistinctKeys() && 0 < k
    ensures IsQuotaRun(q.keyOf, ss, es, user, k)
    ensures |AutoJobs(ss[|es|].queue.table.rows, user, ss[|es|].queue.now)| == 199 + k
  {
    var n := AUTO_DAILY_LIMIT - 1 + k;
    FillRun(q, user, k, n);
    FillingCounts(q, user, n, 0);
    ss, es :| EndsIn(q.keyOf, ss, es, user, k, Filling(q, user, n, 0));
  }
}
