/** Every interleaving of enqueues, claims, finishes, crashes and passing time on the ingest
    queue (src/passages/jobs.rs and src/passages/worker.rs). */
module IngestQueue {
  import opened Text
  import opened JobTable
  import opened Worker

  /** A job in the hands of a worker. */
  datatype Holder = Holder(job: Job, claimedAt: int)

  /** What happened to a row since it was last enqueued: how often it was claimed from the queue
      and taken over from a stale lease, and the minutes of backoff scheduled. */
  datatype Cycle = Cycle(number: nat, claims: nat, takeovers: nat, backoff: nat)

  datatype System = System(table: Table, now: int, holders: map<int, Holder>, cycles: map<int, Cycle>)

  datatype Event =
    | Insert(track: Track, key: Key, requestedBy: Option<int>, auto: bool)
    | Requeue(key: Key, force: bool)
    | Claim(worker: int, locked: set<int>, picked: int)
    | Finish(worker: int, names: seq<string>, fetcher: Fetcher, stamp: int)
    | Crash(worker: int)
    | Tick(elapsed: nat)

  ghost predicate Enabled(s: System, e: Event) {
    match e
    case Claim(w, locked, picked) =>
      w !in s.holders && IsEarliest(s.table.rows, locked, s.now, picked)
    case Finish(w, _, _, _) => w in s.holders
    case Crash(w) => w in s.holders
    case _ => true
  }

  predicate Live(h: Holder, now: int) {
    now - h.claimedAt <= STALE_LEASE
  }

  /** A worker finishes within its lease or not at all. */
  ghost predicate Timely(s: System, e: Event) {
    Enabled(s, e) && (e.Finish? ==> Live(s.holders[e.worker], s.now))
  }

  function NewCycle(cycles: map<int, Cycle>, id: int): Cycle {
    Cycle(if id in cycles then cycles[id].number + 1 else 0, 0, 0, 0)
  }

  function CycleOf(cycles: map<int, Cycle>, id: int): Cycle {
    if id in cycles then cycles[id] else Cycle(0, 0, 0, 0)
  }

  function Recycled(s: System, key: Key, force: bool): map<int, Cycle> {
    map id | id in s.cycles ::
      if id in s.table.rows && Requeues(s.table.rows[id], key, force, s.now)
      then NewCycle(s.cycles, id) else s.cycles[id]
  }

  function CountClaim(c: Cycle, row: Row): Cycle {
    if row.status == Queued then c.(claims := c.claims + 1) else c.(takeovers := c.takeovers + 1)
  }

  function HeldResults(s: System, e: Event): Results
    requires e.Finish? && e.worker in s.holders
  {
    Merged(e.names, s.holders[e.worker].job.results, e.fetcher)
  }

  ghost function Apply(s: System, e: Event): System
    requires Enabled(s, e)
  {
    match e
    case Insert(track, key, user, auto) =>
      var t := InsertJob(s.table, track, key, user, auto, s.now);
      s.(table := t,
         cycles := if KeyTaken(s.table.rows, key) then s.cycles
                   else s.cycles[s.table.nextId := Cycle(0, 0, 0, 0)])
    case Requeue(key, force) =>
      s.(table := RequeueJob(s.table, key, force, s.now), cycles := Recycled(s, key, force))
    case Claim(w, _, id) =>
      var t := ClaimJob(s.table, id, s.now);
      s.(table := t, holders := s.holders[w := Holder(JobOf(id, t.rows[id]), s.now)],
         cycles := s.cycles[id := CountClaim(CycleOf(s.cycles, id), s.table.rows[id])])
    case Finish(w, _, _, stamp) =>
      var job, results := s.holders[w].job, HeldResults(s, e);
      var c := CycleOf(s.cycles, job.id);
      s.(table := FinishJob(s.table, job, results, stamp, s.now), holders := s.holders - {w},
         cycles := s.cycles[job.id := c.(backoff := c.backoff + DelayMinutes(job, results))])
    case Crash(w) => s.(holders := s.holders - {w})
    case Tick(elapsed) => s.(now := s.now + elapsed)
  }

  ghost predicate Initial(s: System) {
    s.table == Table(map[], 1) && s.holders == map[] && s.cycles == map[]
  }

  /** A run in which every worker respects its lease. */
  ghost predicate IsRun(ss: seq<System>, es: seq<Event>) {
    && |ss| == |es| + 1 && Initial(ss[0])
    && forall i | 0 <= i < |es| :: Timely(ss[i], es[i]) && ss[i + 1] == Apply(ss[i], es[i])
  }

  // ---- The invariant ----

  /** The minutes of backoff a cycle can have scheduled by the time of its n-th attempt. */
  function BackoffBound(n: int): nat {
    if n <= 0 then 0 else if n == 1 then 2 else if n == 2 then 6 else if n == 3 then 14 else 30
  }

  ghost predicate RowInv(row: Row, c: Cycle, now: int) {
    && row.updatedAt <= now
    && row.attempts == c.claims + c.takeovers && c.claims <= MAX_ATTEMPTS
    && (forall k :: k in row.results ==> row.results[k].at.Some?)
    && (match row.status
        case Queued =>
          && row.attempts < MAX_ATTEMPTS && c.backoff <= BackoffBound(row.attempts)
          && row.nextAttemptAt <= row.updatedAt + 16 * MINUTE
        case Running => row.attempts >= 1 && c.backoff <= BackoffBound(row.attempts - 1)
        case Done =>
          && row.attempts >= 1 && c.backoff <= BackoffBound(row.attempts - 1)
          && ErrorsRecorded(row) && (row.lastError.Some? ==> row.attempts >= MAX_ATTEMPTS)
        case Failed =>
          && row.attempts >= MAX_ATTEMPTS && c.backoff <= BackoffBound(row.attempts - 1)
          && ErrorsRecorded(row) && AllErrors(row.results))
  }

  ghost predicate ErrorsRecorded(row: Row) {
    row.lastError == if Errors(row.results) == map[] then None else Some(Errors(row.results))
  }

  ghost predicate TableInv(s: System) {
    && UniqueKeys(s.table.rows) && s.cycles.Keys == s.table.rows.Keys
    && forall id :: id in s.table.rows ==>
      id < s.table.nextId && RowInv(s.table.rows[id], s.cycles[id], s.now)
  }

  /** The row of a live holder is running, and is as the holder claimed it. */
  ghost predicate Holds(rows: Rows, h: Holder) {
    && h.job.id in rows && rows[h.job.id].status == Running
    && h.job == JobOf(h.job.id, rows[h.job.id])
    && rows[h.job.id].updatedAt == h.claimedAt
  }

  ghost predicate LeasesInv(s: System) {
    && (forall w :: w in s.holders && Live(s.holders[w], s.now) ==> Holds(s.table.rows, s.holders[w]))
    && (forall v, w :: BothLive(s, v, w) && v != w ==>
          s.holders[v].job.id != s.holders[w].job.id)
  }

  ghost predicate BothLive(s: System, v: int, w: int) {
    && v in s.holders && Live(s.holders[v], s.now)
    && w in s.holders && Live(s.holders[w], s.now)
  }

  ghost predicate HoldersInv(s: System) {
    forall w :: w in s.holders ==>
      s.holders[w].claimedAt <= s.now && s.holders[w].job.id in s.table.rows
  }

  ghost predicate Inv(s: System) {
    TableInv(s) && HoldersInv(s) && LeasesInv(s)
  }

  ghost predicate FreshIds(s: System) {
    forall id :: id in s.table.rows ==> id < s.table.nextId
  }

  /** Nobody else is live on the worker's job. */
  ghost predicate AloneOnJob(s: System, worker: int)
    requires worker in s.holders
  {
    forall w :: w != worker && w in s.holders && Live(s.holders[w], s.now) ==>
      s.holders[w].job.id != s.holders[worker].job.id
  }

  // ---- Every step keeps the invariant ----

  /** Leases survive a step that adds no holder and leaves the running rows alone. */
  lemma LeasesCarry(s: System, s': System)
    requires HoldersInv(s) && LeasesInv(s) && s.now <= s'.now
    requires forall w :: w in s'.holders ==> w in s.holders && s'.holders[w] == s.holders[w]
    requires s.table.rows.Keys <= s'.table.rows.Keys
    requires forall id :: id in s.table.rows && s.table.rows[id].status == Running ==>
      s'.table.rows[id] == s.table.rows[id]
    ensures HoldersInv(s') && LeasesInv(s')
  {
    assert forall v, w :: BothLive(s', v, w) ==> BothLive(s, v, w);
  }

  lemma InsertLeases(s: System, e: Event)
    requires HoldersInv(s) && LeasesInv(s) && FreshIds(s) && e.Insert?
    ensures HoldersInv(Apply(s, e)) && LeasesInv(Apply(s, e)) && FreshIds(Apply(s, e))
  {
    assert s.table.nextId !in s.table.rows;
    LeasesCarry(s, Apply(s, e));
  }

  /** A step that adds no row and keeps every key keeps the keys unique. */
  lemma KeysCarry(rows: Rows, rows': Rows)
    requires UniqueKeys(rows) && rows'.Keys == rows.Keys
    requires forall id :: id in rows ==> rows'[id].key == rows[id].key
    ensures UniqueKeys(rows')
  {
  }

  lemma InsertTable(s: System, e: Event)
    requires TableInv(s) && e.Insert?
    ensures TableInv(Apply(s, e))
  {
    assert s.table.nextId !in s.table.rows;
  }

  lemma InsertKeeps(s: System, e: Event)
    requires Inv(s) && e.Insert?
    ensures Inv(Apply(s, e))
  {
    InsertTable(s, e);
    InsertLeases(s, e);
  }

  lemma RequeueTable(s: System, e: Event)
    requires TableInv(s) && e.Requeue?
    ensures TableInv(Apply(s, e))
  {
    var s' := Apply(s, e);
    assert s'.cycles.Keys == s.cycles.Keys && s'.table.rows.Keys == s.table.rows.Keys;
    assert forall id :: id in s.table.rows ==> s'.table.rows[id].key == s.table.rows[id].key;
    forall id | id in s'.table.rows
      ensures id < s'.table.nextId && RowInv(s'.table.rows[id], s'.cycles[id], s'.now)
    {
      assert RowInv(s.table.rows[id], s.cycles[id], s.now);
    }
  }

  lemma RequeueKeeps(s: System, e: Event)
    requires Inv(s) && e.Requeue?
    ensures Inv(Apply(s, e))
  {
    RequeueTable(s, e);
    LeasesCarry(s, Apply(s, e));
  }

  lemma ClaimRowInv(s: System, e: Event, i: int)
    requires TableInv(s) && e.Claim? && Enabled(s, e) && i in s.table.rows
    ensures var s' := Apply(s, e);
      i in s'.table.rows && i in s'.cycles && RowInv(s'.table.rows[i], s'.cycles[i], s'.now)
  {
    assert RowInv(s.table.rows[i], s.cycles[i], s.now);
  }

  lemma ClaimTable(s: System, e: Event)
    requires TableInv(s) && e.Claim? && Enabled(s, e)
    ensures TableInv(Apply(s, e))
  {
    var s' := Apply(s, e);
    assert s'.cycles.Keys == s.cycles.Keys && s'.table.rows.Keys == s.table.rows.Keys;
    KeysCarry(s.table.rows, s'.table.rows);
    forall i | i in s'.table.rows
      ensures i < s'.table.nextId && RowInv(s'.table.rows[i], s'.cycles[i], s'.now)
    {
      ClaimRowInv(s, e, i);
    }
  }

  /** A row that can be claimed has no live holder. */
  lemma ClaimedRowIsFree(s: System, e: Event, w: int)
    requires LeasesInv(s) && e.Claim? && Enabled(s, e)
    requires w in s.holders && Live(s.holders[w], s.now)
    ensures s.holders[w].job.id != e.picked
  {
    assert Holds(s.table.rows, s.holders[w]);
  }

  lemma ClaimLeases(s: System, e: Event)
    requires HoldersInv(s) && LeasesInv(s) && e.Claim? && Enabled(s, e)
    ensures HoldersInv(Apply(s, e)) && LeasesInv(Apply(s, e))
  {
    var s' := Apply(s, e);
    forall w | w in s'.holders && Live(s'.holders[w], s'.now)
      ensures Holds(s'.table.rows, s'.holders[w])
    {
      if w != e.worker {
        ClaimedRowIsFree(s, e, w);
        assert Holds(s.table.rows, s.holders[w]);
      }
    }
    forall v, w | BothLive(s', v, w) && v != w
      ensures s'.holders[v].job.id != s'.holders[w].job.id
    {
      if v != e.worker {
        ClaimedRowIsFree(s, e, v);
      }
      if w != e.worker {
        ClaimedRowIsFree(s, e, w);
      }
      assert v != e.worker && w != e.worker ==> BothLive(s, v, w);
    }
  }

  lemma ClaimKeeps(s: System, e: Event)
    requires Inv(s) && e.Claim? && Enabled(s, e)
    ensures Inv(Apply(s, e))
  {
    ClaimTable(s, e);
    ClaimLeases(s, e);
  }

  lemma PowersOfAttempts(n: int)
    requires 1 <= n < MAX_ATTEMPTS
    ensures BackoffBound(n - 1) + Pow2(Clamp(n)) == BackoffBound(n)
    ensures Pow2(Clamp(n)) <= 16
  {
    assert Pow2(0) == 1 && Pow2(1) == 2 && Pow2(2) == 4;
    assert Pow2(3) == 2 * Pow2(2) && Pow2(4) == 2 * Pow2(3);
  }

  lemma ErrorsOfStamped(results: Results, stamp: int)
    ensures Errors(Stamped(results, stamp)) == Errors(results)
    ensures AllErrors(Stamped(results, stamp)) <==> AllErrors(results)
    ensures AllErrors(results) ==> Errors(results) != map[]
  {
    var t := Stamped(results, stamp);
    assert t.Keys == results.Keys;
    assert forall k :: k in results ==> t[k].verdict == results[k].verdict;
    assert Errors(t) == Errors(results);
    if AllErrors(results) {
      assert results.Keys != {};
      var k :| k in results;
      assert k in Errors(results);
    }
  }

  lemma FinishedRow(row: Row, c: Cycle, job: Job, results: Results, stamp: int, now: int)
    requires RowInv(row, c, now) && row.status == Running && job.attempts == row.attempts
    ensures RowInv(Finished(row, job, results, stamp, now),
                   c.(backoff := c.backoff + DelayMinutes(job, results)), now)
  {
    ErrorsOfStamped(results, stamp);
    if Retries(job, results) {
      PowersOfAttempts(row.attempts);
    }
  }

  /** Finishing changes the one row of its job, and only in the columns a claim set. */
  lemma FinishFrame(s: System, e: Event)
    requires HoldersInv(s) && e.Finish? && Enabled(s, e)
    ensures var s', id := Apply(s, e), s.holders[e.worker].job.id;
      && s'.table.rows.Keys == s.table.rows.Keys && s'.cycles.Keys == s.cycles.Keys + {id}
      && s'.table.nextId == s.table.nextId && s'.now == s.now
      && s'.table.rows[id].key == s.table.rows[id].key
      && forall i :: i in s.table.rows && i != id ==>
        s'.table.rows[i] == s.table.rows[i] && CycleOf(s'.cycles, i) == CycleOf(s.cycles, i)
  {
  }

  lemma FinishRowInv(s: System, e: Event)
    requires Inv(s) && e.Finish? && Timely(s, e)
    ensures var s', id := Apply(s, e), s.holders[e.worker].job.id;
      RowInv(s'.table.rows[id], s'.cycles[id], s'.now)
  {
    var h := s.holders[e.worker];
    assert Holds(s.table.rows, h);
    assert RowInv(s.table.rows[h.job.id], s.cycles[h.job.id], s.now);
    FinishedRow(s.table.rows[h.job.id], s.cycles[h.job.id], h.job, HeldResults(s, e), e.stamp, s.now);
  }

  lemma FinishTable(s: System, e: Event)
    requires Inv(s) && e.Finish? && Timely(s, e)
    ensures TableInv(Apply(s, e))
  {
    var s', id := Apply(s, e), s.holders[e.worker].job.id;
    FinishFrame(s, e);
    FinishRowInv(s, e);
    assert s'.cycles.Keys == s.cycles.Keys;
    KeysCarry(s.table.rows, s'.table.rows);
    forall i | i in s'.table.rows && i != id
      ensures i < s'.table.nextId && RowInv(s'.table.rows[i], s'.cycles[i], s'.now)
    {
      assert RowInv(s.table.rows[i], s.cycles[i], s.now);
      assert s'.cycles[i] == CycleOf(s'.cycles, i) == CycleOf(s.cycles, i) == s.cycles[i];
    }
  }

  lemma FinishLeases(s: System, e: Event)
    requires HoldersInv(s) && LeasesInv(s) && e.Finish? && Enabled(s, e) && AloneOnJob(s, e.worker)
    ensures HoldersInv(Apply(s, e)) && LeasesInv(Apply(s, e))
  {
    FinishFrame(s, e);
    var s' := Apply(s, e);
    assert forall w :: w in s'.holders ==> w in s.holders && s'.holders[w] == s.holders[w];
    assert forall v, w :: BothLive(s', v, w) ==> BothLive(s, v, w);
  }

  lemma FinishKeeps(s: System, e: Event)
    requires Inv(s) && e.Finish? && Timely(s, e)
    ensures Inv(Apply(s, e))
  {
    forall w | w != e.worker && w in s.holders && Live(s.holders[w], s.now)
      ensures s.holders[w].job.id != s.holders[e.worker].job.id
    {
      assert BothLive(s, w, e.worker);
    }
    FinishTable(s, e);
    FinishLeases(s, e);
  }

  lemma StepKeeps(s: System, e: Event)
    requires Inv(s) && Timely(s, e)
    ensures Inv(Apply(s, e))
  {
    match e
    case Insert(_, _, _, _) => InsertKeeps(s, e);
    case Requeue(_, _) => RequeueKeeps(s, e);
    case Claim(_, _, _) => ClaimKeeps(s, e);
    case Finish(_, _, _, _) => FinishKeeps(s, e);
    case Crash(_) => LeasesCarry(s, Apply(s, e));
    case Tick(_) => LeasesCarry(s, Apply(s, e));
  }

  lemma {:induction false} RunKeeps(ss: seq<System>, es: seq<Event>, i: nat)
    requires IsRun(ss, es) && i < |ss|
    ensures Inv(ss[i])
  {
    if i > 0 {
      RunKeeps(ss, es, i - 1);
      StepKeeps(ss[i - 1], es[i - 1]);
    }
  }
}
