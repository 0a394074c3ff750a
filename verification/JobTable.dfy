/** The ingest job table and its statements (src/passages/jobs.rs, table in schema.rs). Times
    are microseconds on the database clock. */
module JobTable {
  import opened Text
  import opened MatchKeys

  const MAX_ATTEMPTS: int := 5
  const MINUTE: int := 60_000_000
  const STALE_LEASE: int := 30 * MINUTE
  const REQUEUE_WINDOW: int := 30 * 24 * 60 * MINUTE

  datatype Track = Track(song: string, artist: string, album: Option<string>)

  type Key = (string, string, string)

  function JobKeys(u: Casing, track: Track): Key {
    (MatchKey(u, BaseTitle(u, track.song)),
     MatchKey(u, track.artist),
     match track.album case None => "" case Some(a) => MatchKey(u, BaseTitle(u, a)))
  }

  datatype Status = Queued | Running | Done | Failed

  /** What a source came to; the state field of its JSON entry. */
  datatype Verdict = Found(documents: nat) | NoMatch | Error(message: string)

  datatype Outcome = Outcome(verdict: Verdict, at: Option<int>)

  type Results = map<string, Outcome>

  datatype Row = Row(
    track: Track, key: Key, requestedBy: Option<int>, auto: bool,
    status: Status, attempts: int, nextAttemptAt: int, results: Results,
    lastError: Option<map<string, string>>, createdAt: int, updatedAt: int)

  type Rows = map<int, Row>

  datatype Table = Table(rows: Rows, nextId: int)

  /** A claimed job, as handed to a worker. */
  datatype Job = Job(id: int, track: Track, attempts: int, results: Results)

  datatype Enqueued = NewlyQueued | AlreadyQueued | RecentlyDone

  // ---- The statements, as functions on the table ----

  ghost predicate KeyTaken(rows: Rows, key: Key) {
    exists id :: id in rows && rows[id].key == key
  }

  ghost predicate UniqueKeys(rows: Rows) {
    forall i, j :: i in rows && j in rows && rows[i].key == rows[j].key ==> i == j
  }

  function NewRow(track: Track, key: Key, requestedBy: Option<int>, auto: bool, now: int): Row {
    Row(track, key, requestedBy, auto, Queued, 0, now, map[], None, now, now)
  }

  ghost function InsertJob(t: Table, track: Track, key: Key, requestedBy: Option<int>, auto: bool,
                           now: int): Table {
    if KeyTaken(t.rows, key) then t
    else Table(t.rows[t.nextId := NewRow(track, key, requestedBy, auto, now)], t.nextId + 1)
  }

  predicate Requeues(row: Row, key: Key, force: bool, now: int) {
    && row.key == key && (row.status == Done || row.status == Failed)
    && (force || row.updatedAt < now - REQUEUE_WINDOW)
  }

  function Requeued(row: Row, now: int): Row {
    row.(status := Queued, attempts := 0, nextAttemptAt := now, results := map[],
         lastError := None, updatedAt := now)
  }

  function RequeueJob(t: Table, key: Key, force: bool, now: int): Table {
    t.(rows := map id | id in t.rows ::
         if Requeues(t.rows[id], key, force, now) then Requeued(t.rows[id], now) else t.rows[id])
  }

  predicate Eligible(row: Row, now: int) {
    || (row.status == Queued && row.nextAttemptAt <= now)
    || (row.status == Running && row.updatedAt < now - STALE_LEASE)
  }

  predicate Before(rows: Rows, i: int, j: int)
    requires i in rows && j in rows
  {
    || rows[i].nextAttemptAt < rows[j].nextAttemptAt
    || (rows[i].nextAttemptAt == rows[j].nextAttemptAt && i <= j)
  }

  predicate Claimable(rows: Rows, locked: set<int>, now: int, id: int) {
    id in rows && id !in locked && Eligible(rows[id], now)
  }

  /** The row the claim takes: eligible, not locked by another claim, and earliest. */
  ghost predicate IsEarliest(rows: Rows, locked: set<int>, now: int, id: int) {
    && Claimable(rows, locked, now, id)
    && forall j :: Claimable(rows, locked, now, j) ==> Before(rows, id, j)
  }

  function Claimed(row: Row, now: int): Row {
    row.(status := Running, attempts := row.attempts + 1, updatedAt := now)
  }

  function ClaimJob(t: Table, id: int, now: int): Table
    requires id in t.rows
  {
    t.(rows := t.rows[id := Claimed(t.rows[id], now)])
  }

  function Stamped(results: Results, stamp: int): Results {
    map k | k in results :: Stamp(results[k], stamp)
  }

  function Stamp(o: Outcome, stamp: int): Outcome {
    if o.at.Some? then o else o.(at := Some(stamp))
  }

  /** The message of every source in error, which the error text is spelled from. */
  function Errors(results: Results): map<string, string> {
    map k | k in results && results[k].verdict.Error? :: results[k].verdict.message
  }

  predicate AllErrors(results: Results) {
    results != map[] && forall k | k in results :: results[k].verdict.Error?
  }

  function Pow2(n: nat): nat {
    if n == 0 then 1 else 2 * Pow2(n - 1)
  }

  function Clamp(n: int): nat {
    if n < 0 then 0 else if n > 10 then 10 else n
  }

  predicate Retries(job: Job, results: Results) {
    Errors(results) != map[] && job.attempts < MAX_ATTEMPTS
  }

  function DelayMinutes(job: Job, results: Results): nat {
    if Retries(job, results) then Pow2(Clamp(job.attempts)) else 0
  }

  function Finished(row: Row, job: Job, results: Results, stamp: int, now: int): Row {
    row.(status := if Retries(job, results) then Queued
                   else if AllErrors(results) then Failed else Done,
         results := Stamped(results, stamp),
         lastError := if Errors(results) == map[] then None else Some(Errors(results)),
         updatedAt := now,
         nextAttemptAt := now + DelayMinutes(job, results) * MINUTE)
  }

  function FinishJob(t: Table, job: Job, results: Results, stamp: int, now: int): Table {
    if job.id !in t.rows then t
    else t.(rows := t.rows[job.id := Finished(t.rows[job.id], job, results, stamp, now)])
  }

  // ---- The statements, run on a table in place ----

  class Jobs {
    var rows: Rows
    var nextId: int

    constructor ()
      ensures Value() == Table(map[], 1) && Valid()
    {
      rows, nextId := map[], 1;
    }

    ghost predicate Valid()
      reads this
    {
      1 <= nextId && UniqueKeys(rows) && forall id :: id in rows ==> 1 <= id < nextId
    }

    ghost function Value(): Table
      reads this
    {
      Table(rows, nextId)
    }

    method FindKey(key: Key) returns (found: Option<int>)
      requires Valid()
      ensures found.Some? ==> found.value in rows && rows[found.value].key == key
      ensures found.None? <==> !KeyTaken(rows, key)
      ensures found.Some? ==> forall id :: id in rows && rows[id].key == key ==> id == found.value
    {
      for id := 1 to nextId
        invariant forall i :: i in rows && i < id ==> rows[i].key != key
      {
        if id in rows && rows[id].key == key {
          return Some(id);
        }
      }
      return None;
    }

    method TryInsert(track: Track, key: Key, requestedBy: Option<int>, auto: bool, now: int)
      returns (inserted: bool)
      requires Valid()
      modifies this
      ensures Valid()
      ensures Value() == InsertJob(old(Value()), track, key, requestedBy, auto, now)
      ensures inserted <==> !KeyTaken(old(rows), key)
    {
      var found := FindKey(key);
      inserted := found.None?;
      if inserted {
        rows := rows[nextId := NewRow(track, key, requestedBy, auto, now)];
        nextId := nextId + 1;
      }
    }

    method TryRequeue(key: Key, force: bool, now: int) returns (requeued: bool)
      requires Valid()
      modifies this
      ensures Valid()
      ensures Value() == RequeueJob(old(Value()), key, force, now)
      ensures requeued <==>
        exists id :: id in old(rows) && Requeues(old(rows)[id], key, force, now)
      ensures !requeued ==> rows == old(rows)
    {
      var found := FindKey(key);
      requeued := found.Some? && Requeues(rows[found.value], key, force, now);
      ghost var goal := RequeueJob(Value(), key, force, now).rows;
      assert goal.Keys == rows.Keys;
      if requeued {
        rows := rows[found.value := Requeued(rows[found.value], now)];
      }
      assert forall id :: id in rows ==> rows[id] == goal[id];
      assert rows == goal;
    }

    method StatusOf(key: Key) returns (status: Status)
      requires KeyTaken(rows, key) && Valid()
      ensures forall id :: id in rows && rows[id].key == key ==> status == rows[id].status
    {
      var found := FindKey(key);
      status := rows[found.value].status;
    }

    /** An enqueue that no other statement interrupts: one open job per key, a finished one
        opened again when forced or old enough, and otherwise nothing changed. */
    method Enqueue(u: Casing, track: Track, requestedBy: Option<int>, auto: bool, force: bool,
                   now: int)
      returns (result: Enqueued)
      requires Valid()
      modifies this
      ensures Valid()
      ensures var key := JobKeys(u, track);
        if !KeyTaken(old(rows), key) then
          result == NewlyQueued && Value() == InsertJob(old(Value()), track, key, requestedBy, auto, now)
        else
          && Value() == RequeueJob(old(Value()), key, force, now)
          && forall id :: id in old(rows) && old(rows)[id].key == key ==>
            result == (if Requeues(old(rows)[id], key, force, now) then NewlyQueued
                       else if old(rows)[id].status in {Done, Failed} then RecentlyDone
                       else AlreadyQueued)
      ensures result != NewlyQueued ==> rows == old(rows)
    {
      var key := JobKeys(u, track);
      var inserted := TryInsert(track, key, requestedBy, auto, now);
      if inserted {
        return NewlyQueued;
      }
      var requeued := TryRequeue(key, force, now);
      if requeued {
        return NewlyQueued;
      }
      var status := StatusOf(key);
      result := if status in {Done, Failed} then RecentlyDone else AlreadyQueued;
    }

    method Claim(locked: set<int>, now: int) returns (job: Option<Job>)
      requires Valid()
      modifies this
      ensures Valid()
      ensures job.None? ==> Value() == old(Value())
      ensures job.None? ==> forall id :: !Claimable(rows, locked, now, id)
      ensures job.Some? ==>
        && IsEarliest(old(rows), locked, now, job.value.id)
        && Value() == ClaimJob(old(Value()), job.value.id, now)
        && job.value == JobOf(job.value.id, rows[job.value.id])
    {
      var best: Option<int> := None;
      for id := 1 to nextId
        invariant best.Some? ==> Claimable(rows, locked, now, best.value)
        invariant forall j :: Claimable(rows, locked, now, j) && j < id ==>
          best.Some? && Before(rows, best.value, j)
      {
        if Claimable(rows, locked, now, id) && (best.None? || Before(rows, id, best.value)) {
          best := Some(id);
        }
      }
      if best.None? {
        return None;
      }
      var id := best.value;
      rows := rows[id := Claimed(rows[id], now)];
      job := Some(JobOf(id, rows[id]));
    }

    method Finish(job: Job, results: Results, stamp: int, now: int)
      requires Valid()
      modifies this
      ensures Valid()
      ensures Value() == FinishJob(old(Value()), job, results, stamp, now)
    {
      var stamped := StampResults(results, stamp);
      var errors := Errors(results);
      var allError := AllErrors(results);
      var status, delay;
      if errors != map[] && job.attempts < MAX_ATTEMPTS {
        status, delay := Queued, Pow2(Clamp(job.attempts));
      } else if allError {
        status, delay := Failed, 0;
      } else {
        status, delay := Done, 0;
      }
      if job.id in rows {
        rows := rows[job.id := rows[job.id].(
          status := status, results := stamped,
          lastError := if errors == map[] then None else Some(errors),
          updatedAt := now, nextAttemptAt := now + delay * MINUTE)];
      }
    }
  }

  function JobOf(id: int, row: Row): Job {
    Job(id, row.track, row.attempts, row.results)
  }

  method StampResults(results: Results, stamp: int) returns (stamped: Results)
    ensures stamped == Stamped(results, stamp)
  {
    stamped := results;
    var todo := results.Keys;
    while todo != {}
      invariant todo <= results.Keys == stamped.Keys
      invariant forall k :: k in results ==>
        stamped[k] == if k in todo then results[k] else Stamp(results[k], stamp)
      decreases todo
    {
      var k :| k in todo;
      if stamped[k].at.None? {
        stamped := stamped[k := stamped[k].(at := Some(stamp))];
      }
      todo := todo - {k};
    }
  }
}
