/** What the statements of the ingest queue do to a row, column by column, and how long a retry
    waits (src/passages/jobs.rs). */
module JobRules {
  import opened Text
  import opened MatchKeys
  import opened JobTable
  import opened Worker
  import opened IngestQueue
  import opened IngestRuns

  const MINUTES: int := 60 * 1_000_000

  // ---- claim ----

  /** A queued row is due from its next attempt on, and a running one 30 minutes after its claim. */
  predicate IsDue(row: Row, now: int) {
    match row.status
    case Queued => now >= row.nextAttemptAt
    case Running => now - row.updatedAt > 30 * MINUTES
    case Done => false
    case Failed => false
  }

  /** A claim takes a row that is due, and none is due that no other claim has locked and that
      comes earlier by next attempt and id. */
  lemma ClaimTakesTheFirstDue(rows: Rows, locked: set<int>, now: int, id: int)
    ensures IsEarliest(rows, locked, now, id) <==>
      && id in rows && id !in locked && IsDue(rows[id], now)
      && forall j | j in rows && j !in locked && IsDue(rows[j], now) ::
        rows[id].nextAttemptAt < rows[j].nextAttemptAt
        || (rows[id].nextAttemptAt == rows[j].nextAttemptAt && id <= j)
  {
    forall j
      ensures Claimable(rows, locked, now, j) <==>
        j in rows && j !in locked && IsDue(rows[j], now)
    {
    }
  }

  /** There is nothing to claim exactly when no unlocked row is due. */
  lemma NothingToClaim(rows: Rows, locked: set<int>, now: int)
    ensures (forall id :: !Claimable(rows, locked, now, id)) <==>
      forall id | id in rows && id !in locked :: !IsDue(rows[id], now)
  {
    forall id
      ensures Claimable(rows, locked, now, id) <==>
        id in rows && id !in locked && IsDue(rows[id], now)
    {
    }
  }

  /** In any run: no claim comes before its row is due; the row becomes running with one attempt
      more, and the worker gets its track, attempts and results. */
  lemma ClaimIsDue(ss: seq<System>, es: seq<Event>, i: nat)
    requires IsRun(ss, es) && i < |es| && es[i].Claim?
    ensures var id := es[i].picked;
      && id in ss[i].table.rows && id in ss[i + 1].table.rows && es[i].worker in ss[i + 1].holders
      && IsDue(ss[i].table.rows[id], ss[i].now)
      && var row, row' := ss[i].table.rows[id], ss[i + 1].table.rows[id];
        && row'.status == Running && row'.attempts == row.attempts + 1 && row'.updatedAt == ss[i].now
        && SameButClaim(row, row')
        && ss[i + 1].holders[es[i].worker]
           == Holder(Job(id, row.track, row.attempts + 1, row.results), ss[i].now)
  {
    StepOf(ss, es, i + 1);
    ClaimTakesTheFirstDue(ss[i].table.rows, es[i].locked, ss[i].now, es[i].picked);
  }

  predicate SameButClaim(a: Row, b: Row) {
    && SameRequest(a, b) && b.nextAttemptAt == a.nextAttemptAt && b.results == a.results
    && b.lastError == a.lastError
  }

  /** The columns no statement but the insert writes. */
  predicate SameRequest(a: Row, b: Row) {
    && b.track == a.track && b.key == a.key && b.requestedBy == a.requestedBy && b.auto == a.auto
    && b.createdAt == a.createdAt
  }

  // ---- enqueue ----

  /** A new job is queued at once with nothing tried, and no other row changes. */
  lemma InsertedRow(t: Table, track: Track, key: Key, user: Option<int>, auto: bool, now: int, id: int)
    requires !KeyTaken(t.rows, key) && id in InsertJob(t, track, key, user, auto, now).rows
    ensures var rows := InsertJob(t, track, key, user, auto, now).rows;
      if id != t.nextId then id in t.rows && rows[id] == t.rows[id]
      else
        && rows[id].track == track && rows[id].key == key && rows[id].requestedBy == user
        && rows[id].auto == auto && rows[id].status == Queued && rows[id].attempts == 0
        && rows[id].nextAttemptAt == rows[id].createdAt == rows[id].updatedAt == now
        && rows[id].results == map[] && rows[id].lastError == None
  {
  }

  /** A requeue opens a finished row of the key again, when forced or when it was last written more
      than 30 days ago: at once, with nothing tried and nothing known. Every other row stays. */
  lemma RequeuedRow(t: Table, key: Key, force: bool, now: int, id: int)
    requires id in t.rows
    ensures id in RequeueJob(t, key, force, now).rows
    ensures var row, row' := t.rows[id], RequeueJob(t, key, force, now).rows[id];
      if row.key == key && (row.status == Done || row.status == Failed)
         && (force || now - row.updatedAt > 30 * 24 * 60 * MINUTES)
      then
        && SameRequest(row, row') && row'.status == Queued && row'.attempts == 0
        && row'.nextAttemptAt == row'.updatedAt == now
        && row'.results == map[] && row'.lastError == None
      else row' == row
  {
  }

  /** A job's song key is the key documents of that song are stored under, and its artist key is
      one the artist is looked up by. */
  lemma JobKeysAreLookupKeys(u: Casing, track: Track)
    ensures JobKeys(u, track).0 in SongKeys(u, track.song)
    ensures JobKeys(u, track).0 == MatchKey(u, BaseTitle(u, track.song))
    ensures JobKeys(u, track).1 in ArtistKeys(u, track.artist)
    ensures track.album.None? ==> JobKeys(u, track).2 == ""
    ensures track.album.Some? ==> JobKeys(u, track).2 in SongKeys(u, track.album.value)
  {
    StoredKeyIsListed(u, track.song);
    ArtistKeysCoverCredit(u, track.artist);
    if track.album.Some? {
      StoredKeyIsListed(u, track.album.value);
    }
  }

  // ---- finish ----

  predicate HasError(results: Results) {
    exists name :: name in results && results[name].verdict.Error?
  }

  predicate OnlyErrors(results: Results) {
    && (exists name :: name in results)
    && forall name | name in results :: results[name].verdict.Error?
  }

  /** The minutes until the next attempt, after attempt n. */
  function Backoff(n: int): int {
    if n == 1 then 2 else if n == 2 then 4 else if n == 3 then 8 else if n == 4 then 16 else 0
  }

  lemma ErrorsIff(results: Results)
    ensures Errors(results) != map[] <==> HasError(results)
    ensures AllErrors(results) <==> OnlyErrors(results)
    ensures forall name :: name in Errors(results) <==>
      name in results && results[name].verdict.Error?
    ensures forall name | name in Errors(results) ::
      Errors(results)[name] == results[name].verdict.message
  {
    if HasError(results) {
      var name :| name in results && results[name].verdict.Error?;
      assert name in Errors(results);
    }
    if Errors(results) != map[] {
      assert Errors(results).Keys != {};
      var name :| name in Errors(results);
    }
    if results != map[] {
      assert results.Keys != {};
      var name :| name in results;
    }
  }

  lemma BackoffIsDelay(job: Job, results: Results)
    requires job.attempts >= 1
    ensures DelayMinutes(job, results)
      == if HasError(results) && job.attempts < 5 then Backoff(job.attempts) else 0
  {
    ErrorsIff(results);
    assert Pow2(0) == 1 && Pow2(1) == 2 && Pow2(2) == 4;
    assert Pow2(3) == 2 * Pow2(2) && Pow2(4) == 2 * Pow2(3);
  }

  /** What a finish makes of the row, given what its sources came to. */
  predicate IsFinished(row: Row, n: int, results: Results, stamp: int, now: int) {
    && (row.status == Queued <==> n < 5 && HasError(results))
    && (row.status == Failed <==> n >= 5 && OnlyErrors(results))
    && (row.status == Done <==> !HasError(results) || (n >= 5 && !OnlyErrors(results)))
    && row.updatedAt == now && row.attempts == n
    && row.nextAttemptAt == now + (if row.status == Queued then Backoff(n) else 0) * MINUTES
    && row.results.Keys == results.Keys
    && (forall name | name in results :: IsStamped(results[name], row.results[name], stamp))
    && HasMessages(row.lastError, results)
  }

  /** The outcome with its time, or the stamp where it has none yet. */
  predicate IsStamped(a: Outcome, b: Outcome, stamp: int) {
    b.verdict == a.verdict && b.at == if a.at.None? then Some(stamp) else a.at
  }

  /** The message of every source in error, and of no other. */
  predicate HasMessages(lastError: Option<map<string, string>>, results: Results) {
    && (lastError.Some? <==> HasError(results))
    && (lastError.Some? ==>
        && lastError.value.Keys == ErrorNames(results)
        && forall name | name in ErrorNames(results) ::
          name in lastError.value && lastError.value[name] == results[name].verdict.message)
  }

  function ErrorNames(results: Results): set<string> {
    set name | name in results && results[name].verdict.Error?
  }

  lemma FinishedFields(row: Row, job: Job, results: Results, stamp: int, now: int)
    requires row.attempts == job.attempts >= 1
    ensures IsFinished(Finished(row, job, results, stamp, now), job.attempts, results, stamp, now)
    ensures SameRequest(row, Finished(row, job, results, stamp, now))
  {
    ErrorsIff(results);
    BackoffIsDelay(job, results);
    assert Stamped(results, stamp).Keys == results.Keys;
    assert Errors(results).Keys == ErrorNames(results);
    if OnlyErrors(results) {
      var name :| name in results;
      assert HasError(results);
    }
  }

  /** In any run in which workers respect their leases: after attempt n the job is retried exactly
      when a source is in error and n is under 5, has failed exactly when n is 5 or more and every
      source is in error, and is done otherwise. */
  lemma FinishDecides(ss: seq<System>, es: seq<Event>, i: nat)
    requires IsRun(ss, es) && i < |es| && es[i].Finish?
    ensures es[i].worker in ss[i].holders
    ensures var job := ss[i].holders[es[i].worker].job;
      && job.id in ss[i].table.rows && job.id in ss[i + 1].table.rows && job.attempts >= 1
      && IsFinished(ss[i + 1].table.rows[job.id], job.attempts, HeldResults(ss[i], es[i]),
                    es[i].stamp, ss[i].now)
      && SameRequest(ss[i].table.rows[job.id], ss[i + 1].table.rows[job.id])
  {
    StepOf(ss, es, i + 1);
    var h := ss[i].holders[es[i].worker];
    assert Holds(ss[i].table.rows, h);
    assert RowInv(ss[i].table.rows[h.job.id], ss[i].cycles[h.job.id], ss[i].now);
    FinishedFields(ss[i].table.rows[h.job.id], h.job, HeldResults(ss[i], es[i]), es[i].stamp, ss[i].now);
  }

  // ---- How long a retry waits ----

  /** The row is as the finish left it, or the time of its next attempt has come. */
  ghost predicate Waits(s: System, id: int, row: Row) {
    s.now >= row.nextAttemptAt || (id in s.table.rows && s.table.rows[id] == row)
  }

  lemma WaitStep(s: System, e: Event, id: int, row: Row)
    requires Inv(s) && Timely(s, e) && row.status == Queued && Waits(s, id, row)
    ensures Waits(Apply(s, e), id, row)
    ensures e.Claim? && e.picked == id ==> s.now >= row.nextAttemptAt
  {
    if s.now < row.nextAttemptAt {
      if e.Claim? {
        ClaimTakesTheFirstDue(s.table.rows, e.locked, s.now, e.picked);
      } else if e.Finish? {
        assert Holds(s.table.rows, s.holders[e.worker]);
      } else if e.Insert? {
        assert s.table.nextId != id;
      }
    }
  }

  lemma {:induction false} StillWaits(ss: seq<System>, es: seq<Event>, i: nat, j: nat, id: int, row: Row)
    requires IsRun(ss, es) && i <= j < |ss| && row.status == Queued && Waits(ss[i], id, row)
    ensures Waits(ss[j], id, row)
  {
    if i < j {
      StillWaits(ss, es, i, j - 1, id, row);
      StepOf(ss, es, j);
      WaitStep(ss[j - 1], es[j - 1], id, row);
    }
  }

  lemma RetryTime(ss: seq<System>, es: seq<Event>, i: nat, id: int)
    requires IsRun(ss, es) && i < |es| && es[i].Finish?
    requires es[i].worker in ss[i].holders && ss[i].holders[es[i].worker].job.id == id
    requires id in ss[i + 1].table.rows && ss[i + 1].table.rows[id].status == Queued
    ensures var n := ss[i].holders[es[i].worker].job.attempts;
      1 <= n <= 4 && ss[i + 1].table.rows[id].nextAttemptAt == ss[i].now + Backoff(n) * MINUTES
  {
    FinishDecides(ss, es, i);
  }

  /** After a finish that puts the job back at attempt n, no claim of it comes before 2, 4, 8 or 16
      minutes have passed. */
  lemma BackoffIsWaited(ss: seq<System>, es: seq<Event>, i: nat, j: nat, id: int)
    requires IsRun(ss, es) && i < j < |es| && es[i].Finish? && es[j].Claim? && es[j].picked == id
    requires es[i].worker in ss[i].holders && ss[i].holders[es[i].worker].job.id == id
    requires id in ss[i + 1].table.rows && ss[i + 1].table.rows[id].status == Queued
    ensures var n := ss[i].holders[es[i].worker].job.attempts;
      1 <= n <= 4 && Backoff(n) > 0 && ss[j].now - ss[i].now >= Backoff(n) * MINUTES
  {
    RetryTime(ss, es, i, id);
    var row := ss[i + 1].table.rows[id];
    StillWaits(ss, es, i + 1, j, id, row);
    StepOf(ss, es, j + 1);
    WaitStep(ss[j], es[j], id, row);
  }
}
