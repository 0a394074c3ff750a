/** What holds over whole runs of the ingest queue, and what a late finish breaks. */
module IngestRuns {
  import opened Text
  import opened JobTable
  import opened Worker
  import opened IngestQueue

  /** Whatever the interleaving, a job has at most one live holder, and the row of a live
      holder is running with the attempts, results and claim time it was handed out with. */
  lemma OneLiveHolder(ss: seq<System>, es: seq<Event>, i: nat, v: int, w: int)
    requires IsRun(ss, es) && i < |ss| && BothLive(ss[i], v, w)
    ensures Holds(ss[i].table.rows, ss[i].holders[v])
    ensures ss[i].holders[v].job.id == ss[i].holders[w].job.id ==> v == w
  {
    RunKeeps(ss, es, i);
  }

  /** An enqueue cycle is bounded: a row is claimed from the queue at most MAX_ATTEMPTS times,
      every attempt beyond that took over a stale lease, a queued row has attempts left, and
      the backoff of the whole cycle is at most 2 + 4 + 8 + 16 minutes. */
  lemma CycleIsBounded(ss: seq<System>, es: seq<Event>, i: nat, id: int)
    requires IsRun(ss, es) && i < |ss| && id in ss[i].table.rows
    ensures id in ss[i].cycles
    ensures var row, c := ss[i].table.rows[id], ss[i].cycles[id];
      && c.claims <= MAX_ATTEMPTS && row.attempts == c.claims + c.takeovers
      && (row.status == Queued ==> row.attempts < MAX_ATTEMPTS)
      && c.backoff <= 2 + 4 + 8 + 16
  {
    RunKeeps(ss, es, i);
    assert RowInv(ss[i].table.rows[id], ss[i].cycles[id], ss[i].now);
  }

  // ---- Settled sources ----

  lemma RowsStay(s: System, e: Event, id: int)
    requires Inv(s) && Timely(s, e) && id in s.table.rows
    ensures id in Apply(s, e).table.rows && id in Apply(s, e).cycles
    ensures Apply(s, e).table.rows[id].key == s.table.rows[id].key
    ensures Apply(s, e).cycles[id].number >= s.cycles[id].number
  {
    StepKeeps(s, e);
    if e.Insert? {
      assert s.table.nextId != id;
    }
  }

  lemma {:induction false} RowsPersist(ss: seq<System>, es: seq<Event>, i: nat, j: nat, id: int)
    requires IsRun(ss, es) && i <= j < |ss| && id in ss[i].table.rows
    ensures id in ss[j].table.rows && ss[j].table.rows[id].key == ss[i].table.rows[id].key
    ensures id in ss[i].cycles && id in ss[j].cycles
    ensures ss[j].cycles[id].number >= ss[i].cycles[id].number
  {
    RunKeeps(ss, es, i);
    if i < j {
      RowsPersist(ss, es, i, j - 1, id);
      RunKeeps(ss, es, j - 1);
      RowsStay(ss[j - 1], es[j - 1], id);
    }
  }

  /** A key that was ever enqueued has a row from then on, so the last statement of an enqueue
      that lost the insert always finds one, however it is interleaved. */
  lemma KeysPersist(ss: seq<System>, es: seq<Event>, i: nat, j: nat, key: Key)
    requires IsRun(ss, es) && i <= j < |ss| && KeyTaken(ss[i].table.rows, key)
    ensures KeyTaken(ss[j].table.rows, key)
  {
    var id :| id in ss[i].table.rows && ss[i].table.rows[id].key == key;
    RowsPersist(ss, es, i, j, id);
  }

  ghost predicate SameCycle(s: System, t: System, id: int) {
    id in s.cycles && id in t.cycles && s.cycles[id].number == t.cycles[id].number
  }

  lemma StepOf(ss: seq<System>, es: seq<Event>, j: nat)
    requires IsRun(ss, es) && 0 < j < |ss|
    ensures Inv(ss[j - 1]) && Timely(ss[j - 1], es[j - 1]) && ss[j] == Apply(ss[j - 1], es[j - 1])
  {
    RunKeeps(ss, es, j - 1);
  }

  /** A stretch of a run that ends in the cycle of a row it began in never left that cycle. */
  lemma SameCycleStep(ss: seq<System>, es: seq<Event>, i: nat, j: nat, id: int)
    requires IsRun(ss, es) && i < j < |ss| && id in ss[i].table.rows
    requires SameCycle(ss[i], ss[j], id)
    ensures id in ss[j - 1].table.rows
    ensures SameCycle(ss[i], ss[j - 1], id) && SameCycle(ss[j - 1], ss[j], id)
  {
    RowsPersist(ss, es, i, j - 1, id);
    RowsPersist(ss, es, j - 1, j, id);
  }

  lemma SettledStep(s: System, e: Event, id: int, name: string)
    requires Inv(s) && Timely(s, e) && id in s.table.rows && SameCycle(s, Apply(s, e), id)
    requires Settled(s.table.rows[id].results, name)
    ensures id in Apply(s, e).table.rows
    ensures var results := Apply(s, e).table.rows[id].results;
      name in results && results[name] == s.table.rows[id].results[name]
  {
    RowsStay(s, e, id);
    assert RowInv(s.table.rows[id], s.cycles[id], s.now);
    if e.Finish? && s.holders[e.worker].job.id == id {
      assert Holds(s.table.rows, s.holders[e.worker]);
      MergedKeepsSettled(e.names, s.table.rows[id].results, e.fetcher);
    }
  }

  /** Within an enqueue cycle a settled source keeps its outcome and its stamp, whatever claims,
      takeovers and finishes follow. */
  lemma {:induction false} SettledStays(ss: seq<System>, es: seq<Event>, i: nat, j: nat, id: int,
                                        name: string)
    requires IsRun(ss, es) && i <= j < |ss| && id in ss[i].table.rows
    requires SameCycle(ss[i], ss[j], id) && Settled(ss[i].table.rows[id].results, name)
    ensures id in ss[j].table.rows
    ensures var results := ss[j].table.rows[id].results;
      name in results && results[name] == ss[i].table.rows[id].results[name]
  {
    if i < j {
      SameCycleStep(ss, es, i, j, id);
      StepOf(ss, es, j);
      SettledStays(ss, es, i, j - 1, id, name);
      SettledStep(ss[j - 1], es[j - 1], id, name);
    }
  }

  /** ... and is never fetched again: no live worker on the job in a later state of the cycle has
      it pending, whether it goes on to finish or to crash. */
  lemma SettledIsNeverRefetched(ss: seq<System>, es: seq<Event>, i: nat, j: nat, id: int,
                                name: string, w: int, names: seq<string>)
    requires IsRun(ss, es) && i <= j < |ss| && id in ss[i].table.rows
    requires SameCycle(ss[i], ss[j], id) && Settled(ss[i].table.rows[id].results, name)
    requires w in ss[j].holders && Live(ss[j].holders[w], ss[j].now) && ss[j].holders[w].job.id == id
    ensures name !in Pending(names, ss[j].holders[w].job.results)
  {
    SettledStays(ss, es, i, j, id, name);
    RunKeeps(ss, es, j);
    assert Holds(ss[j].table.rows, ss[j].holders[w]);
  }

  /** A job that finishes as done without an error text has every configured source settled; one
      that finishes as failed has an error for each of them and no attempt left. */
  lemma FinishedMeansSettled(ss: seq<System>, es: seq<Event>, i: nat, name: string)
    requires IsRun(ss, es) && i < |es| && es[i].Finish? && name in es[i].names
    ensures var id := ss[i].holders[es[i].worker].job.id;
      && id in ss[i + 1].table.rows
      && var row := ss[i + 1].table.rows[id];
        && (row.status == Done && row.lastError.None? ==> Settled(row.results, name))
        && (row.status == Failed ==>
            name in row.results && !Settled(row.results, name) && row.attempts >= MAX_ATTEMPTS)
  {
    RunKeeps(ss, es, i);
    RunKeeps(ss, es, i + 1);
    var s, e := ss[i], es[i];
    var id := s.holders[e.worker].job.id;
    var results := HeldResults(s, e);
    MergedKeepsSettled(e.names, s.holders[e.worker].job.results, e.fetcher);
    var row := ss[i + 1].table.rows[id];
    assert row.results == Stamped(results, e.stamp);
    assert RowInv(row, ss[i + 1].cycles[id], ss[i + 1].now);
    if row.status == Done && row.lastError.None? {
      assert name !in Errors(row.results);
    }
  }

  lemma FrozenStep(s: System, e: Event, id: int)
    requires Inv(s) && Timely(s, e) && id in s.table.rows && SameCycle(s, Apply(s, e), id)
    requires s.table.rows[id].status in {Done, Failed}
    ensures id in Apply(s, e).table.rows && Apply(s, e).table.rows[id] == s.table.rows[id]
  {
    RowsStay(s, e, id);
    if e.Finish? {
      assert Holds(s.table.rows, s.holders[e.worker]);
    }
  }

  /** A finished row does not change until it is enqueued again. */
  lemma {:induction false} FinishedRowsFreeze(ss: seq<System>, es: seq<Event>, i: nat, j: nat, id: int)
    requires IsRun(ss, es) && i <= j < |ss| && id in ss[i].table.rows
    requires SameCycle(ss[i], ss[j], id) && ss[i].table.rows[id].status in {Done, Failed}
    ensures id in ss[j].table.rows && ss[j].table.rows[id] == ss[i].table.rows[id]
  {
    if i < j {
      SameCycleStep(ss, es, i, j, id);
      StepOf(ss, es, j);
      FinishedRowsFreeze(ss, es, i, j - 1, id);
      FrozenStep(ss[j - 1], es[j - 1], id);
    }
  }

  /** No job is stranded: once more than a lease has passed, every open row can be claimed,
      whatever crashed before. */
  lemma NoJobIsStranded(ss: seq<System>, es: seq<Event>, i: nat, id: int, elapsed: nat)
    requires IsRun(ss, es) && i < |ss| && id in ss[i].table.rows && elapsed > STALE_LEASE
    requires ss[i].table.rows[id].status in {Queued, Running}
    ensures Claimable(ss[i].table.rows, {}, ss[i].now + elapsed, id)
  {
    RunKeeps(ss, es, i);
    assert RowInv(ss[i].table.rows[id], ss[i].cycles[id], ss[i].now);
  }

  // ---- Attempts ----

  lemma ExtendTimely(ss: seq<System>, es: seq<Event>, e: Event)
    requires IsRun(ss, es) && Timely(ss[|es|], e)
    ensures IsRun(ss + [Apply(ss[|es|], e)], es + [e])
  {
  }

  ghost predicate IsTakenOver(s: System, n: int) {
    && s.table.rows.Keys == {1} && s.table.rows[1].status == Running
    && s.table.rows[1].attempts == n && s.table.rows[1].updatedAt == s.now
    && forall w :: w in s.holders ==> w < n
  }

  lemma TakeOver(s: System, n: int)
    requires IsTakenOver(s, n)
    ensures var late := Apply(s, Tick(STALE_LEASE + 1));
      && Timely(late, Claim(n, {}, 1)) && IsTakenOver(Apply(late, Claim(n, {}, 1)), n + 1)
  {
  }

  lemma FirstClaim(track: Track, key: Key) returns (ss: seq<System>, es: seq<Event>)
    ensures IsRun(ss, es) && IsTakenOver(ss[|es|], 1)
  {
    ss, es := [System(Table(map[], 1), 0, map[], map[])], [];
    assert !KeyTaken(ss[0].table.rows, key);
    ExtendTimely(ss, es, Insert(track, key, None, false));
    ss, es := ss + [Apply(ss[0], Insert(track, key, None, false))], es + [Insert(track, key, None, false)];
    assert ss[1].table.rows == map[1 := NewRow(track, key, None, false, 0)];
    ExtendTimely(ss, es, Claim(0, {}, 1));
    ss, es := ss + [Apply(ss[1], Claim(0, {}, 1))], es + [Claim(0, {}, 1)];
  }

  /** MAX_ATTEMPTS does not bound the attempts of a row: with every lease respected, workers that
      crash one after the other take them to any number. */
  lemma {:induction false} AttemptsRun(track: Track, key: Key, n: int)
    returns (ss: seq<System>, es: seq<Event>)
    requires n >= 1
    ensures IsRun(ss, es) && IsTakenOver(ss[|es|], n)
  {
    if n == 1 {
      ss, es := FirstClaim(track, key);
    } else {
      ss, es := AttemptsRun(track, key, n - 1);
      TakeOver(ss[|es|], n - 1);
      ExtendTimely(ss, es, Tick(STALE_LEASE + 1));
      ss, es := ss + [Apply(ss[|es|], Tick(STALE_LEASE + 1))], es + [Tick(STALE_LEASE + 1)];
      ExtendTimely(ss, es, Claim(n - 1, {}, 1));
      ss, es := ss + [Apply(ss[|es|], Claim(n - 1, {}, 1))], es + [Claim(n - 1, {}, 1)];
    }
  }
}
