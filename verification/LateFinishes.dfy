/** Workers that finish after their lease (src/passages/jobs.rs): exactly which finishes break the
    leases of others, and what then happens. */
module LateFinishes {
  import opened Text
  import opened JobTable
  import opened Worker
  import opened IngestQueue

  /** A run of steps that are enabled, whether or not finishes are within their leases. */
  ghost predicate IsUntimelyRun(ss: seq<System>, es: seq<Event>) {
    && |ss| == |es| + 1 && Initial(ss[0])
    && forall i: nat | i < |es| :: StepAt(ss, es, i)
  }

  ghost predicate StepAt(ss: seq<System>, es: seq<Event>, i: nat)
    requires |ss| == |es| + 1 && i < |es|
  {
    Enabled(ss[i], es[i]) && ss[i + 1] == Apply(ss[i], es[i])
  }

  lemma ExtendRun(ss: seq<System>, es: seq<Event>, e: Event)
    requires IsUntimelyRun(ss, es) && Enabled(ss[|es|], e)
    ensures IsUntimelyRun(ss + [Apply(ss[|es|], e)], es + [e])
  {
    var ss', es' := ss + [Apply(ss[|es|], e)], es + [e];
    forall i: nat | i < |es'|
      ensures StepAt(ss', es', i)
    {
      assert i < |es| ==> StepAt(ss, es, i);
    }
  }

  // ---- When leases hold ----

  /** What holds in every run, timely or not, as long as the leases do. */
  ghost predicate Orderly(s: System) {
    HoldersInv(s) && LeasesInv(s) && FreshIds(s)
  }

  /** The finish is within its lease, or nobody else is live on the job. */
  ghost predicate Harmless(s: System, e: Event)
    requires e.Finish? && Enabled(s, e)
  {
    Live(s.holders[e.worker], s.now) || AloneOnJob(s, e.worker)
  }

  lemma HarmlessIsAlone(s: System, e: Event)
    requires LeasesInv(s) && e.Finish? && Enabled(s, e) && Harmless(s, e)
    ensures AloneOnJob(s, e.worker)
  {
    forall w | w != e.worker && w in s.holders && Live(s.holders[w], s.now)
      ensures s.holders[w].job.id != s.holders[e.worker].job.id
    {
      if Live(s.holders[e.worker], s.now) {
        assert BothLive(s, w, e.worker);
      }
    }
  }

  /** A finish keeps the leases of the others exactly when it is within its own lease or nobody
      else is working on the job: it updates the row by id only. */
  lemma FinishKeepsLeasesIff(s: System, e: Event)
    requires Orderly(s) && e.Finish? && Enabled(s, e)
    ensures LeasesInv(Apply(s, e)) <==> Harmless(s, e)
  {
    if Harmless(s, e) {
      HarmlessIsAlone(s, e);
      FinishLeases(s, e);
    } else {
      var w :| w != e.worker && w in s.holders && Live(s.holders[w], s.now)
        && s.holders[w].job.id == s.holders[e.worker].job.id;
      var s' := Apply(s, e);
      assert s'.holders[w] == s.holders[w] && !Holds(s'.table.rows, s'.holders[w]);
    }
  }

  lemma OrderlyStep(s: System, e: Event)
    requires Orderly(s) && Enabled(s, e) && (e.Finish? ==> Harmless(s, e))
    ensures Orderly(Apply(s, e))
  {
    match e
    case Insert(_, _, _, _) => InsertLeases(s, e);
    case Requeue(_, _) => LeasesCarry(s, Apply(s, e));
    case Claim(_, _, _) => ClaimLeases(s, e);
    case Finish(_, _, _, _) =>
      HarmlessIsAlone(s, e);
      FinishLeases(s, e);
    case Crash(_) => LeasesCarry(s, Apply(s, e));
    case Tick(_) => LeasesCarry(s, Apply(s, e));
  }

  ghost predicate LeasesUpTo(ss: seq<System>, n: nat)
    requires n < |ss|
  {
    forall i: nat | i <= n :: LeasesInv(ss[i])
  }

  ghost predicate HarmlessAt(ss: seq<System>, es: seq<Event>, i: nat)
    requires IsUntimelyRun(ss, es) && i < |es|
  {
    assert StepAt(ss, es, i);
    es[i].Finish? ==> Harmless(ss[i], es[i])
  }

  ghost predicate HarmlessUpTo(ss: seq<System>, es: seq<Event>, n: nat)
    requires IsUntimelyRun(ss, es) && n < |ss|
  {
    forall i: nat | i < n :: HarmlessAt(ss, es, i)
  }

  lemma {:induction false} OrderlyUpTo(ss: seq<System>, es: seq<Event>, n: nat)
    requires IsUntimelyRun(ss, es) && n < |ss| && HarmlessUpTo(ss, es, n)
    ensures Orderly(ss[n]) && LeasesUpTo(ss, n)
  {
    if n > 0 {
      OrderlyUpTo(ss, es, n - 1);
      assert StepAt(ss, es, n - 1) && HarmlessAt(ss, es, n - 1);
      OrderlyStep(ss[n - 1], es[n - 1]);
    }
  }

  /** In any run, whether or not workers respect their leases, the leases hold in every state up to
      n exactly when every finish before n is within its lease or has nobody else live on its job. */
  lemma {:induction false} LeasesHoldIff(ss: seq<System>, es: seq<Event>, n: nat)
    requires IsUntimelyRun(ss, es) && n < |ss|
    ensures LeasesUpTo(ss, n) <==> HarmlessUpTo(ss, es, n)
  {
    if n == 0 {
      OrderlyUpTo(ss, es, 0);
    } else {
      LeasesHoldIff(ss, es, n - 1);
      if HarmlessUpTo(ss, es, n - 1) {
        OrderlyUpTo(ss, es, n - 1);
        LastStep(ss, es, n);
      } else {
        var i: nat :| i < n - 1 && !HarmlessAt(ss, es, i);
        var k: nat :| k <= n - 1 && !LeasesInv(ss[k]);
        assert !HarmlessUpTo(ss, es, n) && !LeasesUpTo(ss, n);
      }
    }
  }

  lemma LastStep(ss: seq<System>, es: seq<Event>, n: nat)
    requires IsUntimelyRun(ss, es) && 0 < n < |ss| && HarmlessUpTo(ss, es, n - 1)
    requires Orderly(ss[n - 1]) && LeasesUpTo(ss, n - 1)
    ensures LeasesUpTo(ss, n) <==> HarmlessUpTo(ss, es, n)
  {
    assert StepAt(ss, es, n - 1);
    if HarmlessAt(ss, es, n - 1) {
      OrderlyStep(ss[n - 1], es[n - 1]);
      assert HarmlessUpTo(ss, es, n);
    } else {
      FinishKeepsLeasesIff(ss[n - 1], es[n - 1]);
      assert !LeasesInv(ss[n]);
    }
  }

  // ---- Runs in which they do not ----

  /** A worker that outlived its lease, and the worker that took its job over. */
  lemma TakenOver(track: Track, key: Key) returns (ss: seq<System>, es: seq<Event>)
    ensures IsUntimelyRun(ss, es)
    ensures var s, row := ss[|es|], NewRow(track, key, None, false, 0);
      && s.now == STALE_LEASE + 1 && s.table.nextId == 2
      && s.table.rows == map[1 := Claimed(Claimed(row, 0), s.now)]
      && s.holders == map[1 := Holder(JobOf(1, Claimed(row, 0)), 0),
                          2 := Holder(JobOf(1, Claimed(Claimed(row, 0), s.now)), s.now)]
  {
    ss, es := [System(Table(map[], 1), 0, map[], map[])], [];
    assert !KeyTaken(ss[0].table.rows, key);
    var e := Insert(track, key, None, false);
    ExtendRun(ss, es, e);
    ss, es := ss + [Apply(ss[0], e)], es + [e];
    var row := NewRow(track, key, None, false, 0);
    assert ss[1].table.rows == map[1 := row];
    e := Claim(1, {}, 1);
    ExtendRun(ss, es, e);
    ss, es := ss + [Apply(ss[1], e)], es + [e];
    assert ss[2].table.rows == map[1 := Claimed(row, 0)];
    e := Tick(STALE_LEASE + 1);
    ExtendRun(ss, es, e);
    ss, es := ss + [Apply(ss[2], e)], es + [e];
    e := Claim(2, {}, 1);
    ExtendRun(ss, es, e);
    ss, es := ss + [Apply(ss[3], e)], es + [e];
  }

  /** The late worker's results are its own: the job's results were empty when it was claimed. */
  lemma LateResults(s: System, e: Event)
    requires e.Finish? && e.worker in s.holders && s.holders[e.worker].job.results == map[]
    ensures var r := HeldResults(s, e);
      && r.Keys == Names(e.names)
      && forall name :: name in r ==> r[name] == Outcome(VerdictOf(e.fetcher(name)), None)
  {
  }

  predicate Errs(names: seq<string>, fetcher: Fetcher) {
    exists k | 0 <= k < |names| :: VerdictOf(fetcher(names[k])).Error?
  }

  lemma LateErrors(s: System, e: Event)
    requires e.Finish? && e.worker in s.holders && s.holders[e.worker].job.results == map[]
    requires e.names != []
    ensures var r := HeldResults(s, e);
      && r != map[] && (Errors(r) == map[] <==> !Errs(e.names, e.fetcher))
      && (!Errs(e.names, e.fetcher) ==> !AllErrors(r))
  {
    LateResults(s, e);
    var r := HeldResults(s, e);
    assert e.names[0] in r;
    if Errs(e.names, e.fetcher) {
      var k :| 0 <= k < |e.names| && VerdictOf(e.fetcher(e.names[k])).Error?;
      assert e.names[k] in Errors(r);
    } else {
      forall name | name in r
        ensures !r[name].verdict.Error?
      {
        var k :| 0 <= k < |e.names| && e.names[k] == name;
      }
    }
  }

  /** Such a finish does happen when a worker outlives its lease, whatever its sources return: the
      job of the worker that took it over is done under its hands, or back in the queue when a
      source was in error. */
  lemma LateFinishRun(track: Track, key: Key, names: seq<string>, fetcher: Fetcher)
    returns (ss: seq<System>, es: seq<Event>)
    requires names != []
    ensures IsUntimelyRun(ss, es)
    ensures var s := ss[|es|];
      && 2 in s.holders && Live(s.holders[2], s.now) && s.holders[2].job.id == 1
      && s.table.rows.Keys == {1} && s.holders.Keys == {2}
      && s.table.rows[1].status == (if Errs(names, fetcher) then Queued else Done)
      && (Errs(names, fetcher) ==> s.table.rows[1].nextAttemptAt == s.now + 2 * MINUTE)
      && s.now == s.holders[2].claimedAt
  {
    ss, es := TakenOver(track, key);
    var e := Finish(1, names, fetcher, 0);
    LateErrors(ss[|es|], e);
    ExtendRun(ss, es, e);
    ss, es := ss + [Apply(ss[|es|], e)], es + [e];
    assert Pow2(1) == 2;
  }

  /** A job put back in this way is then claimed once more, while the worker that took it over is
      well within its lease: two live workers process one job. */
  lemma LateFinishDoublesRun(track: Track, key: Key, names: seq<string>, fetcher: Fetcher)
    returns (ss: seq<System>, es: seq<Event>)
    requires Errs(names, fetcher)
    ensures IsUntimelyRun(ss, es)
    ensures var s := ss[|es|];
      BothLive(s, 2, 3) && s.holders[2].job.id == s.holders[3].job.id
  {
    ss, es := LateFinishRun(track, key, names, fetcher);
    var e := Tick(2 * MINUTE);
    ExtendRun(ss, es, e);
    ss, es := ss + [Apply(ss[|es|], e)], es + [e];
    e := Claim(3, {}, 1);
    ExtendRun(ss, es, e);
    ss, es := ss + [Apply(ss[|es|], e)], es + [e];
  }
}
