/** What a source answered and what that makes of it within an enqueue cycle (src/passages/worker.rs
    and src/passages/jobs.rs): from a fetch to what the next worker fetches again. */
module SourceCycles {
  import opened Text
  import opened JobTable
  import opened Worker
  import opened IngestQueue
  import opened IngestRuns

  /** The answer leaves the source to be tried again: it failed for now, or a document it gave could
      not be stored. */
  predicate AsksAgain(fetch: Fetch) {
    match fetch
    case Transient(_) => true
    case Permanent(_) => false
    case Documents(stored) => exists k | 0 <= k < |stored| :: stored[k].Some?
  }

  /** The outcome an answer is stored as: no match for an empty or permanent answer, the number of
      documents when all are stored, and otherwise the error, the first one that occurred. */
  lemma VerdictIs(fetch: Fetch)
    ensures VerdictOf(fetch).Error? <==> AsksAgain(fetch)
    ensures fetch.Permanent? || fetch == Documents([]) ==> VerdictOf(fetch) == NoMatch
    ensures fetch.Transient? ==> VerdictOf(fetch) == Error(fetch.message)
    ensures fetch.Documents? && fetch.stored != [] && !AsksAgain(fetch) ==>
      VerdictOf(fetch) == Found(|fetch.stored|)
    ensures fetch.Documents? && AsksAgain(fetch) ==>
      exists k | 0 <= k < |fetch.stored| :: IsFirstError(fetch.stored, k)
        && VerdictOf(fetch) == Error("store: " + fetch.stored[k].value)
  {
    if fetch.Documents? && AsksAgain(fetch) {
      var k :| 0 <= k < |fetch.stored| && fetch.stored[k].Some?;
      assert !AllStored(fetch.stored);
      assert IsFirstError(fetch.stored, FirstFailure(fetch.stored));
    }
  }

  predicate IsFirstError(stored: seq<Option<string>>, k: int)
    requires 0 <= k < |stored|
  {
    stored[k].Some? && forall i | 0 <= i < k :: stored[i].None?
  }

  // ---- Between two finishes ----

  /** No worker finishes the job in the steps from i up to j. */
  ghost predicate NoFinish(ss: seq<System>, es: seq<Event>, i: nat, j: nat, id: int)
    requires IsRun(ss, es) && j <= |es|
  {
    forall k: nat | i <= k < j :: !Finishes(ss, es, k, id)
  }

  ghost predicate Finishes(ss: seq<System>, es: seq<Event>, k: nat, id: int)
    requires IsRun(ss, es) && k < |es|
  {
    es[k].Finish? && es[k].worker in ss[k].holders && ss[k].holders[es[k].worker].job.id == id
  }

  lemma ResultsStep(s: System, e: Event, id: int)
    requires Inv(s) && Timely(s, e) && id in s.table.rows && SameCycle(s, Apply(s, e), id)
    requires !(e.Finish? && s.holders[e.worker].job.id == id)
    ensures id in Apply(s, e).table.rows
    ensures Apply(s, e).table.rows[id].results == s.table.rows[id].results
  {
    RowsStay(s, e, id);
  }

  lemma {:induction false} ResultsStay(ss: seq<System>, es: seq<Event>, i: nat, j: nat, id: int)
    requires IsRun(ss, es) && i <= j < |ss| && id in ss[i].table.rows
    requires SameCycle(ss[i], ss[j], id) && NoFinish(ss, es, i, j, id)
    ensures id in ss[j].table.rows && ss[j].table.rows[id].results == ss[i].table.rows[id].results
  {
    if i < j {
      SameCycleStep(ss, es, i, j, id);
      StepOf(ss, es, j);
      ResultsStay(ss, es, i, j - 1, id);
      assert !Finishes(ss, es, j - 1, id);
      ResultsStep(ss[j - 1], es[j - 1], id);
    }
  }

  ghost predicate WorksOn(s: System, w: int, id: int) {
    w in s.holders && Live(s.holders[w], s.now) && s.holders[w].job.id == id
  }

  lemma HolderKnowsResults(ss: seq<System>, es: seq<Event>, j: nat, w: int, id: int)
    requires IsRun(ss, es) && j < |ss| && WorksOn(ss[j], w, id)
    ensures id in ss[j].table.rows && ss[j].holders[w].job.results == ss[j].table.rows[id].results
  {
    RunKeeps(ss, es, j);
    assert Holds(ss[j].table.rows, ss[j].holders[w]);
  }

  // ---- What an answer leads to ----

  lemma FinishedResult(s: System, e: Event, name: string)
    requires Inv(s) && Timely(s, e) && e.Finish?
    requires name in Pending(e.names, s.holders[e.worker].job.results)
    ensures var id := s.holders[e.worker].job.id;
      && id in Apply(s, e).table.rows && name in Apply(s, e).table.rows[id].results
      && Apply(s, e).table.rows[id].results[name].verdict == VerdictOf(e.fetcher(name))
  {
    var h := s.holders[e.worker];
    assert Holds(s.table.rows, h);
    assert IsPending(e.names, h.job.results, name);
    assert name in HeldResults(s, e);
  }

  /** The next worker on the job fetches a source again exactly when its last answer asks for it. */
  lemma AnswerDecidesNextFetch(ss: seq<System>, es: seq<Event>, i: nat, j: nat, id: int, name: string,
                               w: int, names: seq<string>)
    requires IsRun(ss, es) && i < j < |ss| && i < |es| && Finishes(ss, es, i, id)
    requires name in Pending(es[i].names, ss[i].holders[es[i].worker].job.results)
    requires SameCycle(ss[i + 1], ss[j], id) && NoFinish(ss, es, i + 1, j, id)
    requires WorksOn(ss[j], w, id) && name in names
    ensures name in Pending(names, ss[j].holders[w].job.results) <==> AsksAgain(es[i].fetcher(name))
  {
    StepOf(ss, es, i + 1);
    FinishedResult(ss[i], es[i], name);
    ResultsStay(ss, es, i + 1, j, id);
    HolderKnowsResults(ss, es, j, w, id);
    VerdictIs(es[i].fetcher(name));
    assert name in Pending(names, ss[j].holders[w].job.results)
      <==> IsPending(names, ss[j].holders[w].job.results, name);
  }

  // ---- New cycles ----

  /** The step begins a cycle of the row: it inserts the row or puts a finished one back. */
  ghost predicate BeginsCycle(s: System, t: System, id: int) {
    id in t.cycles && (id in s.cycles ==> t.cycles[id].number != s.cycles[id].number)
  }

  lemma NewCycleKnowsNothing(s: System, e: Event, id: int)
    requires Inv(s) && Timely(s, e) && BeginsCycle(s, Apply(s, e), id)
    ensures id in Apply(s, e).table.rows && Apply(s, e).table.rows[id].results == map[]
    ensures Apply(s, e).table.rows[id].status == Queued && Apply(s, e).table.rows[id].attempts == 0
  {
    StepKeeps(s, e);
  }

  /** The source is fetched by no finished worker of the job in the steps from i up to j. */
  ghost predicate NotFetched(ss: seq<System>, es: seq<Event>, i: nat, j: nat, id: int, name: string)
    requires IsRun(ss, es) && j <= |es|
  {
    forall k: nat | i <= k < j && Finishes(ss, es, k, id) :: name !in es[k].names
  }

  lemma UnknownStep(s: System, e: Event, id: int, name: string)
    requires Inv(s) && Timely(s, e) && id in s.table.rows && SameCycle(s, Apply(s, e), id)
    requires e.Finish? && s.holders[e.worker].job.id == id ==> name !in e.names
    requires name !in s.table.rows[id].results
    ensures id in Apply(s, e).table.rows && name !in Apply(s, e).table.rows[id].results
  {
    RowsStay(s, e, id);
    if e.Finish? && s.holders[e.worker].job.id == id {
      assert Holds(s.table.rows, s.holders[e.worker]);
      assert name !in HeldResults(s, e);
    }
  }

  lemma {:induction false} StaysUnknown(ss: seq<System>, es: seq<Event>, i: nat, j: nat, id: int,
                                        name: string)
    requires IsRun(ss, es) && i <= j < |ss| && id in ss[i].table.rows
    requires SameCycle(ss[i], ss[j], id) && NotFetched(ss, es, i, j, id, name)
    requires name !in ss[i].table.rows[id].results
    ensures id in ss[j].table.rows && name !in ss[j].table.rows[id].results
  {
    if i < j {
      SameCycleStep(ss, es, i, j, id);
      StepOf(ss, es, j);
      StaysUnknown(ss, es, i, j - 1, id, name);
      if es[j - 1].Finish? && ss[j - 1].holders[es[j - 1].worker].job.id == id {
        assert Finishes(ss, es, j - 1, id);
      }
      UnknownStep(ss[j - 1], es[j - 1], id, name);
    }
  }

  /** In a new cycle every configured source is pending until a worker of that cycle fetched it,
      whatever the cycles before found. */
  lemma NewCycleFetchesAll(ss: seq<System>, es: seq<Event>, i: nat, j: nat, id: int, name: string,
                           w: int, names: seq<string>)
    requires IsRun(ss, es) && i < j < |ss| && i < |es| && BeginsCycle(ss[i], ss[i + 1], id)
    requires SameCycle(ss[i + 1], ss[j], id) && NotFetched(ss, es, i + 1, j, id, name)
    requires WorksOn(ss[j], w, id) && name in names
    ensures name in Pending(names, ss[j].holders[w].job.results)
  {
    StepOf(ss, es, i + 1);
    NewCycleKnowsNothing(ss[i], es[i], id);
    StaysUnknown(ss, es, i + 1, j, id, name);
    HolderKnowsResults(ss, es, j, w, id);
    assert IsPending(names, ss[j].holders[w].job.results, name);
  }

  /** A cycle begins exactly when a row is inserted or a finished one is put back. */
  lemma CycleBeginsIff(ss: seq<System>, es: seq<Event>, i: nat, id: int)
    requires IsRun(ss, es) && i < |es|
    ensures BeginsCycle(ss[i], ss[i + 1], id) <==>
      id in ss[i + 1].table.rows
      && (id !in ss[i].table.rows
          || (ss[i].table.rows[id].status in {Done, Failed}
              && ss[i + 1].table.rows[id].status == Queued))
  {
    StepOf(ss, es, i + 1);
    RunKeeps(ss, es, i + 1);
    var s, e := ss[i], es[i];
    if id in s.table.rows {
      RowsStay(s, e, id);
      assert RowInv(s.table.rows[id], s.cycles[id], s.now);
      if e.Finish? {
        assert Holds(s.table.rows, s.holders[e.worker]);
      }
    }
  }
}
