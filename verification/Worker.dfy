/** One run of the ingest worker over a claimed job (src/passages/worker.rs). */
module Worker {
  import opened Text
  import opened JobTable

  /** What fetching one source came to. A successful fetch lists, for each document, the error
      of storing it, if any. */
  datatype Fetch =
    | Documents(stored: seq<Option<string>>)
    | Permanent(message: string)
    | Transient(message: string)

  /** What all sources return for a job. */
  type Fetcher = string -> Fetch

  predicate AllStored(stored: seq<Option<string>>) {
    forall i | 0 <= i < |stored| :: stored[i].None?
  }

  /** Where storing stopped: the first document that could not be stored. */
  function FirstFailure(stored: seq<Option<string>>): (i: nat)
    requires !AllStored(stored)
    ensures i < |stored| && stored[i].Some? && forall j | 0 <= j < i :: stored[j].None?
  {
    if stored[0].Some? then 0
    else
      assert !AllStored(stored[1..]) by {
        var k :| 0 <= k < |stored| && stored[k].Some?;
        assert stored[1..][k - 1] == stored[k];
      }
      1 + FirstFailure(stored[1..])
  }

  function VerdictOf(fetch: Fetch): Verdict {
    match fetch
    case Documents(stored) =>
      if stored == [] then NoMatch
      else if AllStored(stored) then Found(|stored|)
      else Error("store: " + stored[FirstFailure(stored)].value)
    case Permanent(_) => NoMatch
    case Transient(message) => Error(message)
  }

  method StoreResults(fetch: Fetch) returns (verdict: Verdict)
    ensures verdict == VerdictOf(fetch)
  {
    match fetch {
      case Documents(stored) =>
        for i := 0 to |stored|
          invariant forall j | 0 <= j < i :: stored[j].None?
        {
          if stored[i].Some? {
            return Error("store: " + stored[i].value);
          }
        }
        verdict := if stored == [] then NoMatch else Found(|stored|);
      case Permanent(_) => verdict := NoMatch;
      case Transient(message) => verdict := Error(message);
    }
  }

  /** A source that needs no more fetching in this enqueue cycle. */
  predicate Settled(results: Results, name: string) {
    name in results && !results[name].verdict.Error?
  }

  predicate IsPending(names: seq<string>, results: Results, name: string) {
    name in names && !Settled(results, name)
  }

  function Pending(names: seq<string>, results: Results): (p: seq<string>)
    ensures forall name :: name in p <==> IsPending(names, results, name)
  {
    if names == [] then []
    else
      var front, last := names[..|names| - 1], names[|names| - 1];
      Pending(front, results) + (if Settled(results, last) then [] else [last])
  }

  /** The job's results with a fresh outcome for every pending source. */
  function Merged(names: seq<string>, results: Results, fetcher: Fetcher): Results {
    map name | name in results.Keys + Names(names) ::
      if IsPending(names, results, name) then Outcome(VerdictOf(fetcher(name)), None)
      else assert name in results; results[name]
  }

  function Names(names: seq<string>): (s: set<string>)
    ensures forall name :: name in s <==> name in names
  {
    set name | name in names
  }

  method Process(job: Job, names: seq<string>, fetcher: Fetcher) returns (results: Results)
    ensures results == Merged(names, job.results, fetcher)
  {
    var pending := Pending(names, job.results);
    results := job.results;
    for i := 0 to |pending|
      invariant results.Keys == job.results.Keys + Names(pending[..i])
      invariant forall name :: name in results ==>
        results[name] == if name in pending[..i] then Outcome(VerdictOf(fetcher(name)), None)
                         else job.results[name]
    {
      var verdict := StoreResults(fetcher(pending[i]));
      assert pending[..i + 1] == pending[..i] + [pending[i]];
      results := results[pending[i] := Outcome(verdict, None)];
    }
    assert pending[..|pending|] == pending;
    ghost var goal := Merged(names, job.results, fetcher);
    forall name
      ensures name in results <==> name in goal
    {
      assert name in pending <==> IsPending(names, job.results, name);
    }
    assert results.Keys == goal.Keys;
  }

  /** Processing keeps every settled entry as it is and leaves no configured source out. */
  lemma MergedKeepsSettled(names: seq<string>, results: Results, fetcher: Fetcher)
    ensures forall name :: Settled(results, name) ==>
      name in Merged(names, results, fetcher) && Merged(names, results, fetcher)[name] == results[name]
    ensures forall name :: name in names ==> name in Merged(names, results, fetcher)
  {
  }
}
