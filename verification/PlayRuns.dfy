/** What becomes of recorded plays over whole runs of the passage store (src/passages/store.rs), and
    when recording an event again adds nothing. */
module PlayRuns {
  import opened Text
  import opened PassageStore
  import opened StoreInterleavings

  lemma IssuedStep(g: Engine, s: System, e: Event, c: int)
    requires StoreInv(g, s.tables) && Enabled(g, s, e) && c in s.tables.issued
    ensures c in Apply(g, s, e).tables.issued
    ensures c in Apply(g, s, e).tables.chunks ==> c in s.tables.chunks
  {
    if e.Rebuild? {
      var doc := s.clients[e.w].doc;
      ReplacedChunks(g, s.tables, e.id,
                     UpsertedRow(g, s.tables, e.id, doc, s.clients[e.w].addedBy, e.now),
                     g.chunksOf(doc.body), e.ids);
    }
  }

  lemma StepOf(g: Engine, ss: seq<System>, es: seq<Event>, j: nat)
    requires IsRun(g, ss, es) && 0 < j < |ss|
    ensures StoreInv(g, ss[j - 1].tables) && Enabled(g, ss[j - 1], es[j - 1])
    ensures ss[j] == Apply(g, ss[j - 1], es[j - 1])
  {
    RunKeeps(g, ss, es, j - 1);
    assert StepAt(g, ss, es, j - 1);
  }

  lemma PlayedIsIssued(g: Engine, ss: seq<System>, es: seq<Event>, i: nat, j: nat, p: PlayKey)
    requires IsRun(g, ss, es) && i <= j < |ss| && p in ss[i].tables.plays
    ensures p.chunk in ss[j].tables.issued
  {
    RunKeeps(g, ss, es, i);
    IdsAreNotReused(g, ss, es, i, j, p.chunk);
  }

  /** A chunk id is never used again once its chunk is gone. */
  lemma {:induction false} IdsAreNotReused(g: Engine, ss: seq<System>, es: seq<Event>, i: nat, j: nat,
                                           c: int)
    requires IsRun(g, ss, es) && i <= j < |ss| && c in ss[i].tables.issued
    ensures c in ss[j].tables.issued
    ensures c in ss[j].tables.chunks ==> c in ss[i].tables.chunks
  {
    if i < j {
      IdsAreNotReused(g, ss, es, i, j - 1, c);
      StepOf(g, ss, es, j);
      IssuedStep(g, ss[j - 1], es[j - 1], c);
    }
  }

  lemma PlayStep(g: Engine, s: System, e: Event, p: PlayKey)
    requires StoreInv(g, s.tables) && Enabled(g, s, e) && p in s.tables.plays
    ensures var t := Apply(g, s, e).tables;
      if p.chunk in t.chunks then p in t.plays && t.plays[p] == s.tables.plays[p] else p !in t.plays
  {
    StepKeeps(g, s, e);
    IssuedStep(g, s, e, p.chunk);
    if e.Rebuild? {
      var doc := s.clients[e.w].doc;
      ReplacedChunks(g, s.tables, e.id,
                     UpsertedRow(g, s.tables, e.id, doc, s.clients[e.w].addedBy, e.now),
                     g.chunksOf(doc.body), e.ids);
      assert p.chunk !in e.ids;
    }
  }

  ghost predicate PlayedAt(t: Tables, p: PlayKey, at: int) {
    p.chunk in t.chunks ==> p in t.plays && t.plays[p] == at
  }

  lemma PlayedStep(g: Engine, s: System, e: Event, p: PlayKey, at: int)
    requires StoreInv(g, s.tables) && Enabled(g, s, e) && p.chunk in s.tables.issued
    requires PlayedAt(s.tables, p, at)
    ensures PlayedAt(Apply(g, s, e).tables, p, at)
  {
    IssuedStep(g, s, e, p.chunk);
    if p.chunk in s.tables.chunks {
      PlayStep(g, s, e, p);
    }
  }

  /** A recorded play keeps its time for as long as its chunk exists, whatever is recorded,
      rebuilt or deleted since. */
  lemma {:induction false} PlaysPersist(g: Engine, ss: seq<System>, es: seq<Event>, i: nat, j: nat,
                                        p: PlayKey)
    requires IsRun(g, ss, es) && i <= j < |ss| && p in ss[i].tables.plays
    ensures PlayedAt(ss[j].tables, p, ss[i].tables.plays[p])
  {
    if i < j {
      PlaysPersist(g, ss, es, i, j - 1, p);
      StepOf(g, ss, es, j);
      PlayedIsIssued(g, ss, es, i, j - 1, p);
      PlayedStep(g, ss[j - 1], es[j - 1], p, ss[i].tables.plays[p]);
    }
  }

  // ---- Replays ----

  /** Every listed chunk that exists at j existed when the event was recorded at i. */
  ghost predicate KnewChunks(ss: seq<System>, es: seq<Event>, i: nat, j: nat)
    requires i < |es| && i < |ss| && j < |ss| && es[i].Record?
  {
    forall c | c in es[i].chunkIds && c in ss[j].tables.chunks :: c in ss[i].tables.chunks
  }

  function Replayed(t: Tables, e: Event, later: int): Tables
    requires e.Record?
  {
    Recorded(t, e.user, e.event, e.chunkIds, later)
  }

  lemma ReplayStays(t: Tables, e: Event, later: int)
    requires e.Record?
    ensures Replayed(t, e, later) == t <==>
      forall c | c in e.chunkIds && c in t.chunks :: PlayKey(e.user, e.event, c) in t.plays
  {
    var plays := Replayed(t, e, later).plays;
    if forall c | c in e.chunkIds && c in t.chunks :: PlayKey(e.user, e.event, c) in t.plays {
      assert plays == t.plays;
    } else {
      var c :| c in e.chunkIds && c in t.chunks && PlayKey(e.user, e.event, c) !in t.plays;
      assert PlayKey(e.user, e.event, c) in plays;
    }
  }

  /** Replaying a play event at any later time adds and changes nothing, whatever time it then
      carries and whatever happened since, if it lists no chunk that exists now and did not then. */
  lemma ReplayAddsNothing(g: Engine, ss: seq<System>, es: seq<Event>, i: nat, j: nat, later: int)
    requires IsRun(g, ss, es) && i < j < |ss| && es[i].Record? && KnewChunks(ss, es, i, j)
    ensures Replayed(ss[j].tables, es[i], later) == ss[j].tables
  {
    var t, e := ss[j].tables, es[i];
    assert StepAt(g, ss, es, i);
    forall c | c in e.chunkIds && c in t.chunks
      ensures PlayKey(e.user, e.event, c) in t.plays
    {
      assert PlayKey(e.user, e.event, c) in ss[i + 1].tables.plays;
      PlaysPersist(g, ss, es, i + 1, j, PlayKey(e.user, e.event, c));
    }
    ReplayStays(t, e, later);
  }

  predicate Records(e: Event, user: int, event: string) {
    e.Record? && e.user == user && e.event == event
  }

  lemma UnplayedStep(g: Engine, s: System, e: Event, p: PlayKey)
    requires Enabled(g, s, e) && p !in s.tables.plays && !Records(e, p.user, p.event)
    ensures p !in Apply(g, s, e).tables.plays
  {
  }

  lemma {:induction false} StaysUnplayed(g: Engine, ss: seq<System>, es: seq<Event>, i: nat, j: nat,
                                         p: PlayKey)
    requires IsRun(g, ss, es) && i <= j < |ss| && p !in ss[i].tables.plays
    requires forall k: nat | i <= k < j :: !Records(es[k], p.user, p.event)
    ensures p !in ss[j].tables.plays
  {
    if i < j {
      StaysUnplayed(g, ss, es, i, j - 1, p);
      assert StepAt(g, ss, es, j - 1);
      UnplayedStep(g, ss[j - 1], es[j - 1], p);
    }
  }

  /** A chunk that did not exist when the event was recorded is not among its plays. */
  lemma UnknownIsUnplayed(g: Engine, ss: seq<System>, es: seq<Event>, i: nat, p: PlayKey)
    requires IsRun(g, ss, es) && i < |es| && es[i].Record? && p.chunk !in ss[i].tables.chunks
    ensures p !in ss[i + 1].tables.plays
  {
    assert StepAt(g, ss, es, i);
    RunKeeps(g, ss, es, i + 1);
    assert ss[i + 1].tables.chunks == ss[i].tables.chunks;
  }

  /** ... and, unless the event was recorded otherwise in between, only if it lists no such chunk. */
  lemma ReplayAddsNothingIff(g: Engine, ss: seq<System>, es: seq<Event>, i: nat, j: nat, later: int)
    requires IsRun(g, ss, es) && i < j < |ss| && es[i].Record?
    requires forall k: nat | i < k < j :: !Records(es[k], es[i].user, es[i].event)
    ensures Replayed(ss[j].tables, es[i], later) == ss[j].tables <==> KnewChunks(ss, es, i, j)
  {
    var t, e := ss[j].tables, es[i];
    if KnewChunks(ss, es, i, j) {
      ReplayAddsNothing(g, ss, es, i, j, later);
    } else {
      var c :| c in e.chunkIds && c in t.chunks && c !in ss[i].tables.chunks;
      var p := PlayKey(e.user, e.event, c);
      UnknownIsUnplayed(g, ss, es, i, p);
      StaysUnplayed(g, ss, es, i + 1, j, p);
      ReplayStays(t, e, later);
    }
  }

  /** It can list one: an event that names a chunk id before the id is handed out is accepted and
      records nothing, and recording it again once the chunk exists adds a play. */
  lemma EarlyRecordRun(g: Engine, doc: NewDocument, user: int, event: string, ids: seq<int>, at: int)
    returns (ss: seq<System>, es: seq<Event>)
    requires g.chunksOf(doc.body) != [] && |ids| == |g.chunksOf(doc.body)| && Distinct(ids)
    ensures IsRun(g, ss, es) && |es| == 3 && es[0] == Record(user, event, [ids[0]], at)
    ensures var p := PlayKey(user, event, ids[0]);
      p !in ss[3].tables.plays && p in Replayed(ss[3].tables, es[0], at).plays
  {
    ss, es := [System(Tables(map[], map[], map[], {}), map[])], [];
    var steps := [Record(user, event, [ids[0]], at), Check(1, doc, None, None), Rebuild(1, 1, ids, at)];
    ExtendRun(g, ss, es, steps[0]);
    ss, es := ss + [Apply(g, ss[0], steps[0])], es + [steps[0]];
    assert ss[1].tables == Tables(map[], map[], map[], {});
    ExtendRun(g, ss, es, steps[1]);
    ss, es := ss + [Apply(g, ss[1], steps[1])], es + [steps[1]];
    assert !HasRef(ss[2].tables.documents, doc) && ss[2].clients[1] == ToRebuild(doc, None);
    ExtendRun(g, ss, es, steps[2]);
    RebuildEffect(g, ss[2], steps[2]);
    ss, es := ss + [Apply(g, ss[2], steps[2])], es + [steps[2]];
    var p := PlayKey(user, event, ids[0]);
    assert ids[0] in ids && IsChunkOf(ss[3].tables.chunks, ids[0], 1);
    UnplayedStep(g, ss[2], steps[2], p);
    assert ids[0] in [ids[0]];
  }
}
