/** Every interleaving of upserts, deletes and play records on the passage store
    (src/passages/store.rs): an upsert reads the stored hash first and rebuilds, or only touches
    the document, in a later transaction. */
module StoreInterleavings {
  import opened Text
  import opened PassageStore
  import Chunker
  import Packing
  import TokenBound

  /** An upsert between its hash check and its second step: what it was asked for, and the
      document it found stored with the same hash, if any. */
  datatype Client =
    | ToTouch(doc: NewDocument, addedBy: Option<int>, id: int)
    | ToRebuild(doc: NewDocument, addedBy: Option<int>)

  datatype System = System(tables: Tables, clients: map<int, Client>)

  datatype Event =
    | Check(w: int, doc: NewDocument, addedBy: Option<int>, found: Option<int>)
    | Touch(w: int, now: int)
    | Rebuild(w: int, id: int, ids: seq<int>, now: int)
    | Abandon(w: int)
    | Delete(id: int)
    | Record(user: int, event: string, chunkIds: seq<int>, playedAt: int)

  ghost predicate Finds(documents: Documents, doc: NewDocument, found: Option<int>) {
    match found
    case None => !HasRef(documents, doc)
    case Some(id) => id in documents && IsRef(documents[id], doc)
  }

  ghost predicate Enabled(g: Engine, s: System, e: Event) {
    match e
    case Check(w, doc, _, found) => w !in s.clients && Finds(s.tables.documents, doc, found)
    case Touch(w, _) => w in s.clients && s.clients[w].ToTouch?
    case Rebuild(w, id, ids, _) =>
      w in s.clients && s.clients[w].ToRebuild? && CanRebuild(g, s.tables, s.clients[w].doc, id, ids)
    case Abandon(w) => w in s.clients
    case _ => true
  }

  function Checked(g: Engine, t: Tables, doc: NewDocument, addedBy: Option<int>, found: Option<int>): Client {
    if found.Some? && found.value in t.documents
       && t.documents[found.value].contentHash == g.hash(doc.body)
    then ToTouch(doc, addedBy, found.value) else ToRebuild(doc, addedBy)
  }

  ghost function Apply(g: Engine, s: System, e: Event): System
    requires Enabled(g, s, e)
  {
    match e
    case Check(w, doc, who, found) =>
      s.(clients := s.clients[w := Checked(g, s.tables, doc, who, found)])
    case Touch(w, now) =>
      System(Touched(s.tables, s.clients[w].id, now), s.clients - {w})
    case Rebuild(w, id, ids, now) =>
      var ToRebuild(doc, who) := s.clients[w];
      System(Replaced(g, s.tables, id, UpsertedRow(g, s.tables, id, doc, who, now),
                      g.chunksOf(doc.body), ids),
             s.clients - {w})
    case Abandon(w) => s.(clients := s.clients - {w})
    case Delete(id) => s.(tables := Deleted(s.tables, id))
    case Record(user, event, chunkIds, playedAt) =>
      s.(tables := Recorded(s.tables, user, event, chunkIds, playedAt))
  }

  ghost predicate StepAt(g: Engine, ss: seq<System>, es: seq<Event>, i: nat)
    requires |ss| == |es| + 1 && i < |es|
  {
    Enabled(g, ss[i], es[i]) && ss[i + 1] == Apply(g, ss[i], es[i])
  }

  ghost predicate IsRun(g: Engine, ss: seq<System>, es: seq<Event>) {
    && |ss| == |es| + 1 && ss[0] == System(Tables(map[], map[], map[], {}), map[])
    && forall i | 0 <= i < |es| :: StepAt(g, ss, es, i)
  }

  // ---- The index agrees with the bodies ----

  lemma RebuildRefs(g: Engine, t: Tables, doc: NewDocument, id: int, ids: seq<int>, row: DocumentRow)
    requires UniqueRefs(t.documents) && CanRebuild(g, t, doc, id, ids) && IsRef(row, doc)
    ensures UniqueRefs(t.documents[id := row])
  {
    var after := t.documents[id := row];
    forall i, j | SameRef(after, i, j)
      ensures i == j
    {
      if i != id && j != id {
        assert SameRef(t.documents, i, j);
      } else if i != id {
        OnlyThisRef(g, t, doc, id, ids, i);
      } else if j != id {
        OnlyThisRef(g, t, doc, id, ids, j);
      }
    }
  }

  lemma OnlyThisRef(g: Engine, t: Tables, doc: NewDocument, id: int, ids: seq<int>, i: int)
    requires UniqueRefs(t.documents) && CanRebuild(g, t, doc, id, ids)
    requires i in t.documents && IsRef(t.documents[i], doc)
    ensures i == id
  {
    assert SameRef(t.documents, i, id);
  }

  lemma StepKeeps(g: Engine, s: System, e: Event)
    requires StoreInv(g, s.tables) && Enabled(g, s, e)
    ensures StoreInv(g, Apply(g, s, e).tables)
  {
    match e
    case Touch(w, now) => TouchedKeeps(g, s.tables, s.clients[w].id, now);
    case Rebuild(w, id, ids, now) =>
      var ToRebuild(doc, who) := s.clients[w];
      var row := UpsertedRow(g, s.tables, id, doc, who, now);
      RebuildRefs(g, s.tables, doc, id, ids, row);
      ReplacedKeeps(g, s.tables, id, row, g.chunksOf(doc.body), ids);
    case Delete(id) => DeletedKeeps(g, s.tables, id);
    case Record(user, event, chunkIds, playedAt) =>
      RecordedKeeps(g, s.tables, user, event, chunkIds, playedAt);
    case _ =>
  }

  lemma {:induction false} RunKeeps(g: Engine, ss: seq<System>, es: seq<Event>, i: nat)
    requires IsRun(g, ss, es) && i < |ss|
    ensures StoreInv(g, ss[i].tables)
  {
    if i > 0 {
      RunKeeps(g, ss, es, i - 1);
      assert StepAt(g, ss, es, i - 1);
      StepKeeps(g, ss[i - 1], es[i - 1]);
    }
  }

  /** In every reachable state the chunks of a document are exactly the chunks of its body, with
      ords 0, 1, ..., and no chunk or play refers to a row that is gone. */
  lemma IndexAgrees(g: Engine, ss: seq<System>, es: seq<Event>, i: nat, id: int)
    requires IsRun(g, ss, es) && g.UsesChunker() && i < |ss| && id in ss[i].tables.documents
    ensures var t := ss[i].tables;
      IsIndexOf(g, t.chunks, id, Packing.ChunksOf(g.count, t.documents[id].body))
    ensures NoDangling(ss[i].tables)
  {
    RunKeeps(g, ss, es, i);
    assert DocumentInv(g, ss[i].tables, id);
  }

  /** ... so no stored chunk is over the token limit. */
  lemma StoredChunksFit(g: Engine, ss: seq<System>, es: seq<Event>, i: nat, c: int)
    requires IsRun(g, ss, es) && g.UsesChunker() && TokenBound.Measured(g.count)
    requires i < |ss| && c in ss[i].tables.chunks
    ensures ss[i].tables.chunks[c].tokenCount <= Chunker.MAX_TOKENS
  {
    RunKeeps(g, ss, es, i);
    var t := ss[i].tables;
    var id := t.chunks[c].documentId;
    IndexAgrees(g, ss, es, i, id);
    assert IsChunkOf(t.chunks, c, id);
    TokenBound.ChunksFit(g.count, t.documents[id].body);
  }

  // ---- Chunk ids ----

  /** Uninterrupted, an upsert of an unchanged body keeps every chunk and play, and one of a
      changed body keeps none of the document's chunk ids and none of the plays on them. */
  lemma UnchangedBodyKeepsChunks(g: Engine, t: Tables, t': Tables, doc: NewDocument,
                                 addedBy: Option<int>, now: int, id: int)
    requires StoreInv(g, t) && id in t.documents && IsUpsert(g, t, t', doc, addedBy, now, id)
    requires g.hash(t.documents[id].body) == g.hash(doc.body) ==> t.documents[id].body == doc.body
    ensures
      if t.documents[id].body == doc.body then t'.chunks == t.chunks && t'.plays == t.plays
      else
        && (forall c :: IsChunkOf(t.chunks, c, id) ==> c !in t'.chunks)
        && (forall p :: p in t'.plays ==> !IsChunkOf(t.chunks, p.chunk, id))
  {
    assert DocumentInv(g, t, id);
    if t.documents[id].body != doc.body {
      var ids :| IsRebuild(g, t, t', doc, addedBy, now, id, ids);
      ReplacedChunks(g, t, id, UpsertedRow(g, t, id, doc, addedBy, now), g.chunksOf(doc.body), ids);
    }
  }

  lemma ExtendRun(g: Engine, ss: seq<System>, es: seq<Event>, e: Event)
    requires IsRun(g, ss, es) && Enabled(g, ss[|es|], e)
    ensures IsRun(g, ss + [Apply(g, ss[|es|], e)], es + [e])
  {
    var ss', es' := ss + [Apply(g, ss[|es|], e)], es + [e];
    forall i | 0 <= i < |es'|
      ensures StepAt(g, ss', es', i)
    {
      assert i < |es| ==> StepAt(g, ss, es, i);
    }
  }

  /** What a rebuild leaves: its document with its body, under the new chunk ids only, and no
      play on a chunk that was the document's before. */
  lemma RebuildEffect(g: Engine, s: System, e: Event)
    requires e.Rebuild? && Enabled(g, s, e)
    requires forall c :: c in s.tables.chunks ==> c in s.tables.issued
    ensures var t, doc := Apply(g, s, e).tables, s.clients[e.w].doc;
      && e.id in t.documents && IsRef(t.documents[e.id], doc) && t.documents[e.id].body == doc.body
      && (forall c :: IsChunkOf(t.chunks, c, e.id) <==> c in e.ids)
      && (forall c :: IsChunkOf(s.tables.chunks, c, e.id) ==> c !in t.chunks)
      && (forall p: PlayKey :: IsChunkOf(s.tables.chunks, p.chunk, e.id) ==> p !in t.plays)
      && t.issued == s.tables.issued + IdSet(e.ids)
  {
    var doc := s.clients[e.w].doc;
    ReplacedChunks(g, s.tables, e.id,
                   UpsertedRow(g, s.tables, e.id, doc, s.clients[e.w].addedBy, e.now),
                   g.chunksOf(doc.body), e.ids);
  }

  /** Two upserts of the same new document have passed the check. */
  lemma TwoChecks(g: Engine, doc: NewDocument) returns (ss: seq<System>, es: seq<Event>)
    ensures IsRun(g, ss, es) && |es| == 2
    ensures ss[2] == System(Tables(map[], map[], map[], {}),
                            map[1 := ToRebuild(doc, None), 2 := ToRebuild(doc, None)])
  {
    ss, es := [System(Tables(map[], map[], map[], {}), map[])], [];
    ExtendRun(g, ss, es, Check(1, doc, None, None));
    ss, es := ss + [Apply(g, ss[0], Check(1, doc, None, None))], es + [Check(1, doc, None, None)];
    ExtendRun(g, ss, es, Check(2, doc, None, None));
    ss, es := ss + [Apply(g, ss[1], Check(2, doc, None, None))], es + [Check(2, doc, None, None)];
  }

  /** ... and the first has rebuilt it, and one of its chunks was played. */
  lemma RebuiltAndPlayed(g: Engine, doc: NewDocument, p: PlayKey, at: int, ids: seq<int>)
    returns (ss: seq<System>, es: seq<Event>)
    requires g.chunksOf(doc.body) != [] && |ids| == |g.chunksOf(doc.body)| && Distinct(ids)
    requires p.chunk == ids[0]
    ensures IsRun(g, ss, es) && |es| == 4
    ensures var s := ss[4];
      && 2 in s.clients && s.clients[2] == ToRebuild(doc, None)
      && 1 in s.tables.documents && IsRef(s.tables.documents[1], doc)
      && s.tables.documents[1].body == doc.body
      && IsChunkOf(s.tables.chunks, p.chunk, 1) && p in s.tables.plays
      && s.tables.issued == IdSet(ids)
  {
    ss, es := TwoChecks(g, doc);
    var e := Rebuild(1, 1, ids, at);
    assert !HasRef(ss[2].tables.documents, doc);
    ExtendRun(g, ss, es, e);
    RebuildEffect(g, ss[2], e);
    ss, es := ss + [Apply(g, ss[2], e)], es + [e];
    var r := Record(p.user, p.event, [p.chunk], at);
    assert p.chunk in ids && IsChunkOf(ss[3].tables.chunks, p.chunk, 1);
    ExtendRun(g, ss, es, r);
    ss, es := ss + [Apply(g, ss[3], r)], es + [r];
  }

  /** Interrupted, it can differ: when two upserts of the same new body both pass the check
      before either rebuilds, the second replaces the chunks of an unchanged body, and a play
      recorded in between is lost. */
  lemma RacingUpsertsLoseAPlay(g: Engine, doc: NewDocument, p: PlayKey, at: int, ids: seq<int>,
                               more: seq<int>)
    returns (ss: seq<System>, es: seq<Event>)
    requires g.chunksOf(doc.body) != [] && |ids| == |more| == |g.chunksOf(doc.body)|
    requires Distinct(ids) && Distinct(more) && (forall c | c in more :: c !in ids)
    requires p.chunk == ids[0]
    ensures IsRun(g, ss, es) && |es| == 5
    ensures var before, after := ss[4].tables, ss[5].tables;
      && 1 in before.documents && 1 in after.documents
      && before.documents[1].body == after.documents[1].body == doc.body
      && p in before.plays && p !in after.plays
      && (forall c :: IsChunkOf(before.chunks, c, 1) ==> c !in after.chunks)
  {
    ss, es := RebuiltAndPlayed(g, doc, p, at, ids);
    RunKeeps(g, ss, es, 4);
    var e := Rebuild(2, 1, more, at);
    assert HasRef(ss[4].tables.documents, doc);
    assert CanRebuild(g, ss[4].tables, doc, 1, more);
    ExtendRun(g, ss, es, e);
    RebuildEffect(g, ss[4], e);
    ss, es := ss + [Apply(g, ss[4], e)], es + [e];
  }
}
