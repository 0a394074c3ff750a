/** When the two steps of an upsert (src/passages/store.rs), its hash check and what follows it,
    are the upsert they are written as, and what that keeps over whole runs. */
module UpsertRuns {
  import opened Text
  import opened PassageStore
  import opened StoreInterleavings
  import opened PlayRuns

  predicate IsSecondStep(s: System, e: Event) {
    && (e.Touch? || e.Rebuild?) && e.w in s.clients
    && (e.Touch? <==> s.clients[e.w].ToTouch?)
  }

  /** The id the upsert answers. */
  function Reply(s: System, e: Event): int
    requires IsSecondStep(s, e)
  {
    if e.Touch? then s.clients[e.w].id else e.id
  }

  /** The step is the whole upsert, done at that moment. */
  ghost predicate IsAtomic(g: Engine, s: System, e: Event)
    requires Enabled(g, s, e) && IsSecondStep(s, e)
  {
    IsUpsert(g, s.tables, Apply(g, s, e).tables, s.clients[e.w].doc, s.clients[e.w].addedBy, e.now,
             Reply(s, e))
  }

  // ---- Which steps are atomic ----

  lemma TouchIsAtomicIff(g: Engine, s: System, e: Event)
    requires StoreInv(g, s.tables) && Enabled(g, s, e) && e.Touch?
    ensures IsAtomic(g, s, e) <==>
      StoredAs(g, s.tables.documents, s.clients[e.w].doc, s.clients[e.w].id)
  {
    var t, t', doc, id := s.tables, Apply(g, s, e).tables, s.clients[e.w].doc, s.clients[e.w].id;
    if IsAtomic(g, s, e) && !StoredAs(g, t.documents, doc, id) {
      var ids :| IsRebuild(g, t, t', doc, s.clients[e.w].addedBy, e.now, id, ids);
      TouchIsNoRebuild(g, t, doc, s.clients[e.w].addedBy, e.now, id, ids);
      assert false;
    }
  }

  lemma TouchIsNoRebuild(g: Engine, t: Tables, doc: NewDocument, addedBy: Option<int>, now: int,
                         id: int, ids: seq<int>)
    requires CanRebuild(g, t, doc, id, ids) && !StoredAs(g, t.documents, doc, id)
    ensures !IsRebuild(g, t, Touched(t, id, now), doc, addedBy, now, id, ids)
  {
    var row := UpsertedRow(g, t, id, doc, addedBy, now);
    assert row.contentHash == g.hash(doc.body);
    assert Replaced(g, t, id, row, g.chunksOf(doc.body), ids).documents[id] == row;
  }

  lemma FreshIds(g: Engine, t: Tables, doc: NewDocument, id: int, ids: seq<int>)
    requires CanRebuild(g, t, doc, id, ids) && g.chunksOf(doc.body) != []
    ensures |ids| > 0 && ids[0] in IdSet(ids) && ids[0] !in t.issued
  {
    assert ids[0] in ids;
  }

  lemma RebuildIsAtomicIff(g: Engine, s: System, e: Event)
    requires StoreInv(g, s.tables) && Enabled(g, s, e) && e.Rebuild?
    ensures !StoredAs(g, s.tables.documents, s.clients[e.w].doc, e.id) ==> IsAtomic(g, s, e)
    ensures g.chunksOf(s.clients[e.w].doc.body) != [] ==>
      (IsAtomic(g, s, e) <==> !StoredAs(g, s.tables.documents, s.clients[e.w].doc, e.id))
  {
    var t, t', doc, who := s.tables, Apply(g, s, e).tables, s.clients[e.w].doc, s.clients[e.w].addedBy;
    assert IsRebuild(g, t, t', doc, who, e.now, e.id, e.ids);
    if g.chunksOf(doc.body) != [] {
      RebuildEffect(g, s, e);
      FreshIds(g, t, doc, e.id, e.ids);
      assert e.ids[0] in t'.issued;
    }
  }

  lemma OnlyStoredAs(g: Engine, t: Tables, doc: NewDocument, id: int, ids: seq<int>)
    requires UniqueRefs(t.documents) && CanRebuild(g, t, doc, id, ids)
    ensures (exists other :: StoredAs(g, t.documents, doc, other)) <==> StoredAs(g, t.documents, doc, id)
  {
    forall other | StoredAs(g, t.documents, doc, other)
      ensures other == id
    {
      OnlyThisRef(g, t, doc, id, ids, other);
    }
  }

  /** In any run, a touch is the upsert exactly when the document it found is still stored under
      its id with the hash of the body at hand, and a rebuild of a body that has chunks is the
      upsert exactly when the document is not stored with that hash at that moment. */
  lemma StepIsUpsertIff(g: Engine, ss: seq<System>, es: seq<Event>, i: nat)
    requires IsRun(g, ss, es) && i < |es| && (es[i].Touch? || es[i].Rebuild?)
    ensures Enabled(g, ss[i], es[i]) && IsSecondStep(ss[i], es[i])
    ensures var documents, client := ss[i].tables.documents, ss[i].clients[es[i].w];
      && (es[i].Touch? ==>
          (IsAtomic(g, ss[i], es[i]) <==> StoredAs(g, documents, client.doc, client.id)))
      && (es[i].Rebuild? && g.chunksOf(client.doc.body) != [] ==>
          (IsAtomic(g, ss[i], es[i]) <==> !exists id :: StoredAs(g, documents, client.doc, id)))
  {
    assert StepAt(g, ss, es, i);
    RunKeeps(g, ss, es, i);
    if es[i].Touch? {
      TouchIsAtomicIff(g, ss[i], es[i]);
    } else {
      RebuildIsAtomicIff(g, ss[i], es[i]);
      OnlyStoredAs(g, ss[i].tables, ss[i].clients[es[i].w].doc, es[i].id, es[i].ids);
    }
  }

  // ---- Which runs are safe ----

  predicate SameDocument(a: NewDocument, b: NewDocument) {
    a.source == b.source && a.sourceRef == b.sourceRef
  }

  /** The event rewrites or removes the stored document. */
  predicate Disturbs(s: System, e: Event, doc: NewDocument) {
    || (e.Rebuild? && e.w in s.clients && SameDocument(s.clients[e.w].doc, doc))
    || (e.Delete? && e.id in s.tables.documents && IsRef(s.tables.documents[e.id], doc))
  }

  predicate IsOf(e: Event, w: int) {
    (e.Check? || e.Touch? || e.Rebuild? || e.Abandon?) && e.w == w
  }

  /** Steps i and j are the check and the second step of one upsert, and in between nothing else
      rebuilt or deleted its document. */
  ghost predicate IsUndisturbed(g: Engine, ss: seq<System>, es: seq<Event>, i: nat, j: nat)
    requires IsRun(g, ss, es)
  {
    && i < j < |es| && es[i].Check? && (es[j].Touch? || es[j].Rebuild?) && es[j].w == es[i].w
    && forall k: nat | i < k < j :: LeavesAlone(g, ss, es, i, k)
  }

  ghost predicate LeavesAlone(g: Engine, ss: seq<System>, es: seq<Event>, i: nat, k: nat)
    requires IsRun(g, ss, es) && i < k < |es| && es[i].Check?
  {
    !IsOf(es[k], es[i].w) && !Disturbs(ss[k], es[k], es[i].doc)
  }

  /** The document is stored alike in both: under the same id with the same body, hash and chunks,
      or in neither. */
  ghost predicate SameStored(t: Tables, t': Tables, doc: NewDocument) {
    forall id :: SameAt(t, t', doc, id)
  }

  ghost predicate SameAt(t: Tables, t': Tables, doc: NewDocument, id: int) {
    && (IsAt(t, doc, id) <==> IsAt(t', doc, id))
    && (IsAt(t, doc, id) ==>
        && t'.documents[id].body == t.documents[id].body
        && t'.documents[id].contentHash == t.documents[id].contentHash
        && forall c :: SameChunk(t.chunks, t'.chunks, id, c))
  }

  predicate IsAt(t: Tables, doc: NewDocument, id: int) {
    id in t.documents && IsRef(t.documents[id], doc)
  }

  predicate SameChunk(chunks: Chunks, chunks': Chunks, id: int, c: int) {
    && (IsChunkOf(chunks, c, id) <==> IsChunkOf(chunks', c, id))
    && (IsChunkOf(chunks, c, id) ==> chunks'[c] == chunks[c])
  }

  /** A play on a chunk of the document is still recorded, with its time. */
  predicate SamePlay(t: Tables, t': Tables, id: int, p: PlayKey) {
    p in t.plays && IsChunkOf(t.chunks, p.chunk, id) ==> p in t'.plays && t'.plays[p] == t.plays[p]
  }

  ghost predicate KeepsIndex(t: Tables, t': Tables, id: int) {
    && (forall c :: SameChunk(t.chunks, t'.chunks, id, c))
    && forall p: PlayKey :: SamePlay(t, t', id, p)
  }

  lemma RebuildKeepsOthers(g: Engine, s: System, e: Event, doc: NewDocument)
    requires StoreInv(g, s.tables) && Enabled(g, s, e) && e.Rebuild? && !Disturbs(s, e, doc)
    ensures SameStored(s.tables, Apply(g, s, e).tables, doc)
  {
    var t, t', client := s.tables, Apply(g, s, e).tables, s.clients[e.w];
    ReplacedChunks(g, t, e.id, UpsertedRow(g, t, e.id, client.doc, client.addedBy, e.now),
                   g.chunksOf(client.doc.body), e.ids);
    forall id
      ensures SameAt(t, t', doc, id)
    {
      if id == e.id {
        assert !IsAt(t', doc, id);
        assert !IsAt(t, doc, id);
      } else {
        forall c
          ensures SameChunk(t.chunks, t'.chunks, id, c)
        {
        }
      }
    }
  }

  lemma DeleteKeepsOthers(g: Engine, s: System, e: Event, doc: NewDocument)
    requires Enabled(g, s, e) && e.Delete? && !Disturbs(s, e, doc)
    ensures SameStored(s.tables, Apply(g, s, e).tables, doc)
  {
    var t, t' := s.tables, Apply(g, s, e).tables;
    forall id
      ensures SameAt(t, t', doc, id)
    {
      if IsAt(t, doc, id) {
        forall c
          ensures SameChunk(t.chunks, t'.chunks, id, c)
        {
        }
      }
    }
  }

  lemma StepKeepsStored(g: Engine, s: System, e: Event, doc: NewDocument)
    requires StoreInv(g, s.tables) && Enabled(g, s, e) && !Disturbs(s, e, doc)
    ensures SameStored(s.tables, Apply(g, s, e).tables, doc)
  {
    if e.Rebuild? {
      RebuildKeepsOthers(g, s, e, doc);
    } else if e.Delete? {
      DeleteKeepsOthers(g, s, e, doc);
    } else {
      forall id
        ensures SameAt(s.tables, Apply(g, s, e).tables, doc, id)
      {
        assert forall c :: SameChunk(s.tables.chunks, s.tables.chunks, id, c);
      }
    }
  }

  lemma SameStoredTransitive(a: Tables, b: Tables, c: Tables, doc: NewDocument)
    requires SameStored(a, b, doc) && SameStored(b, c, doc)
    ensures SameStored(a, c, doc)
  {
    forall id
      ensures SameAt(a, c, doc, id)
    {
      assert SameAt(a, b, doc, id) && SameAt(b, c, doc, id);
      if IsAt(a, doc, id) {
        forall k
          ensures SameChunk(a.chunks, c.chunks, id, k)
        {
          assert SameChunk(a.chunks, b.chunks, id, k) && SameChunk(b.chunks, c.chunks, id, k);
        }
      }
    }
  }

  /** The upsert still holds what its check saw. */
  ghost predicate StillHolds(g: Engine, ss: seq<System>, es: seq<Event>, i: nat, k: nat)
    requires |ss| == |es| + 1 && i < k < |ss| && es[i].Check?
  {
    var e := es[i];
    && SameStored(ss[i].tables, ss[k].tables, e.doc)
    && e.w in ss[k].clients
    && ss[k].clients[e.w] == Checked(g, ss[i].tables, e.doc, e.addedBy, e.found)
  }

  lemma {:induction false} HoldsUntil(g: Engine, ss: seq<System>, es: seq<Event>, i: nat, j: nat, k: nat)
    requires IsRun(g, ss, es) && IsUndisturbed(g, ss, es, i, j) && i < k <= j
    ensures StillHolds(g, ss, es, i, k)
  {
    assert StepAt(g, ss, es, k - 1);
    RunKeeps(g, ss, es, k - 1);
    if k == i + 1 {
      StepKeepsStored(g, ss[i], es[i], es[i].doc);
    } else {
      HoldsUntil(g, ss, es, i, j, k - 1);
      assert LeavesAlone(g, ss, es, i, k - 1);
      StepKeepsStored(g, ss[k - 1], es[k - 1], es[i].doc);
      SameStoredTransitive(ss[i].tables, ss[k - 1].tables, ss[k].tables, es[i].doc);
    }
  }

  /** If nothing else rebuilds or deletes the document between the check of an upsert and its
      second step, whatever else happens, then the upsert is atomic. */
  lemma UndisturbedIsAtomic(g: Engine, ss: seq<System>, es: seq<Event>, i: nat, j: nat)
    requires IsRun(g, ss, es) && IsUndisturbed(g, ss, es, i, j)
    ensures Enabled(g, ss[j], es[j]) && IsSecondStep(ss[j], es[j])
    ensures ss[j].clients[es[j].w].doc == es[i].doc && ss[j].clients[es[j].w].addedBy == es[i].addedBy
    ensures IsAtomic(g, ss[j], es[j])
  {
    HoldsUntil(g, ss, es, i, j, j);
    RunKeeps(g, ss, es, i);
    RunKeeps(g, ss, es, j);
    assert StepAt(g, ss, es, i) && StepAt(g, ss, es, j);
    var e, t, t' := es[i], ss[i].tables, ss[j].tables;
    if es[j].Touch? {
      assert SameAt(t, t', e.doc, e.found.value);
      TouchIsAtomicIff(g, ss[j], es[j]);
    } else {
      StaysUnstored(g, ss, es, i, j);
      RebuildIsAtomicIff(g, ss[j], es[j]);
    }
  }

  lemma StaysUnstored(g: Engine, ss: seq<System>, es: seq<Event>, i: nat, j: nat)
    requires IsRun(g, ss, es) && i < j < |es| && es[i].Check? && es[j].Rebuild? && es[j].w == es[i].w
    requires StillHolds(g, ss, es, i, j)
    ensures !StoredAs(g, ss[j].tables.documents, es[i].doc, es[j].id)
  {
    assert StepAt(g, ss, es, i) && StepAt(g, ss, es, j);
    RunKeeps(g, ss, es, i);
    var e, t := es[i], ss[i].tables;
    assert SameAt(t, ss[j].tables, e.doc, es[j].id);
    if StoredAs(g, ss[j].tables.documents, e.doc, es[j].id) {
      assert IsAt(t, e.doc, es[j].id);
      assert SameRef(t.documents, es[j].id, e.found.value);
      assert false;
    }
  }

  /** So an undisturbed upsert of an unchanged body only renews the fetch time: from its check to
      its end the document keeps exactly its chunks, and every play on them that was recorded
      before the check is still there. */
  lemma UndisturbedKeepsChunks(g: Engine, ss: seq<System>, es: seq<Event>, i: nat, j: nat, id: int)
    requires IsRun(g, ss, es) && IsUndisturbed(g, ss, es, i, j)
    requires IsAt(ss[i].tables, es[i].doc, id) && ss[i].tables.documents[id].body == es[i].doc.body
    ensures es[j].Touch? && IsSecondStep(ss[j], es[j]) && Reply(ss[j], es[j]) == id
    ensures ss[j + 1].tables == Touched(ss[j].tables, id, es[j].now)
    ensures KeepsIndex(ss[i].tables, ss[j + 1].tables, id)
  {
    HoldsUntil(g, ss, es, i, j, j);
    assert StepAt(g, ss, es, i) && StepAt(g, ss, es, j);
    FoundUnchanged(g, ss, es, i, id);
    var t, t', after := ss[i].tables, ss[j].tables, ss[j + 1].tables;
    assert SameAt(t, t', es[i].doc, id);
    forall c
      ensures SameChunk(t.chunks, after.chunks, id, c)
    {
      assert SameChunk(t.chunks, t'.chunks, id, c);
    }
    forall p: PlayKey
      ensures SamePlay(t, after, id, p)
    {
      if p in t.plays && IsChunkOf(t.chunks, p.chunk, id) {
        assert SameChunk(t.chunks, t'.chunks, id, p.chunk);
        PlaysPersist(g, ss, es, i, j + 1, p);
      }
    }
  }

  lemma FoundUnchanged(g: Engine, ss: seq<System>, es: seq<Event>, i: nat, id: int)
    requires IsRun(g, ss, es) && i < |es| && es[i].Check?
    requires IsAt(ss[i].tables, es[i].doc, id) && ss[i].tables.documents[id].body == es[i].doc.body
    ensures Checked(g, ss[i].tables, es[i].doc, es[i].addedBy, es[i].found)
      == ToTouch(es[i].doc, es[i].addedBy, id)
  {
    assert StepAt(g, ss, es, i);
    RunKeeps(g, ss, es, i);
    assert DocumentInv(g, ss[i].tables, id);
    assert SameRef(ss[i].tables.documents, id, es[i].found.value);
  }

  // ---- A touch that comes too late ----

  /** A touch can come after its document is gone: the upsert then answers an id that is not
      stored, and the body it was given is stored nowhere. */
  lemma LateTouchRun(g: Engine, doc: NewDocument, ids: seq<int>, now: int)
    returns (ss: seq<System>, es: seq<Event>)
    requires |ids| == |g.chunksOf(doc.body)| && Distinct(ids)
    ensures IsRun(g, ss, es) && |es| == 5 && es[4].Touch?
    ensures IsSecondStep(ss[4], es[4]) && ss[4].clients[es[4].w].doc == doc
    ensures Reply(ss[4], es[4]) == 1 && ss[5].tables.documents == map[]
    ensures Enabled(g, ss[4], es[4]) && !IsAtomic(g, ss[4], es[4])
  {
    ss, es := [System(Tables(map[], map[], map[], {}), map[])], [];
    var steps := [Check(1, doc, None, None), Rebuild(1, 1, ids, now), Check(1, doc, None, Some(1)),
                  Delete(1), Touch(1, now)];
    ExtendRun(g, ss, es, steps[0]);
    ss, es := ss + [Apply(g, ss[0], steps[0])], es + [steps[0]];
    assert ss[1].clients == map[1 := ToRebuild(doc, None)];
    ExtendRun(g, ss, es, steps[1]);
    RebuildEffect(g, ss[1], steps[1]);
    ss, es := ss + [Apply(g, ss[1], steps[1])], es + [steps[1]];
    assert ss[2].tables.documents[1].contentHash == g.hash(doc.body);
    ExtendRun(g, ss, es, steps[2]);
    ss, es := ss + [Apply(g, ss[2], steps[2])], es + [steps[2]];
    ExtendRun(g, ss, es, steps[3]);
    ss, es := ss + [Apply(g, ss[3], steps[3])], es + [steps[3]];
    assert ss[4].tables.documents == map[];
    ExtendRun(g, ss, es, steps[4]);
    ss, es := ss + [Apply(g, ss[4], steps[4])], es + [steps[4]];
    RunKeeps(g, ss, es, 4);
    TouchIsAtomicIff(g, ss[4], steps[4]);
  }
}
