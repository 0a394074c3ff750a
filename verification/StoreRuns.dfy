/** The passage store run in place: upserts, deletes and play records that nothing interrupts
    (src/passages/store.rs). */
module StoreRuns {
  import opened Text
  import opened PassageStore

  // ---- In place ----

  /** The fresh ids first, first + 1, ... */
  function Consecutive(first: int, n: nat): (ids: seq<int>)
    ensures |ids| == n && (forall i | 0 <= i < n :: ids[i] == first + i) && Distinct(ids)
    ensures forall c :: c in ids <==> first <= c < first + n
  {
    if n == 0 then [] else Consecutive(first, n - 1) + [first + n - 1]
  }

  /** The ids a sequence has handed out when `next` is its next one. */
  function Issued(next: int): (s: set<int>)
    ensures forall c :: c in s <==> 1 <= c < next
    decreases next
  {
    if next <= 1 then {} else Issued(next - 1) + {next - 1}
  }

  lemma IssuedMore(next: int, n: nat)
    requires next >= 1
    ensures Issued(next + n) == Issued(next) + IdSet(Consecutive(next, n))
  {
  }

  class PassageDb {
    const engine: Engine
    var documents: Documents
    var chunks: Chunks
    var plays: Plays
    var nextDocument: int
    var nextChunk: int

    constructor (engine: Engine)
      ensures this.engine == engine && Value() == Tables(map[], map[], map[], {}) && Valid()
    {
      this.engine := engine;
      documents, chunks, plays, nextDocument, nextChunk := map[], map[], map[], 1, 1;
    }

    ghost function Value(): Tables
      reads this
    {
      Tables(documents, chunks, plays, Issued(nextChunk))
    }

    ghost predicate Valid()
      reads this
    {
      && nextChunk >= 1 && nextDocument >= 1 && StoreInv(engine, Value())
      && (forall id :: id in documents ==> 1 <= id < nextDocument)
    }

    method FindRef(doc: NewDocument) returns (found: Option<int>)
      requires Valid()
      ensures found.Some? ==> found.value in documents && IsRef(documents[found.value], doc)
      ensures found.Some? ==> forall id :: id in documents && IsRef(documents[id], doc) ==> id == found.value
      ensures found.None? <==> !HasRef(documents, doc)
    {
      for id := 1 to nextDocument
        invariant forall i :: i in documents && i < id ==> !IsRef(documents[i], doc)
      {
        if id in documents && IsRef(documents[id], doc) {
          assert forall i :: i in documents && IsRef(documents[i], doc) ==> SameRef(documents, i, id);
          return Some(id);
        }
      }
      return None;
    }

    /** An upsert that nothing interrupts: an unchanged body only has its fetch time renewed, and
        otherwise the row is written and its chunks rebuilt under ids never used before. */
    method UpsertDocument(doc: NewDocument, addedBy: Option<int>, now: int) returns (id: int)
      requires Valid()
      modifies this
      ensures Valid() && id in documents && IsRef(documents[id], doc)
      ensures IsUpsert(engine, old(Value()), Value(), doc, addedBy, now, id)
      ensures HasRef(old(documents), doc) <==> id in old(documents)
      ensures id in old(documents) ==> IsRef(old(documents)[id], doc)
      ensures
        if id in old(documents) && old(documents)[id].contentHash == engine.hash(doc.body) then
          Value() == Touched(old(Value()), id, now)
        else
          var texts := engine.chunksOf(doc.body);
          Value() == Replaced(engine, old(Value()), id,
                              UpsertedRow(engine, old(Value()), id, doc, addedBy, now), texts,
                              Consecutive(old(nextChunk), |texts|))
    {
      var hash := engine.hash(doc.body);
      var found := FindRef(doc);
      if found.Some? && documents[found.value].contentHash == hash {
        id := found.value;
        TouchedKeeps(engine, Value(), id, now);
        documents := documents[id := documents[id].(fetchedAt := now)];
        return;
      }
      id := if found.Some? then found.value else nextDocument;
      ghost var ids := Consecutive(nextChunk, |engine.chunksOf(doc.body)|);
      assert CanRebuild(engine, Value(), doc, id, ids);
      Rebuild(id, doc, addedBy, now);
      assert IsRebuild(engine, old(Value()), Value(), doc, addedBy, now, id, ids);
    }

    /** The transaction of an upsert. */
    method Rebuild(id: int, doc: NewDocument, addedBy: Option<int>, now: int)
      requires Valid() && 1 <= id <= nextDocument
      requires forall i :: i in documents && IsRef(documents[i], doc) ==> i == id
      modifies this
      ensures Valid() && id in documents && IsRef(documents[id], doc)
      ensures var texts := engine.chunksOf(doc.body);
        Value() == Replaced(engine, old(Value()), id,
                            UpsertedRow(engine, old(Value()), id, doc, addedBy, now), texts,
                            Consecutive(old(nextChunk), |texts|))
    {
      var texts := engine.chunksOf(doc.body);
      var row := engine.RowFor(doc, if id in documents then documents[id].addedBy else addedBy, now);
      ghost var after := Replaced(engine, Value(), id, row, texts, Consecutive(nextChunk, |texts|));
      assert StoreInv(engine, after) by {
        RefsStayUnique(documents, id, row);
        ReplacedKeeps(engine, Value(), id, row, texts, Consecutive(nextChunk, |texts|));
      }
      IssuedMore(nextChunk, |texts|);
      WriteDocument(id, row, texts);
      assert Value() == after;
    }

    /** DELETE FROM dj_chunks, with its cascade to the plays. */
    method DeleteChunks(id: int)
      modifies this`chunks, this`plays
      ensures chunks == WithoutChunksOf(old(chunks), id) && plays == PlaysOn(old(plays), chunks)
    {
      chunks := WithoutChunksOf(chunks, id);
      plays := PlaysOn(plays, chunks);
    }

    /** The statements of the transaction. */
    method WriteDocument(id: int, row: DocumentRow, texts: seq<string>)
      modifies this
      ensures documents == old(documents)[id := row]
      ensures var kept := WithoutChunksOf(old(chunks), id);
        && chunks == kept + NewChunks(engine, id, texts, Consecutive(old(nextChunk), |texts|))
        && plays == PlaysOn(old(plays), kept)
      ensures nextChunk == old(nextChunk) + |texts|
      ensures nextDocument == if id == old(nextDocument) then id + 1 else old(nextDocument)
    {
      documents := documents[id := row];
      if id == nextDocument {
        nextDocument := nextDocument + 1;
      }
      DeleteChunks(id);
      chunks := InsertChunks(engine, chunks, id, texts, nextChunk);
      nextChunk := nextChunk + |texts|;
    }

    method DeleteDocument(id: int) returns (deleted: bool)
      requires Valid()
      modifies this
      ensures Valid() && Value() == Deleted(old(Value()), id)
      ensures deleted <==> id in old(documents)
    {
      DeletedKeeps(engine, Value(), id);
      deleted := id in documents;
      documents := documents - {id};
      chunks := WithoutChunksOf(chunks, id);
      plays := PlaysOn(plays, chunks);
    }

    method RecordPlays(user: int, event: string, chunkIds: seq<int>, playedAt: int)
      requires Valid()
      modifies this
      ensures Valid() && Value() == Recorded(old(Value()), user, event, chunkIds, playedAt)
    {
      RecordedKeeps(engine, Value(), user, event, chunkIds, playedAt);
      plays := AddPlays(plays, chunks, user, event, chunkIds, playedAt);
    }
  }

  /** INSERT ... ON CONFLICT DO NOTHING for one chunk, if it exists. */
  function PlusPlay(plays: Plays, chunks: Chunks, p: PlayKey, playedAt: int): Plays {
    if p !in plays && p.chunk in chunks then plays[p := playedAt] else plays
  }

  lemma PlaysStep(plays: Plays, chunks: Chunks, user: int, event: string, chunkIds: seq<int>,
                  playedAt: int, i: nat)
    requires i < |chunkIds|
    ensures PlaysWith(plays, chunks, user, event, chunkIds[..i + 1], playedAt)
      == PlusPlay(PlaysWith(plays, chunks, user, event, chunkIds[..i], playedAt), chunks,
                  PlayKey(user, event, chunkIds[i]), playedAt)
  {
    assert chunkIds[..i + 1] == chunkIds[..i] + [chunkIds[i]];
  }

  method AddPlays(plays: Plays, chunks: Chunks, user: int, event: string, chunkIds: seq<int>,
                  playedAt: int)
    returns (more: Plays)
    ensures more == PlaysWith(plays, chunks, user, event, chunkIds, playedAt)
  {
    more := plays;
    for i := 0 to |chunkIds|
      invariant more == PlaysWith(plays, chunks, user, event, chunkIds[..i], playedAt)
    {
      PlaysStep(plays, chunks, user, event, chunkIds, playedAt, i);
      more := PlusPlay(more, chunks, PlayKey(user, event, chunkIds[i]), playedAt);
    }
    assert chunkIds[..|chunkIds|] == chunkIds;
  }

  lemma ConsecutivePrefix(first: int, n: nat, k: nat)
    requires k <= n
    ensures Consecutive(first, n)[..k] == Consecutive(first, k)
  {
  }

  lemma UpdateSum<K, V>(a: map<K, V>, b: map<K, V>, k: K, v: V)
    ensures a + b[k := v] == (a + b)[k := v]
  {
  }

  lemma NewChunksStep(g: Engine, id: int, texts: seq<string>, first: int, ord: nat)
    requires ord < |texts|
    ensures NewChunks(g, id, texts[..ord + 1], Consecutive(first, ord + 1))
      == NewChunks(g, id, texts[..ord], Consecutive(first, ord))
           [first + ord := RowOf(g, id, ord, texts[ord])]
  {
    assert texts[..ord + 1][..ord] == texts[..ord];
    ConsecutivePrefix(first, ord + 1, ord);
  }

  /** The chunks kept, and the first `ord` new ones. */
  function Grown(g: Engine, kept: Chunks, id: int, texts: seq<string>, first: int, ord: nat): Chunks
    requires ord <= |texts|
  {
    kept + NewChunks(g, id, texts[..ord], Consecutive(first, ord))
  }

  lemma GrownEnds(g: Engine, kept: Chunks, id: int, texts: seq<string>, first: int)
    ensures Grown(g, kept, id, texts, first, 0) == kept
    ensures Grown(g, kept, id, texts, first, |texts|)
      == kept + NewChunks(g, id, texts, Consecutive(first, |texts|))
  {
    assert texts[..|texts|] == texts;
  }

  lemma GrownStep(g: Engine, kept: Chunks, id: int, texts: seq<string>, first: int, ord: nat)
    requires ord < |texts|
    ensures Grown(g, kept, id, texts, first, ord + 1)
      == Grown(g, kept, id, texts, first, ord)[first + ord := RowOf(g, id, ord, texts[ord])]
  {
    NewChunksStep(g, id, texts, first, ord);
    UpdateSum(kept, NewChunks(g, id, texts[..ord], Consecutive(first, ord)), first + ord,
              RowOf(g, id, ord, texts[ord]));
  }

  method InsertChunks(g: Engine, kept: Chunks, id: int, texts: seq<string>, first: int)
    returns (chunks: Chunks)
    ensures chunks == kept + NewChunks(g, id, texts, Consecutive(first, |texts|))
  {
    chunks := kept;
    GrownEnds(g, kept, id, texts, first);
    for ord := 0 to |texts|
      invariant chunks == Grown(g, kept, id, texts, first, ord)
    {
      GrownStep(g, kept, id, texts, first, ord);
      chunks := chunks[first + ord := RowOf(g, id, ord, texts[ord])];
    }
  }

  lemma RefsStayUnique(documents: Documents, id: int, row: DocumentRow)
    requires UniqueRefs(documents)
    requires forall i :: i in documents && HasSameRef(documents[i], row) ==> i == id
    ensures UniqueRefs(documents[id := row])
  {
    var after := documents[id := row];
    forall i, j | SameRef(after, i, j)
      ensures i == j
    {
      if i != id && j != id {
        assert SameRef(documents, i, j);
      } else if j != id {
        RefSymmetric(after[j], row);
      } else if i != id {
        RefSymmetric(after[i], row);
      }
    }
  }

  lemma RefSymmetric(a: DocumentRow, b: DocumentRow)
    ensures HasSameRef(a, b) <==> HasSameRef(b, a)
  {
  }
}
