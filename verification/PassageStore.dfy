/** Documents, the chunk index derived from them, and the plays recorded against it
    (src/passages/store.rs, tables in schema.rs). */
module PassageStore {
  import opened Text
  import MatchKeys
  import Chunker
  import Packing
  import Ranker

  const MAX_CANDIDATES: nat := 3000

  datatype NewDocument = NewDocument(
    source: string, sourceRef: string, sourceUrl: string, subject: Ranker.Subject,
    song: Option<string>, album: Option<string>, artist: string, title: string, lang: string,
    body: string)

  datatype DocumentRow = DocumentRow(
    source: string, sourceRef: string, sourceUrl: string, subject: Ranker.Subject,
    songKey: Option<string>, albumKey: Option<string>, artistKey: string, title: string,
    lang: string, body: string, contentHash: string, fetchedAt: int, addedBy: Option<int>)

  datatype ChunkRow = ChunkRow(
    documentId: int, ord: nat, text: string, tokenCount: nat, embedding: Ranker.Embedding)

  datatype PlayKey = PlayKey(user: int, event: string, chunk: int)

  type Documents = map<int, DocumentRow>
  type Chunks = map<int, ChunkRow>
  type Plays = map<PlayKey, int>

  /** The tables, and every chunk id the sequence has handed out. */
  datatype Tables = Tables(documents: Documents, chunks: Chunks, plays: Plays, issued: set<int>)

  /** What the store computes from a text. */
  datatype Engine = Engine(
    chunksOf: string -> seq<string>, count: Chunker.Counter, embed: string -> Ranker.Embedding,
    hash: string -> string, titleKey: string -> string, artistKey: string -> string)
  {
    /** The chunks are those of the chunker, with the engine's own token counter. */
    ghost predicate UsesChunker() {
      forall body: string :: chunksOf(body) == Packing.ChunksOf(count, body)
    }

    /** The keys are those lookups are made with. */
    ghost predicate UsesKeys(u: MatchKeys.Casing) {
      && (forall t: string :: titleKey(t) == MatchKeys.MatchKey(u, MatchKeys.BaseTitle(u, t)))
      && (forall a: string :: artistKey(a) == MatchKeys.MatchKey(u, a))
    }

    function OptionalKey(title: Option<string>): Option<string> {
      match title case None => None case Some(t) => Some(titleKey(t))
    }

    function RowFor(doc: NewDocument, addedBy: Option<int>, now: int): DocumentRow {
      DocumentRow(doc.source, doc.sourceRef, doc.sourceUrl, doc.subject, OptionalKey(doc.song),
                  OptionalKey(doc.album), artistKey(doc.artist), doc.title, doc.lang, doc.body,
                  hash(doc.body), now, addedBy)
    }
  }

  // ---- The statements, as functions on the tables ----

  predicate IsRef(row: DocumentRow, doc: NewDocument) {
    row.source == doc.source && row.sourceRef == doc.sourceRef
  }

  ghost predicate HasRef(documents: Documents, doc: NewDocument) {
    exists id :: id in documents && IsRef(documents[id], doc)
  }

  function RowOf(g: Engine, documentId: int, ord: nat, text: string): ChunkRow {
    ChunkRow(documentId, ord, text, g.count(text), g.embed(text))
  }

  predicate Distinct(ids: seq<int>) {
    forall i, j | 0 <= i < j < |ids| :: ids[i] != ids[j]
  }

  /** The chunk rows of a document, under the ids handed out for them. */
  function NewChunks(g: Engine, documentId: int, texts: seq<string>, ids: seq<int>): Chunks
    requires |ids| == |texts|
  {
    if ids == [] then map[]
    else
      var n := |ids| - 1;
      NewChunks(g, documentId, texts[..n], ids[..n])[ids[n] := RowOf(g, documentId, n, texts[n])]
  }

  ghost predicate AreNewChunks(g: Engine, documentId: int, texts: seq<string>, ids: seq<int>, r: Chunks)
    requires |ids| == |texts|
  {
    && (forall c :: c in r <==> c in ids)
    && forall k | 0 <= k < |ids| :: ids[k] in r && r[ids[k]] == RowOf(g, documentId, k, texts[k])
  }

  lemma OneMoreChunk(g: Engine, documentId: int, texts: seq<string>, ids: seq<int>, n: nat, r: Chunks)
    requires |ids| == |texts| == n + 1 && Distinct(ids)
    requires AreNewChunks(g, documentId, texts[..n], ids[..n], r)
    ensures AreNewChunks(g, documentId, texts, ids, r[ids[n] := RowOf(g, documentId, n, texts[n])])
  {
    var more := r[ids[n] := RowOf(g, documentId, n, texts[n])];
    Unsnoc(ids, ids[..n], ids[n]);
    forall k | 0 <= k < |ids|
      ensures ids[k] in more && more[ids[k]] == RowOf(g, documentId, k, texts[k])
    {
      if k < n {
        assert ids[..n][k] == ids[k] && texts[..n][k] == texts[k];
      }
    }
  }

  lemma {:induction false} NewChunksAre(g: Engine, documentId: int, texts: seq<string>, ids: seq<int>)
    requires |ids| == |texts| && Distinct(ids)
    ensures AreNewChunks(g, documentId, texts, ids, NewChunks(g, documentId, texts, ids))
  {
    if ids != [] {
      var n := |ids| - 1;
      NewChunksAre(g, documentId, texts[..n], ids[..n]);
      OneMoreChunk(g, documentId, texts, ids, n, NewChunks(g, documentId, texts[..n], ids[..n]));
    }
  }

  /** Deleting a document's chunks, or with them all their plays. */
  function WithoutChunksOf(chunks: Chunks, documentId: int): Chunks {
    map c | c in chunks && chunks[c].documentId != documentId :: chunks[c]
  }

  function PlaysOn(plays: Plays, chunks: Chunks): Plays {
    map p | p in plays && p.chunk in chunks :: plays[p]
  }

  /** Writing a document row and replacing its chunks; plays of the old chunks go with them. */
  function Replaced(g: Engine, t: Tables, id: int, row: DocumentRow, texts: seq<string>,
                    ids: seq<int>): Tables
    requires |ids| == |texts|
  {
    var kept := WithoutChunksOf(t.chunks, id);
    Tables(t.documents[id := row], kept + NewChunks(g, id, texts, ids), PlaysOn(t.plays, kept),
           t.issued + IdSet(ids))
  }

  function IdSet(ids: seq<int>): (s: set<int>)
    ensures forall c :: c in s <==> c in ids
  {
    set c | c in ids
  }

  /** The row an upsert writes: a stored document keeps who added it. */
  function UpsertedRow(g: Engine, t: Tables, id: int, doc: NewDocument, addedBy: Option<int>,
                       now: int): DocumentRow {
    g.RowFor(doc, if id in t.documents then t.documents[id].addedBy else addedBy, now)
  }

  /** The document is stored as `id`, with the hash of the body at hand. */
  predicate StoredAs(g: Engine, documents: Documents, doc: NewDocument, id: int) {
    && id in documents && IsRef(documents[id], doc)
    && documents[id].contentHash == g.hash(doc.body)
  }

  /** The id and the chunk ids a rebuild writes: the stored document's id or an unused one, and
      chunk ids the sequence has not handed out before. */
  ghost predicate CanRebuild(g: Engine, t: Tables, doc: NewDocument, id: int, ids: seq<int>) {
    && (if HasRef(t.documents, doc) then id in t.documents && IsRef(t.documents[id], doc)
        else id !in t.documents)
    && |ids| == |g.chunksOf(doc.body)| && Distinct(ids) && (forall c | c in ids :: c !in t.issued)
  }

  ghost predicate IsRebuild(g: Engine, t: Tables, t': Tables, doc: NewDocument,
                            addedBy: Option<int>, now: int, id: int, ids: seq<int>) {
    && CanRebuild(g, t, doc, id, ids)
    && t' == Replaced(g, t, id, UpsertedRow(g, t, id, doc, addedBy, now), g.chunksOf(doc.body), ids)
  }

  /** What an upsert that nothing interrupts does to the tables, answering `id`: an unchanged body
      only has its fetch time renewed, and otherwise the row is written and its chunks rebuilt. */
  ghost predicate IsUpsert(g: Engine, t: Tables, t': Tables, doc: NewDocument,
                           addedBy: Option<int>, now: int, id: int) {
    if StoredAs(g, t.documents, doc, id) then t' == Touched(t, id, now)
    else exists ids :: IsRebuild(g, t, t', doc, addedBy, now, id, ids)
  }

  function Touched(t: Tables, id: int, now: int): Tables {
    if id in t.documents then t.(documents := t.documents[id := t.documents[id].(fetchedAt := now)])
    else t
  }

  function Deleted(t: Tables, id: int): Tables {
    var kept := WithoutChunksOf(t.chunks, id);
    Tables(t.documents - {id}, kept, PlaysOn(t.plays, kept), t.issued)
  }

  /** The plays with one more for every listed chunk that exists, unless it is there already. */
  function PlaysWith(plays: Plays, chunks: Chunks, user: int, event: string, chunkIds: seq<int>,
                     playedAt: int): Plays {
    map p | p in plays.Keys + (set c | c in chunkIds && c in chunks :: PlayKey(user, event, c)) ::
      if p in plays then plays[p] else playedAt
  }

  function Recorded(t: Tables, user: int, event: string, chunkIds: seq<int>, playedAt: int): Tables {
    t.(plays := PlaysWith(t.plays, t.chunks, user, event, chunkIds, playedAt))
  }

  // ---- What the tables keep ----

  ghost predicate UniqueRefs(documents: Documents) {
    forall i, j :: SameRef(documents, i, j) ==> i == j
  }

  ghost predicate SameRef(documents: Documents, i: int, j: int) {
    i in documents && j in documents && HasSameRef(documents[i], documents[j])
  }

  predicate HasSameRef(a: DocumentRow, b: DocumentRow) {
    a.source == b.source && a.sourceRef == b.sourceRef
  }

  predicate IsChunkOf(chunks: Chunks, c: int, id: int) {
    c in chunks && chunks[c].documentId == id
  }

  /** The chunks of document id are exactly `texts`: every chunk is the text at its ord, and
      every ord has exactly one chunk. */
  ghost predicate IsIndexOf(g: Engine, chunks: Chunks, id: int, texts: seq<string>) {
    && (forall c :: IsChunkOf(chunks, c, id) ==>
          chunks[c].ord < |texts| && chunks[c] == RowOf(g, id, chunks[c].ord, texts[chunks[c].ord]))
    && (forall k | 0 <= k < |texts| :: HasChunkAt(chunks, id, k))
    && (forall c, d :: IsChunkOf(chunks, c, id) && IsChunkOf(chunks, d, id) ==>
          chunks[c].ord == chunks[d].ord ==> c == d)
  }

  ghost predicate HasChunkAt(chunks: Chunks, id: int, k: int) {
    exists c :: IsChunkOf(chunks, c, id) && chunks[c].ord == k
  }

  ghost predicate DocumentInv(g: Engine, t: Tables, id: int)
    requires id in t.documents
  {
    && t.documents[id].contentHash == g.hash(t.documents[id].body)
    && IsIndexOf(g, t.chunks, id, g.chunksOf(t.documents[id].body))
  }

  ghost predicate NoDangling(t: Tables) {
    && (forall c :: c in t.chunks ==> t.chunks[c].documentId in t.documents && c in t.issued)
    && (forall p :: p in t.plays ==> p.chunk in t.chunks)
  }

  ghost predicate StoreInv(g: Engine, t: Tables) {
    && UniqueRefs(t.documents) && NoDangling(t)
    && forall id :: id in t.documents ==> DocumentInv(g, t, id)
  }

  lemma ReplacedChunks(g: Engine, t: Tables, id: int, row: DocumentRow, texts: seq<string>,
                       ids: seq<int>)
    requires |ids| == |texts| && Distinct(ids) && forall c | c in ids :: c !in t.chunks
    ensures var chunks := Replaced(g, t, id, row, texts, ids).chunks;
      && (forall c :: IsChunkOf(chunks, c, id) <==> c in ids)
      && (forall k | 0 <= k < |ids| :: ids[k] in chunks && chunks[ids[k]] == RowOf(g, id, k, texts[k]))
      && (forall c :: c in chunks && c !in ids <==> c in t.chunks && t.chunks[c].documentId != id)
      && (forall c :: c in chunks && c !in ids ==> chunks[c] == t.chunks[c])
  {
    var added := NewChunks(g, id, texts, ids);
    NewChunksAre(g, id, texts, ids);
    forall c | c in ids
      ensures IsChunkOf(added, c, id)
    {
      var k :| 0 <= k < |ids| && ids[k] == c;
      assert added[ids[k]] == RowOf(g, id, k, texts[k]);
    }
  }

  lemma ReplacedIndex(g: Engine, t: Tables, id: int, row: DocumentRow, texts: seq<string>,
                      ids: seq<int>)
    requires |ids| == |texts| && Distinct(ids) && forall c | c in ids :: c !in t.chunks
    ensures IsIndexOf(g, Replaced(g, t, id, row, texts, ids).chunks, id, texts)
  {
    ReplacedChunks(g, t, id, row, texts, ids);
    var chunks := Replaced(g, t, id, row, texts, ids).chunks;
    forall k | 0 <= k < |texts|
      ensures HasChunkAt(chunks, id, k)
    {
      assert IsChunkOf(chunks, ids[k], id);
    }
  }

  /** An index only depends on the document's own chunks. */
  lemma IndexCarries(g: Engine, a: Chunks, b: Chunks, id: int, texts: seq<string>)
    requires IsIndexOf(g, a, id, texts)
    requires forall c :: IsChunkOf(a, c, id) <==> IsChunkOf(b, c, id)
    requires forall c :: IsChunkOf(a, c, id) ==> c in b && a[c] == b[c]
    ensures IsIndexOf(g, b, id, texts)
  {
    forall k | 0 <= k < |texts|
      ensures HasChunkAt(b, id, k)
    {
      assert HasChunkAt(a, id, k);
    }
  }

  lemma ReplacedKeeps(g: Engine, t: Tables, id: int, row: DocumentRow, texts: seq<string>,
                      ids: seq<int>)
    requires StoreInv(g, t) && |ids| == |texts| && Distinct(ids)
    requires forall c | c in ids :: c !in t.issued
    requires row.contentHash == g.hash(row.body) && texts == g.chunksOf(row.body)
    requires UniqueRefs(t.documents[id := row])
    ensures StoreInv(g, Replaced(g, t, id, row, texts, ids))
  {
    var t' := Replaced(g, t, id, row, texts, ids);
    ReplacedChunks(g, t, id, row, texts, ids);
    ReplacedIndex(g, t, id, row, texts, ids);
    forall other | other in t'.documents
      ensures DocumentInv(g, t', other)
    {
      if other != id {
        assert DocumentInv(g, t, other);
        IndexCarries(g, t.chunks, t'.chunks, other, g.chunksOf(t.documents[other].body));
      }
    }
  }

  lemma DeletedKeeps(g: Engine, t: Tables, id: int)
    requires StoreInv(g, t)
    ensures StoreInv(g, Deleted(t, id))
  {
    var t' := Deleted(t, id);
    forall i, j
      ensures SameRef(t'.documents, i, j) ==> i == j
    {
      assert SameRef(t'.documents, i, j) ==> SameRef(t.documents, i, j);
    }
    forall other | other in t'.documents
      ensures DocumentInv(g, t', other)
    {
      assert DocumentInv(g, t, other);
      IndexCarries(g, t.chunks, t'.chunks, other, g.chunksOf(t.documents[other].body));
    }
  }

  lemma TouchedKeeps(g: Engine, t: Tables, id: int, now: int)
    requires StoreInv(g, t)
    ensures StoreInv(g, Touched(t, id, now))
  {
    var t' := Touched(t, id, now);
    forall i, j
      ensures SameRef(t'.documents, i, j) ==> i == j
    {
      assert SameRef(t'.documents, i, j) ==> SameRef(t.documents, i, j);
    }
    forall other | other in t'.documents
      ensures DocumentInv(g, t', other)
    {
      assert DocumentInv(g, t, other);
    }
  }

  lemma RecordedKeeps(g: Engine, t: Tables, user: int, event: string, chunkIds: seq<int>,
                      playedAt: int)
    requires StoreInv(g, t)
    ensures StoreInv(g, Recorded(t, user, event, chunkIds, playedAt))
  {
    var t' := Recorded(t, user, event, chunkIds, playedAt);
    forall id | id in t'.documents
      ensures DocumentInv(g, t', id)
    {
      assert DocumentInv(g, t, id);
    }
  }
}
