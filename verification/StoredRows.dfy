/** What the rows of the passage store hold, column by column (src/passages/store.rs), and what a
    lookup gets of them. */
module StoredRows {
  import opened Text
  import opened PassageStore
  import opened StoreInterleavings
  import opened Retrieval
  import MatchKeys
  import Packing
  import Ranker

  // ---- Chunks ----

  /** The columns of a chunk: the k-th chunk of the body, its tokens and its vector. */
  predicate HoldsChunk(g: Engine, row: ChunkRow, id: int, body: string, k: nat) {
    var texts := Packing.ChunksOf(g.count, body);
    && row.documentId == id && row.ord == k < |texts|
    && row.text == texts[k] && row.tokenCount == g.count(texts[k]) && row.embedding == g.embed(texts[k])
  }

  /** In every reachable state a chunk holds the text of its body at its ord, the number of tokens of
      that text and the vector of that text. */
  lemma ChunkHoldsItsText(g: Engine, ss: seq<System>, es: seq<Event>, i: nat, c: int)
    requires IsRun(g, ss, es) && g.UsesChunker() && i < |ss| && c in ss[i].tables.chunks
    ensures var t, row := ss[i].tables, ss[i].tables.chunks[c];
      row.documentId in t.documents
      && HoldsChunk(g, row, row.documentId, t.documents[row.documentId].body, row.ord)
  {
    RunKeeps(g, ss, es, i);
    var t, id := ss[i].tables, ss[i].tables.chunks[c].documentId;
    IndexAgrees(g, ss, es, i, id);
    assert IsChunkOf(t.chunks, c, id);
  }

  predicate IsTheChunk(g: Engine, t: Tables, id: int, k: nat, c: int)
    requires id in t.documents
  {
    c in t.chunks && HoldsChunk(g, t.chunks[c], id, t.documents[id].body, k)
  }

  /** Every chunk of a stored body has exactly one row. */
  lemma EveryChunkIsStored(g: Engine, ss: seq<System>, es: seq<Event>, i: nat, id: int, k: nat)
    returns (c: int)
    requires IsRun(g, ss, es) && g.UsesChunker() && i < |ss| && id in ss[i].tables.documents
    requires k < |Packing.ChunksOf(g.count, ss[i].tables.documents[id].body)|
    ensures IsTheChunk(g, ss[i].tables, id, k, c)
    ensures forall d :: IsTheChunk(g, ss[i].tables, id, k, d) ==> d == c
  {
    var t := ss[i].tables;
    IndexAgrees(g, ss, es, i, id);
    assert HasChunkAt(t.chunks, id, k);
    c :| IsChunkOf(t.chunks, c, id) && t.chunks[c].ord == k;
    ChunkHoldsItsText(g, ss, es, i, c);
    forall d | IsTheChunk(g, t, id, k, d)
      ensures d == c
    {
      assert IsChunkOf(t.chunks, d, id) && t.chunks[d].ord == t.chunks[c].ord;
    }
  }

  /** The candidate for a chunk carries these, with the subject of its document. */
  lemma CandidateCarriesItsChunk(g: Engine, ss: seq<System>, es: seq<Event>, i: nat, q: Query,
                                 cs: seq<Ranker.Candidate>, k: nat)
    requires IsRun(g, ss, es) && g.UsesChunker() && i < |ss| && k < |cs|
    requires AreCandidates(ss[i].tables.documents, ss[i].tables.chunks, ss[i].tables.plays, q, cs)
    ensures var t, d := ss[i].tables, cs[k];
      && d.documentId in t.documents && d.chunkId in t.chunks
      && var texts, ord := Packing.ChunksOf(g.count, t.documents[d.documentId].body), t.chunks[d.chunkId].ord;
        && ord < |texts| && d.text == texts[ord] && d.tokenCount == g.count(texts[ord])
        && d.embedding == g.embed(texts[ord]) && d.subject == t.documents[d.documentId].subject
  {
    var t := ss[i].tables;
    assert IsCandidate(t.documents, t.chunks, t.plays, q, cs[k]);
    ChunkHoldsItsText(g, ss, es, i, cs[k].chunkId);
  }

  // ---- Documents ----

  /** A rebuild stores what the document says, the keys of its titles and credit, and the hash of its
      body; who added it stays as it was first. No other document changes. */
  lemma RebuildStores(g: Engine, u: MatchKeys.Casing, s: System, e: Event)
    requires e.Rebuild? && Enabled(g, s, e) && g.UsesKeys(u)
    ensures var t, t', client := s.tables, Apply(g, s, e).tables, s.clients[e.w];
      && t'.documents.Keys == t.documents.Keys + {e.id}
      && (forall id | id in t.documents && id != e.id :: t'.documents[id] == t.documents[id])
      && HoldsDocument(g, u, t'.documents[e.id], client.doc) && t'.documents[e.id].fetchedAt == e.now
      && t'.documents[e.id].addedBy
         == if e.id in t.documents then t.documents[e.id].addedBy else client.addedBy
  {
    var t, client := s.tables, s.clients[e.w];
    var who := if e.id in t.documents then t.documents[e.id].addedBy else client.addedBy;
    RowForHolds(g, u, client.doc, who, e.now);
    RebuildWrites(g, s, e);
  }

  lemma RebuildWrites(g: Engine, s: System, e: Event)
    requires e.Rebuild? && Enabled(g, s, e)
    ensures var t, client := s.tables, s.clients[e.w];
      var who := if e.id in t.documents then t.documents[e.id].addedBy else client.addedBy;
      Apply(g, s, e).tables.documents == t.documents[e.id := g.RowFor(client.doc, who, e.now)]
  {
  }

  lemma OptionalKeyIs(g: Engine, u: MatchKeys.Casing, title: Option<string>)
    requires g.UsesKeys(u)
    ensures IsTitleKey(u, g.OptionalKey(title), title)
  {
  }

  lemma RowForHolds(g: Engine, u: MatchKeys.Casing, doc: NewDocument, addedBy: Option<int>, now: int)
    requires g.UsesKeys(u)
    ensures var row := g.RowFor(doc, addedBy, now);
      HoldsDocument(g, u, row, doc) && row.fetchedAt == now && row.addedBy == addedBy
  {
    OptionalKeyIs(g, u, doc.song);
    OptionalKeyIs(g, u, doc.album);
    assert g.artistKey(doc.artist) == MatchKeys.MatchKey(u, doc.artist);
  }

  predicate HoldsDocument(g: Engine, u: MatchKeys.Casing, row: DocumentRow, doc: NewDocument) {
    && row.source == doc.source && row.sourceRef == doc.sourceRef && row.sourceUrl == doc.sourceUrl
    && row.subject == doc.subject && row.title == doc.title && row.lang == doc.lang
    && row.body == doc.body && row.contentHash == g.hash(doc.body)
    && row.artistKey == MatchKeys.MatchKey(u, doc.artist)
    && IsTitleKey(u, row.songKey, doc.song) && IsTitleKey(u, row.albumKey, doc.album)
  }

  predicate IsTitleKey(u: MatchKeys.Casing, key: Option<string>, title: Option<string>) {
    && (key.Some? <==> title.Some?)
    && (title.Some? ==> key.value == MatchKeys.MatchKey(u, MatchKeys.BaseTitle(u, title.value)))
  }

  /** A touch changes the fetch time of its document and nothing else. */
  lemma TouchRenews(g: Engine, s: System, e: Event)
    requires e.Touch? && Enabled(g, s, e)
    ensures var t, t', id := s.tables, Apply(g, s, e).tables, s.clients[e.w].id;
      && t'.documents.Keys == t.documents.Keys
      && t'.chunks == t.chunks && t'.plays == t.plays && t'.issued == t.issued
      && (forall other | other in t.documents && other != id :: t'.documents[other] == t.documents[other])
      && (id in t.documents ==>
          t'.documents[id].fetchedAt == e.now
          && SameButFetched(t.documents[id], t'.documents[id]))
  {
  }

  predicate SameButFetched(a: DocumentRow, b: DocumentRow) {
    && a.source == b.source && a.sourceRef == b.sourceRef && a.sourceUrl == b.sourceUrl
    && a.subject == b.subject && a.songKey == b.songKey && a.albumKey == b.albumKey
    && a.artistKey == b.artistKey && a.title == b.title && a.lang == b.lang && a.body == b.body
    && a.contentHash == b.contentHash && a.addedBy == b.addedBy
  }

  /** A delete takes its document, and with it exactly the document's chunks and their plays. */
  lemma DeleteTakes(g: Engine, s: System, e: Event)
    requires e.Delete? && StoreInv(g, s.tables)
    ensures var t, t' := s.tables, Apply(g, s, e).tables;
      && t'.documents == t.documents - {e.id}
      && (forall c :: c in t'.chunks <==> c in t.chunks && t.chunks[c].documentId != e.id)
      && (forall c | c in t'.chunks :: t'.chunks[c] == t.chunks[c])
      && (forall p: PlayKey :: p in t'.plays <==>
          p in t.plays && t.chunks[p.chunk].documentId != e.id)
      && (forall p: PlayKey | p in t'.plays :: t'.plays[p] == t.plays[p])
  {
  }

  /** A lookup gets passages only of documents of an artist it credits: about the song it names or
      its base title, about the album it names, or about the artist. */
  lemma CandidatesAreAskedFor(u: MatchKeys.Casing, documents: Documents, chunks: Chunks, plays: Plays,
                              song: string, artist: string, album: Option<string>, user: int,
                              cs: seq<Ranker.Candidate>, k: nat)
    requires k < |cs|
    requires AreCandidates(documents, chunks, plays, QueryFor(u, song, artist, album, user), cs)
    ensures cs[k].documentId in documents
    ensures var row := documents[cs[k].documentId];
      && (exists p | p in MatchKeys.ArtistParts(u, artist) :: row.artistKey == MatchKeys.MatchKey(u, p))
      && (row.subject == Ranker.Song ==>
          row.songKey == Some(MatchKeys.MatchKey(u, song))
          || row.songKey == Some(MatchKeys.MatchKey(u, MatchKeys.BaseTitle(u, song))))
      && (row.subject == Ranker.Album ==>
          album.Some?
          && row.albumKey == Some(MatchKeys.MatchKey(u, MatchKeys.BaseTitle(u, album.value))))
  {
    var q := QueryFor(u, song, artist, album, user);
    assert IsCandidate(documents, chunks, plays, q, cs[k]);
    KeyOfAPart(u, artist, documents[cs[k].documentId].artistKey);
  }

  lemma KeyOfAPart(u: MatchKeys.Casing, artist: string, key: string)
    requires key in MatchKeys.ArtistKeys(u, artist)
    ensures exists p | p in MatchKeys.ArtistParts(u, artist) :: key == MatchKeys.MatchKey(u, p)
  {
    var parts, keys := MatchKeys.ArtistParts(u, artist), MatchKeys.ArtistKeys(u, artist);
    var i :| 0 <= i < |keys| && keys[i] == key;
    assert parts[i] in parts;
  }

  // ---- Plays ----

  /** Recording an event gives every listed chunk that exists and is not yet among the event's plays
      exactly the time of the event, keeps every other play and adds no other. */
  lemma RecordStoresTime(t: Tables, user: int, event: string, chunkIds: seq<int>, at: int, p: PlayKey)
    ensures var plays := Recorded(t, user, event, chunkIds, at).plays;
      if p in t.plays then p in plays && plays[p] == t.plays[p]
      else if p.user == user && p.event == event && p.chunk in chunkIds && p.chunk in t.chunks then
        p in plays && plays[p] == at
      else p !in plays
  {
  }

  /** ... and so keeps the chunk out of the user's selections for thirty days from then. */
  lemma RecordedIsExcluded(t: Tables, q: Query, event: string, chunkIds: seq<int>, at: int, c: int,
                           cs: seq<Ranker.Candidate>, l: Ranker.Lookup, budget: nat,
                           result: Ranker.Selection)
    requires c in chunkIds && c in t.chunks && PlayKey(q.user, event, c) !in t.plays
    requires var t' := Recorded(t, q.user, event, chunkIds, at);
      AreCandidates(t'.documents, t'.chunks, t'.plays, q, cs)
    requires Ranker.IsSelection(l, cs, budget, result)
    requires l.now - at < 30 * 24 * 60 * 60 * 1_000_000
    ensures result.Chosen? ==> c !in result.ids
  {
    var t', p := Recorded(t, q.user, event, chunkIds, at), PlayKey(q.user, event, c);
    RecordStoresTime(t, q.user, event, chunkIds, at, p);
    PlayedChunksAreNotSelected(t'.documents, t'.chunks, t'.plays, q, cs, l, budget, result, p);
  }
}
