/** From stored chunks and recorded plays to the passages of a lookup: the candidate query of
    src/passages/store.rs, ranked by src/passages/rank.rs for src/passages/api.rs. */
module Retrieval {
  import opened Text
  import opened PassageStore
  import MatchKeys
  import Ranker

  datatype Query = Query(songKeys: seq<string>, artistKeys: seq<string>, albumKey: Option<string>, user: int)

  predicate Matches(row: DocumentRow, q: Query) {
    && row.artistKey in q.artistKeys
    && match row.subject
       case Song => row.songKey.Some? && row.songKey.value in q.songKeys
       case Album => q.albumKey.Some? && row.albumKey == q.albumKey
       case Artist => true
  }

  /** The chunk belongs to a document the query asks for. */
  predicate IsMatch(documents: Documents, chunks: Chunks, q: Query, c: int) {
    && c in chunks && chunks[c].documentId in documents
    && Matches(documents[chunks[c].documentId], q)
  }

  /** The latest time the user had the chunk played. */
  ghost predicate IsLastPlayed(plays: Plays, user: int, c: int, last: Option<int>) {
    && (forall p :: p in plays && p.user == user && p.chunk == c ==>
          last.Some? && plays[p] <= last.value)
    && (last.Some? ==>
          exists p :: p in plays && p.user == user && p.chunk == c && plays[p] == last.value)
  }

  ghost predicate IsCandidate(documents: Documents, chunks: Chunks, plays: Plays, q: Query,
                              d: Ranker.Candidate) {
    && IsMatch(documents, chunks, q, d.chunkId)
    && IsLastPlayed(plays, q.user, d.chunkId, d.lastPlayed)
    && var row := chunks[d.chunkId];
       d.documentId == row.documentId && d.text == row.text && d.tokenCount == row.tokenCount
       && d.embedding == row.embedding && d.subject == documents[row.documentId].subject
  }

  predicate IdsAscend(cs: seq<Ranker.Candidate>) {
    forall i, j | 0 <= i < j < |cs| :: cs[i].chunkId < cs[j].chunkId
  }

  predicate Listed(cs: seq<Ranker.Candidate>, c: int) {
    exists i | 0 <= i < |cs| :: cs[i].chunkId == c
  }

  /** The candidates of a query: the matching chunks by ascending id, the first 3000 of them. */
  ghost predicate AreCandidates(documents: Documents, chunks: Chunks, plays: Plays, q: Query,
                                cs: seq<Ranker.Candidate>) {
    && (forall i | 0 <= i < |cs| :: IsCandidate(documents, chunks, plays, q, cs[i]))
    && IdsAscend(cs) && |cs| <= MAX_CANDIDATES
    && forall c :: IsMatch(documents, chunks, q, c) ==>
         Listed(cs, c) || (|cs| == MAX_CANDIDATES && cs[|cs| - 1].chunkId < c)
  }

  method LastPlayed(plays: Plays, user: int, c: int) returns (last: Option<int>)
    ensures IsLastPlayed(plays, user, c, last)
  {
    last := None;
    var todo := plays.Keys;
    while todo != {}
      invariant todo <= plays.Keys
      invariant forall p :: p in plays && p !in todo && p.user == user && p.chunk == c ==>
        last.Some? && plays[p] <= last.value
      invariant last.Some? ==>
        exists p :: p in plays && p.user == user && p.chunk == c && plays[p] == last.value
      decreases todo
    {
      var p :| p in todo;
      if p.user == user && p.chunk == c && (last.None? || plays[p] > last.value) {
        last := Some(plays[p]);
      }
      todo := todo - {p};
    }
  }

  method Candidates(documents: Documents, chunks: Chunks, plays: Plays, nextChunk: int, q: Query)
    returns (cs: seq<Ranker.Candidate>)
    requires forall c :: c in chunks ==> 1 <= c < nextChunk
    ensures AreCandidates(documents, chunks, plays, q, cs)
  {
    cs := [];
    var c := 1;
    while c < nextChunk && |cs| < MAX_CANDIDATES
      invariant c >= 1 && |cs| <= MAX_CANDIDATES && IdsAscend(cs)
      invariant forall i | 0 <= i < |cs| ::
        cs[i].chunkId < c && IsCandidate(documents, chunks, plays, q, cs[i])
      invariant forall d :: IsMatch(documents, chunks, q, d) && d < c ==> Listed(cs, d)
      invariant |cs| == MAX_CANDIDATES ==> cs[|cs| - 1].chunkId == c - 1
    {
      if IsMatch(documents, chunks, q, c) {
        cs := AppendCandidate(documents, chunks, plays, q, cs, c);
      }
      c := c + 1;
    }
  }

  method AppendCandidate(documents: Documents, chunks: Chunks, plays: Plays, q: Query,
                         cs: seq<Ranker.Candidate>, c: int)
    returns (more: seq<Ranker.Candidate>)
    requires IsMatch(documents, chunks, q, c) && IdsAscend(cs)
    requires forall i | 0 <= i < |cs| ::
      cs[i].chunkId < c && IsCandidate(documents, chunks, plays, q, cs[i])
    ensures |more| == |cs| + 1 && IdsAscend(more) && more[|cs|].chunkId == c
    ensures forall i | 0 <= i < |more| ::
      more[i].chunkId <= c && IsCandidate(documents, chunks, plays, q, more[i])
    ensures forall d :: Listed(more, d) <==> Listed(cs, d) || d == c
  {
    var row := chunks[c];
    var last := LastPlayed(plays, q.user, c);
    var d := Ranker.Candidate(c, row.documentId, row.text, row.tokenCount, row.embedding,
                              documents[row.documentId].subject, last);
    more := cs + [d];
    forall k
      ensures Listed(more, k) <==> Listed(cs, k) || k == c
    {
      if Listed(cs, k) {
        var i :| 0 <= i < |cs| && cs[i].chunkId == k;
        assert more[i].chunkId == k;
      }
      assert more[|cs|].chunkId == c;
    }
  }

  // ---- Plays and selections ----

  /** A chunk the user had played less than thirty days ago, at whatever event, is in none of
      that user's selections. */
  lemma PlayedChunksAreNotSelected(documents: Documents, chunks: Chunks, plays: Plays, q: Query,
                                   cs: seq<Ranker.Candidate>, l: Ranker.Lookup, budget: nat,
                                   result: Ranker.Selection, p: PlayKey)
    requires AreCandidates(documents, chunks, plays, q, cs)
    requires Ranker.IsSelection(l, cs, budget, result) && p in plays && p.user == q.user
    requires l.now - plays[p] < Ranker.EXCLUSION_SECONDS * Ranker.SECOND
    ensures result.Chosen? ==> p.chunk !in result.ids
  {
    if Listed(cs, p.chunk) {
      var i :| 0 <= i < |cs| && cs[i].chunkId == p.chunk;
      assert IsCandidate(documents, chunks, plays, q, cs[i]);
      Ranker.RecentPlaysAreExcluded(l, cs, budget, result, cs[i]);
    } else if result.Chosen? {
      var chosen := Ranker.SelectionLimits(l, cs, budget, result);
      forall k | 0 <= k < |result.ids|
        ensures result.ids[k] != p.chunk
      {
        var m :| 0 <= m < |cs| && cs[m] == chosen[k];
        assert cs[m].chunkId == result.ids[k];
      }
    }
  }

  lemma LastPlayedOfOthers(plays: Plays, more: Plays, user: int, c: int, last: Option<int>)
    requires IsLastPlayed(plays, user, c, last)
    requires forall p :: p in plays ==> p in more && more[p] == plays[p]
    requires forall p :: p in more && p.user == user ==> p in plays
    ensures IsLastPlayed(more, user, c, last)
  {
    if last.Some? {
      var p :| p in plays && p.user == user && p.chunk == c && plays[p] == last.value;
      assert p in more && more[p] == last.value;
    }
  }

  /** Recording a user's plays leaves the candidates of every other user as they were. */
  lemma OtherUsersAreUnaffected(t: Tables, q: Query, cs: seq<Ranker.Candidate>, user: int,
                                event: string, chunkIds: seq<int>, playedAt: int)
    requires AreCandidates(t.documents, t.chunks, t.plays, q, cs) && user != q.user
    ensures var t' := Recorded(t, user, event, chunkIds, playedAt);
      AreCandidates(t'.documents, t'.chunks, t'.plays, q, cs)
  {
    var t' := Recorded(t, user, event, chunkIds, playedAt);
    forall i | 0 <= i < |cs|
      ensures IsCandidate(t'.documents, t'.chunks, t'.plays, q, cs[i])
    {
      assert IsCandidate(t.documents, t.chunks, t.plays, q, cs[i]);
      LastPlayedOfOthers(t.plays, t'.plays, q.user, cs[i].chunkId, cs[i].lastPlayed);
    }
  }

  lemma LastPlayedUnique(plays: Plays, user: int, c: int, a: Option<int>, b: Option<int>)
    requires IsLastPlayed(plays, user, c, a) && IsLastPlayed(plays, user, c, b)
    ensures a == b
  {
    if a.Some? {
      var p :| p in plays && p.user == user && p.chunk == c && plays[p] == a.value;
    }
    if b.Some? {
      var p :| p in plays && p.user == user && p.chunk == c && plays[p] == b.value;
    }
  }

  lemma CandidateUnique(documents: Documents, chunks: Chunks, plays: Plays, q: Query,
                        a: Ranker.Candidate, b: Ranker.Candidate)
    requires IsCandidate(documents, chunks, plays, q, a) && IsCandidate(documents, chunks, plays, q, b)
    requires a.chunkId == b.chunkId
    ensures a == b
  {
    LastPlayedUnique(plays, q.user, a.chunkId, a.lastPlayed, b.lastPlayed);
  }

  predicate AgreeTo(a: seq<Ranker.Candidate>, b: seq<Ranker.Candidate>, k: nat) {
    k <= |a| && k <= |b| && forall i | 0 <= i < k :: a[i] == b[i]
  }

  /** A list that agrees with another up to k skips none that the other has at k. */
  lemma NoneSkipped(documents: Documents, chunks: Chunks, plays: Plays, q: Query,
                    a: seq<Ranker.Candidate>, b: seq<Ranker.Candidate>, k: nat)
    requires AreCandidates(documents, chunks, plays, q, a)
    requires AreCandidates(documents, chunks, plays, q, b)
    requires k < |b| && AgreeTo(a, b, k)
    ensures k < |a| && a[k].chunkId <= b[k].chunkId
  {
    assert IsCandidate(documents, chunks, plays, q, b[k]);
    if Listed(a, b[k].chunkId) {
      var i :| 0 <= i < |a| && a[i].chunkId == b[k].chunkId;
      assert i >= k;
    }
  }

  lemma SameAt(documents: Documents, chunks: Chunks, plays: Plays, q: Query,
               a: seq<Ranker.Candidate>, b: seq<Ranker.Candidate>, k: nat)
    requires AreCandidates(documents, chunks, plays, q, a)
    requires AreCandidates(documents, chunks, plays, q, b)
    requires k < |a| && k < |b| && AgreeTo(a, b, k)
    ensures a[k] == b[k]
  {
    NoneSkipped(documents, chunks, plays, q, a, b, k);
    NoneSkipped(documents, chunks, plays, q, b, a, k);
    CandidateUnique(documents, chunks, plays, q, a[k], b[k]);
  }

  lemma {:induction false} FirstDifference(a: seq<Ranker.Candidate>, b: seq<Ranker.Candidate>, from: nat)
    returns (k: nat)
    requires AgreeTo(a, b, from)
    ensures AgreeTo(a, b, k) && (k == |a| || k == |b| || a[k] != b[k])
    decreases |a| - from
  {
    if from < |a| && from < |b| && a[from] == b[from] {
      k := FirstDifference(a, b, from + 1);
    } else {
      k := from;
    }
  }

  lemma AgreeingIsEqual(a: seq<Ranker.Candidate>, b: seq<Ranker.Candidate>)
    requires |a| == |b| && AgreeTo(a, b, |a|)
    ensures a == b
  {
  }

  /** The query determines its candidates. */
  lemma CandidatesUnique(documents: Documents, chunks: Chunks, plays: Plays, q: Query,
                         a: seq<Ranker.Candidate>, b: seq<Ranker.Candidate>)
    requires AreCandidates(documents, chunks, plays, q, a)
    requires AreCandidates(documents, chunks, plays, q, b)
    ensures a == b
  {
    var k := FirstDifference(a, b, 0);
    if k < |a| && k < |b| {
      SameAt(documents, chunks, plays, q, a, b, k);
    } else if k < |b| {
      NoneSkipped(documents, chunks, plays, q, a, b, k);
    } else if k < |a| {
      NoneSkipped(documents, chunks, plays, q, b, a, k);
    } else {
      AgreeingIsEqual(a, b);
    }
  }

  /** Recording a user's plays changes no other user's candidates and no other user's selection. */
  lemma OtherUsersSelectAlike(t: Tables, q: Query, user: int, event: string, chunkIds: seq<int>,
                              playedAt: int, l: Ranker.Lookup, budget: nat,
                              before: seq<Ranker.Candidate>, after: seq<Ranker.Candidate>,
                              a: Ranker.Selection, b: Ranker.Selection)
    requires user != q.user && AreCandidates(t.documents, t.chunks, t.plays, q, before)
    requires var t' := Recorded(t, user, event, chunkIds, playedAt);
      AreCandidates(t'.documents, t'.chunks, t'.plays, q, after)
    requires Ranker.IsSelection(l, before, budget, a) && Ranker.IsSelection(l, after, budget, b)
    ensures before == after && a == b
  {
    var t' := Recorded(t, user, event, chunkIds, playedAt);
    OtherUsersAreUnaffected(t, q, before, user, event, chunkIds, playedAt);
    CandidatesUnique(t'.documents, t'.chunks, t'.plays, q, before, after);
    Ranker.SelectionUnique(l, before, budget, a, b);
  }

  // ---- What is stored is found ----

  function QueryFor(u: MatchKeys.Casing, song: string, artist: string, album: Option<string>, user: int): Query {
    Query(MatchKeys.SongKeys(u, song), MatchKeys.ArtistKeys(u, artist),
          match album
          case None => None
          case Some(a) => Some(MatchKeys.MatchKey(u, MatchKeys.BaseTitle(u, a))),
          user)
  }

  lemma CreditIsListed(u: MatchKeys.Casing, credit: string, artist: string)
    requires credit == artist || credit in MatchKeys.ArtistParts(u, artist)
    ensures MatchKeys.MatchKey(u, credit) in MatchKeys.ArtistKeys(u, artist)
  {
    if credit == artist {
      MatchKeys.ArtistKeysCoverCredit(u, artist);
    } else {
      var parts := MatchKeys.ArtistParts(u, artist);
      var i :| 0 <= i < |parts| && parts[i] == credit;
      assert MatchKeys.ArtistKeys(u, artist)[i] == MatchKeys.MatchKey(u, credit);
    }
  }

  /** The row of a document matches the lookup of the track it was stored for, given as the
      credit the document carries or any credit that lists it: by song title, by album title or
      by artist alone. */
  lemma StoredDocumentsMatch(g: Engine, u: MatchKeys.Casing, doc: NewDocument, addedBy: Option<int>,
                             now: int, song: string, artist: string, album: Option<string>, user: int)
    requires g.UsesKeys(u)
    requires doc.artist == artist || doc.artist in MatchKeys.ArtistParts(u, artist)
    requires doc.subject == Ranker.Song ==> doc.song == Some(song)
    requires doc.subject == Ranker.Album ==> doc.album.Some? && doc.album == album
    ensures Matches(g.RowFor(doc, addedBy, now), QueryFor(u, song, artist, album, user))
  {
    MatchKeys.StoredKeyIsListed(u, song);
    CreditIsListed(u, doc.artist, artist);
  }

  /** So every chunk of such a document is a candidate of that lookup, unless the query already
      returned 3000 chunks with smaller ids. */
  lemma StoredChunksAreCandidates(g: Engine, u: MatchKeys.Casing, doc: NewDocument,
                                  addedBy: Option<int>, now: int, song: string, artist: string,
                                  album: Option<string>, user: int, t: Tables, c: int,
                                  cs: seq<Ranker.Candidate>)
    requires g.UsesKeys(u)
    requires doc.artist == artist || doc.artist in MatchKeys.ArtistParts(u, artist)
    requires doc.subject == Ranker.Song ==> doc.song == Some(song)
    requires doc.subject == Ranker.Album ==> doc.album.Some? && doc.album == album
    requires c in t.chunks && t.chunks[c].documentId in t.documents
    requires t.documents[t.chunks[c].documentId] == g.RowFor(doc, addedBy, now)
    requires AreCandidates(t.documents, t.chunks, t.plays, QueryFor(u, song, artist, album, user), cs)
    ensures Listed(cs, c) || (|cs| == 3000 && cs[|cs| - 1].chunkId < c)
  {
    StoredDocumentsMatch(g, u, doc, addedBy, now, song, artist, album, user);
    assert IsMatch(t.documents, t.chunks, QueryFor(u, song, artist, album, user), c);
  }
}
