# A model of the sync server and its passage store

This project models the parts of the server that carry invariants and proves what they keep. Check
it with `dafny verify dfyconfig.toml` (Dafny 4.11).

| Files | What they model |
|---|---|
| `Text.dfy`, `Utf8.dfy` | strings as Unicode scalar values: trimming, splitting, words, searching; UTF-8 (section 3 of RFC 3629) |
| `Chunker.dfy`, `Splitting.dfy`, `PieceShape.dfy`, `Packing.dfy`, `TokenBound.dfy` | the chunker, for an arbitrary token counter |
| `JobTable.dfy`, `Worker.dfy`, `IngestQueue.dfy`, `IngestRuns.dfy`, `JobRules.dfy`, `SourceCycles.dfy`, `LateFinishes.dfy`, `Quota.dfy`, `QuotaReached.dfy`, `QuotaSongs.dfy` | the ingest job queue: its statements run in place, the worker, every interleaving of both with crashes and time, and the daily quota of lookups |
| `UserChannels.dfy` | the per-user channel map with its two separately locked halves of a send |
| `SyncDocument.dfy` | the versioned document: the atomic write, and writers whose read and update interleave |
| `Ranker.dfy`, `RankOrder.dfy` | scoring, sorting and the greedy choice |
| `PassageStore.dfy`, `StoreRuns.dfy`, `StoreInterleavings.dfy`, `PlayRuns.dfy`, `UpsertRuns.dfy`, `Retrieval.dfy`, `StoredRows.dfy` | documents, the chunk index derived from them, plays, every interleaving of upserts, deletes and plays, and the candidate query |
| `MatchKeys.dfy`, `KeyRules.dfy`, `Credits.dfy`, `Genius.dfy`, `Clean.dfy`, `HeadingLines.dfy`, `WikiUrl.dfy` | the text normal forms and filters |

Code that changes state is a method on a class (`Jobs`, `UserMap`, `SyncStore`, `PassageDb`) or a
method with the source's loop. Each method is proved equal to a function on values, and the main
lemmas are about that function or about runs of a system whose steps are those functions. A run is
a sequence of states and events of any length. A class method runs a whole operation that nothing
interrupts; the runs interleave its statements one by one.

Times are microseconds on one nondecreasing clock. The token counter, the similarity's vectors, the
curve by which a played passage recovers, the hash, the embedding, what a source returns and
Unicode's case tables are parameters, so every result holds for all of them.

## Where the code differs from what is said about it

The model follows the code in each case. Each item has a lemma with a failing run and one that says
exactly when the promise is kept.

- `README.md:114` of the repository promises a 409 whenever `expected_version` does not match the
  current version. The version is read without a row lock, so two overlapping writers that both
  name version 0 are both accepted and one update is lost (`OverlapLosesAnUpdate`). An update is the
  atomic one exactly when the version is still the one its writer read (`CommitIsAtomicIff`), and
  without overlap the promise holds (`RefinesAtomic`).
- `src/passages/jobs.rs:1-2` says each row is processed once. A worker that outlives its 30-minute
  lease still finishes the row by its id, under the hands of the worker that took it over
  (`LateFinishRun`), and when a source was in error this puts the job back, so that a third worker
  processes it beside the second (`LateFinishDoublesRun`). The leases hold in every state of a run
  exactly when every finish is within its lease or finds nobody else live on its job
  (`LeasesHoldIff`); in particular, if every worker finishes within its lease or not at all, a job
  has one live holder (`OneLiveHolder`).
- `MAX_ATTEMPTS` does not bound `attempts`, because takeovers count too: with all leases respected
  they reach any number (`AttemptsRun`), while the claims from the queue, which are the attempts
  less the takeovers, stay within it (`CycleIsBounded`).
- `src/passages/sources/genius.rs:156-159` says that text quoting a fragment is dropped. A fragment
  that can be read across the blank line between two kept texts is still stored
  (`JointShapedLeaks`). No other fragment ever is (`BodyHasNoLyrics`), so the condition is exact.
- `AUTO_DAILY_LIMIT` is 200 jobs a day, but the count and the insert are separate statements: k
  overlapping lookups of one user reach 199 + k and no more (`DailyQuota`,
  `OverlappingLookupsExceed`, `OverlappingSongLookups`).
- The hash check of an upsert is outside its transaction. Two overlapping upserts of one new body
  both rebuild it, and a play recorded in between is lost (`RacingUpsertsLoseAPlay`); a touch can
  come after its document was deleted (`LateTouchRun`). `StepIsUpsertIff` says exactly when a step
  is the upsert it stands for, and an upsert is atomic whenever nothing else rebuilds or deletes its
  document between its check and its second step (`UndisturbedIsAtomic`); an unchanged body then
  keeps its chunks and plays (`UndisturbedKeepsChunks`). The index agrees with the bodies in every
  interleaving (`IndexAgrees`).
- `src/passages/store.rs:172-175` records an event once, by its conflict clause. An event may name a
  chunk id that is not handed out yet; it then records nothing for it, and recording the event again
  once the chunk exists adds a play (`EarlyRecordRun`). A replay adds nothing exactly when every
  listed chunk that exists now existed when the event was recorded (`ReplayAddsNothing`,
  `ReplayAddsNothingIff`).
- `MAX_TOKENS` bounds the chunks of every body exactly when it bounds every visible character, for
  counters on which the empty text fits and trimming a text that fits leaves one that fits
  (`AllChunksFitIff`).

## Model

| member | source | states |
|---|---|---|
| Chunker.Sentences | src/passages/chunk.rs:8-29 | the scanning loop yields the trimmed nonempty stretches between sentence ends, where a Latin stop only counts before space or the end |
| Chunker.SentencesInk | src/passages/chunk.rs:8-29 | the sentences hold the paragraph's non-space characters in order, from any start |
| PieceShape.SentencesAreBetweenStops | src/passages/chunk.rs:12-27 | the sentences are the nonempty trimmed texts between consecutive stops, the stops written out as characters |
| Chunker.SplitOversized | src/passages/chunk.rs:33-72 | the two nested loops, with over-long units split by characters, refine the fold over units |
| Chunker.HeldAbsorbAll | src/passages/chunk.rs:42-67 | whatever the counter says, what is emitted and still collected is exactly the ink of the units taken in |
| Chunker.OversizedInk | src/passages/chunk.rs:31-72 | splitting an over-long sentence by words or characters loses, repeats and reorders no non-space character |
| Splitting.OversizedAreLongest | src/passages/chunk.rs:33-72 | the pieces of an over-long sentence are its units in order in runs as long as they can be: a run of more than one fits, and it ends only where the next unit would not fit or where a unit that is too long itself is broken into characters |
| Splitting.SplittingUnique | src/passages/chunk.rs:44-67 | that description determines the runs |
| Splitting.UnitsAre | src/passages/chunk.rs:34-41 | the units are the words, each with a space, or the characters of a sentence without a space |
| Splitting.FittingSentenceIsOnePiece | src/passages/chunk.rs:78-82 | a sentence that fits is one piece as it is, and only one that does not is split |
| Chunker.CollectPieces | src/passages/chunk.rs:75-84 | the pieces of a body, line by line and sentence by sentence |
| Chunker.PiecesInk | src/passages/chunk.rs:75-84 | the pieces of any body hold exactly its non-space characters in order, for any counter |
| PieceShape.PiecesOnOneLine | src/passages/chunk.rs:76-84 | no piece reaches across the end of a line |
| Packing.AddPiece | src/passages/chunk.rs:95-111 | one turn of the packing loop on `chunks`, `current` and `added`, with the overlap kept apart from the run |
| Packing.Chunk | src/passages/chunk.rs:74-116 | the whole chunker computes the bodies of the packed pieces |
| Packing.AddAllKeeps | src/passages/chunk.rs:92-111 | after every piece: the blocks pack the pieces so far, an open run is below the target, and the overlap on offer is the last piece of a chunk that reached it |
| Packing.PackingUnique | src/passages/chunk.rs:92-115 | nonempty consecutive runs, each closed no sooner and no later than the target and the maximum ask, with the overlap that fits, determine the chunks |
| Packing.ChunksOfBody | src/passages/chunk.rs:8-116 | for any counter the chunks are the one packing of the pieces; without the overlaps they hold exactly the body's non-space characters in order |
| TokenBound.ChunksFit | src/passages/chunk.rs:33-116 | no chunk exceeds MAX_TOKENS, if every visible character and the empty text fit and trimming a fitting text leaves a fitting one |
| TokenBound.AllChunksFitIff | src/passages/chunk.rs:33-116 | where trimming behaves, the chunks of all bodies fit if and only if every visible character does |
| TokenBound.ShortChunksWereFull | src/passages/chunk.rs:96-110 | a chunk below the target that is not the last could not have taken the next piece |
| TokenBound.OversizedCharacter | src/passages/chunk.rs:53-59 | a visible character over the maximum is a body whose one chunk is over it |
| TokenBound.NoChunksOnlyForBlankBodies | src/passages/chunk.rs:74-116 | a body has no chunk if and only if it is all space |
| JobTable.Jobs.TryInsert | src/passages/jobs.rs:70-81 | INSERT ... ON CONFLICT DO NOTHING: a row exactly when the key was free |
| JobTable.Jobs.TryRequeue | src/passages/jobs.rs:82-98 | a finished row is reset when forced or older than 30 days, and reports whether one was |
| JobTable.Jobs.Enqueue | src/passages/jobs.rs:62-112 | the three statements uninterrupted: exactly which of the three answers is given and the new table; no change unless it answers queued |
| JobTable.Jobs.Claim | src/passages/jobs.rs:128-150 | takes the eligible unlocked row that is first by next attempt and id, or none when there is none |
| JobTable.Jobs.Finish | src/passages/jobs.rs:156-198 | stamps results without touching earlier stamps, and retries with backoff, fails or is done |
| JobTable.StampResults | src/passages/jobs.rs:161-166 | `at` is set only where it is missing |
| JobRules.ClaimTakesTheFirstDue | src/passages/jobs.rs:129-136 | a claim takes a queued row from its next attempt on or a running one after 30 minutes, the first of them by next attempt and id, and there is no other it could take |
| JobRules.NothingToClaim | src/passages/jobs.rs:129-140 | there is nothing to claim exactly when no unlocked row is due |
| JobRules.ClaimIsDue | src/passages/jobs.rs:130-149 | in any run no claim comes early, and the columns it changes and what the worker gets are as stated |
| JobRules.InsertedRow | src/passages/jobs.rs:70-76 | column by column, a new row is queued at once with nothing tried, and no other row changes |
| JobRules.RequeuedRow | src/passages/jobs.rs:83-93 | column by column, which row is put back and as what, and that no other changes |
| JobRules.JobKeysAreLookupKeys | src/passages/jobs.rs:50-60 | a job's keys are among those its song, artist and album are looked up by |
| JobRules.FinishDecides | src/passages/jobs.rs:161-196 | in any run, after attempt n: retried iff a source is in error and n is under 5, failed iff n is 5 or more and all are in error, done otherwise, with the next attempt in exactly 2, 4, 8 or 16 minutes and the stamps and messages as stated |
| JobRules.BackoffIsWaited | src/passages/jobs.rs:132-187 | in any run, no claim of a job that was put back at attempt n comes before those minutes have passed |
| Worker.StoreResults | src/passages/worker.rs:40-63 | found, no match or error; the first document that cannot be stored decides |
| Worker.Process | src/passages/worker.rs:104-134 | fetches exactly the sources that are not settled and merges their outcomes over the job's |
| Worker.MergedKeepsSettled | src/passages/worker.rs:110-134 | settled entries survive with value and stamp, and every configured source has an entry |
| SourceCycles.VerdictIs | src/passages/worker.rs:40-63 | an answer is in error iff it failed for now or a document could not be stored, and what each answer is stored as |
| SourceCycles.AnswerDecidesNextFetch | src/passages/worker.rs:110-134 | in any run, the next worker of the cycle fetches a source again iff its last answer was such an error |
| SourceCycles.NewCycleFetchesAll | src/passages/jobs.rs:84-85 | in any run, in a new cycle every configured source is pending until it is fetched in that cycle |
| SourceCycles.CycleBeginsIff | src/passages/jobs.rs:70-98 | a cycle begins iff a row is inserted or a finished one is put back |
| IngestQueue.StepKeeps | src/passages/jobs.rs:62-198 | every enqueue statement, claim, finish within its lease, crash and tick keeps the invariant |
| IngestQueue.RunKeeps | src/passages/jobs.rs:62-198 | the invariant holds in every state of every run |
| IngestRuns.OneLiveHolder | src/passages/jobs.rs:123-150 | a job has at most one live holder, and its row is running with that holder's attempts, results and claim time |
| IngestRuns.CycleIsBounded | src/passages/jobs.rs:128-198 | per enqueue cycle: at most 5 claims from the queue, attempts are claims plus takeovers, a queued row has attempts left, backoff totals at most 30 minutes |
| IngestRuns.AttemptsRun | src/passages/jobs.rs:128-135 | for every n a run that respects all leases and takes a row to n attempts |
| IngestRuns.KeysPersist | src/passages/jobs.rs:99-106 | the final SELECT of an enqueue finds a row however it is interleaved |
| IngestRuns.SettledStays | src/passages/worker.rs:110-134 | within a cycle a settled source keeps its outcome and its stamp |
| IngestRuns.SettledIsNeverRefetched | src/passages/worker.rs:110-119 | within a cycle no live worker on the job, in any state, has a settled source pending |
| IngestRuns.FinishedMeansSettled | src/passages/jobs.rs:167-184 | done without error means every configured source is settled; failed means all are in error with no attempt left |
| IngestRuns.FinishedRowsFreeze | src/passages/jobs.rs:128-198 | a finished row stays as it is until it is enqueued again |
| IngestRuns.NoJobIsStranded | src/passages/jobs.rs:123-138 | after more than a lease every open row is claimable, whatever crashed |
| LateFinishes.LeasesHoldIff | src/passages/jobs.rs:123-198 | in any run, late finishes or not, the leases hold up to a state if and only if every finish before it is within its lease or nobody else is live on its job |
| LateFinishes.FinishKeepsLeasesIff | src/passages/jobs.rs:185-196 | the same of one finish, from any state in which the leases hold |
| LateFinishes.LateFinishRun | src/passages/jobs.rs:185-196 | for any sources and what they return, a run in which a late finish leaves a job done, or queued when a source errs, that another worker is live on |
| LateFinishes.LateFinishDoublesRun | src/passages/jobs.rs:156-198 | and one that ends with two live workers on one job |
| Quota.DailyQuota | src/passages/api.rs:155-178 | in every day-long window of every run, fewer than 200 + k automatic jobs for a user with at most k overlapping lookups |
| QuotaReached.OverlappingLookupsExceed | src/passages/api.rs:155-178 | for every k and every series of tracks with different keys, a run that reaches the bound, so 200 is kept only without overlap |
| QuotaSongs.OverlappingSongLookups | src/passages/jobs.rs:69-81 | the same run for a concrete series of songs under the keys of job_keys |
| Quota.OthersCountAlike | src/passages/jobs.rs:114-121 | no requeue, claim, finish or other insert changes what the quota counts |
| Quota.AutoJobsAre | src/passages/jobs.rs:114-118 | what is counted: the flag, the user and the 24 hours |
| UserChannels.UserMap.SubscribeUser | src/state.rs:98-103 | the sender is created when missing and gains a fresh receiver |
| UserChannels.SubscribeAdds | src/state.rs:98-103 | a subscription adds one receiver of the user, with nothing offered, and removes and changes none |
| UserChannels.LivesUntilDropped | src/state.rs:98-134 | in any run a receiver is there if and only if it was not itself dropped since it subscribed |
| UserChannels.UndroppedGetsEverything | src/state.rs:98-134 | so every receiver not dropped is attached to the sender in the map and was offered exactly the events sent to its user since |
| UserChannels.UserMap.SendUserEvent | src/state.rs:109-134 | uninterrupted, every receiver of the user's sender is offered the event and no stale sender is left |
| UserChannels.RunKeeps | src/state.rs:98-134 | attachment and separation of senders hold through every interleaving |
| UserChannels.NoReceiverIsOrphaned | src/state.rs:125-133 | every live receiver is attached to the sender now in the map for its user |
| UserChannels.OffersEverySend | src/state.rs:98-134 | a receiver has been offered exactly the events sent to its user since it subscribed, once each, in order |
| UserChannels.StaleSenderGoes | src/state.rs:105-134 | a send to a user without receivers leads to a cleanup, after which the entry is there if and only if the user then has a receiver |
| SyncDocument.SyncStore.UpdateNamespace | src/db.rs:393-496 | uninterrupted it is the atomic compare-and-increment of one namespace, and other users' documents are untouched |
| SyncDocument.SyncStore.ReplaceSnapshot | src/db.rs:498-595 | the same for all four namespaces |
| SyncDocument.CommitIsAtomicIff | src/db.rs:406-474 | in any run an update is the atomic write if and only if the version is still the one its writer read |
| SyncDocument.RefinesAtomic | src/db.rs:393-595 | if no accepted read of a user's writer falls between another's read and update, every step is a step of the atomic document, rejections included |
| SyncDocument.DocumentsAreConsistent | src/db.rs:268-300 | then the version counts the accepted writes, each namespace holds its last accepted data, and at most one write is accepted for a named version |
| SyncDocument.LastWriteShows | src/db.rs:428-472 | in any run a document carries the time of its last write, the version after the one it read, its data, and the other namespaces as they were |
| SyncDocument.DocumentStays | src/db.rs:268-300 | in any run nothing of a document changes between two writes to it |
| SyncDocument.RejectedIff | src/db.rs:418-424 | in any run a read turns its writer away iff it named a version and the document is at another |
| SyncDocument.AnswerNames | src/db.rs:418-428 | a conflict names the version found, an accepted write the next one |
| SyncDocument.NewDocumentIs | src/db.rs:284-291 | a new document is at version 0 with the stated empty contents |
| SyncDocument.OverlapLosesAnUpdate | src/db.rs:406-424 | with overlap, a run that accepts two writes for version 0 and loses the first |
| Ranker.GreedyChoice | src/passages/rank.rs:88-110 | the loop keeps exactly the unblocked affordable passages up to the first that is unblocked and over the budget |
| Ranker.ChoiceUnique | src/passages/rank.rs:88-110 | that description determines the chosen passages |
| Ranker.SortSorts | src/passages/rank.rs:83-87 | sorting keeps the elements and orders them strictly when chunk ids are distinct |
| Ranker.SortedUnique | src/passages/rank.rs:83-87 | given elements have one strictly sorted arrangement |
| Ranker.Select | src/passages/rank.rs:56-112 | empty, all excluded, or the greedy choice from the sorted eligible candidates |
| Ranker.SelectionIgnoresOrder | src/passages/rank.rs:56-112 | candidates in any order give the same result |
| Ranker.SelectionLimits | src/passages/rank.rs:88-111 | nonempty, starting with the best, in ranking order, at most two per document, no near duplicates, over the budget only alone |
| RankOrder.SelectionIsRanked | src/passages/rank.rs:45-87 | with the order written out in play time, points and id: the chosen are eligible and in that order, and the first comes before every other eligible candidate |
| RankOrder.RankIs | src/passages/rank.rs:66-78 | who is eligible, and the points: similarity plus 0.05 for naming the song, times 1, 0.85 or 0.7 for the subject, times the recovery |
| RankOrder.CloserComesFirst | src/passages/rank.rs:75-87 | of two alike in all but the vector the closer one comes first, once recovered at all |
| RankOrder.NamingComesFirst | src/passages/rank.rs:70-87 | of two alike in all but the text the one that names the song comes first |
| RankOrder.SpecificHasMorePointsIff | src/passages/rank.rs:36-42 | of two alike in all but the subject song beats album beats artist if and only if similarity and boost are positive together |
| RankOrder.SelectionVaries | src/passages/rank.rs:91-109 | no document three times, no two passages over 0.92 alike, over the budget only alone |
| RankOrder.BlockedIff | src/passages/rank.rs:91-104 | blocked iff two chosen passages are of its document or one is over 0.92 alike |
| RankOrder.TokensAdd | src/passages/rank.rs:105-108 | the budget counts the tokens of every chosen passage |
| RankOrder.CosineSnoc | src/passages/embed.rs:28-30 | the similarity is the dot product, component by component |
| Ranker.LeftOutRightly | src/passages/rank.rs:90-107 | every eligible passage left out is blocked by better ones kept, or is at or after the first unblocked one over the budget |
| Ranker.RecentPlaysAreExcluded | src/passages/rank.rs:45-54 | a passage played less than 30 days ago is never selected |
| Ranker.ExhaustedIff | src/passages/rank.rs:66-81 | "all excluded" if and only if there are candidates and all were played in the window |
| PassageStore.ReplacedKeeps | src/passages/store.rs:51-92 | a rebuild keeps unique refs, the index of every document, and no dangling chunk or play |
| PassageStore.DeletedKeeps | src/passages/store.rs:95-102 | so does a delete with its cascades |
| StoreRuns.PassageDb.UpsertDocument | src/passages/store.rs:18-93 | uninterrupted: touch on an equal hash, otherwise row and chunks replaced under fresh ids |
| StoreRuns.PassageDb.DeleteDocument | src/passages/store.rs:95-102 | the document goes with its chunks and their plays, and it reports whether it existed |
| StoreRuns.PassageDb.RecordPlays | src/passages/store.rs:165-184 | one play per existing listed chunk, none replaced |
| StoreInterleavings.IndexAgrees | src/passages/schema.rs:60-75 | in every reachable state the chunks of a document are the chunks of its body at ords 0, 1, ..., each once, and nothing dangles |
| StoredRows.ChunkHoldsItsText | src/passages/store.rs:81-90 | in every reachable state a chunk holds the text of its body at its ord, the token count of that text and its vector |
| StoredRows.EveryChunkIsStored | src/passages/store.rs:77-90 | every chunk of a stored body has exactly one row |
| StoredRows.RebuildStores | src/passages/store.rs:52-76 | column by column, the row an upsert writes, with who added it first, and that no other document changes |
| StoredRows.TouchRenews | src/passages/store.rs:35-38 | a touch changes the fetch time and nothing else |
| StoredRows.DeleteTakes | src/passages/store.rs:95-102 | a delete takes its document, exactly its chunks, and exactly the plays on them |
| StoreInterleavings.StoredChunksFit | src/passages/store.rs:43-47 | no stored chunk is over MAX_TOKENS, for the counters of ChunksFit |
| StoreInterleavings.UnchangedBodyKeepsChunks | src/passages/store.rs:24-40 | an upsert that is atomic keeps all chunks and plays of an equal body and none of the chunk ids of a changed one, for a hash injective on the two bodies |
| UpsertRuns.StepIsUpsertIff | src/passages/store.rs:32-92 | in any run a touch is the atomic upsert iff its document is still stored with the hash, and a rebuild of a body with chunks iff the document is not stored with it |
| UpsertRuns.UndisturbedIsAtomic | src/passages/store.rs:18-93 | in any run, an upsert between whose two steps nothing else rebuilt or deleted its document is atomic |
| UpsertRuns.UndisturbedKeepsChunks | src/passages/store.rs:32-40 | and, of an unchanged body, keeps exactly the document's chunks and every play on them |
| UpsertRuns.LateTouchRun | src/passages/store.rs:35-39 | a run in which a touch answers the id of a document that is gone |
| StoreInterleavings.RacingUpsertsLoseAPlay | src/passages/store.rs:25-62 | a run of two overlapping upserts of one body that drops a recorded play |
| PlayRuns.PlaysPersist | src/passages/store.rs:165-184 | a recorded play keeps its time as long as its chunk exists |
| StoredRows.RecordStoresTime | src/passages/store.rs:173-175 | a new play carries the time of the event, every other play stays, and no other is added |
| StoredRows.RecordedIsExcluded | src/passages/store.rs:165-184 | so its chunk is in none of the user's selections for 30 days from then |
| PlayRuns.ReplayAddsNothing | src/passages/store.rs:172-176 | replaying an event later changes nothing, whatever happened since, if it lists no chunk that exists now and did not exist when it was recorded |
| PlayRuns.ReplayAddsNothingIff | src/passages/store.rs:172-176 | and only if, when the event was not recorded otherwise in between |
| PlayRuns.EarlyRecordRun | src/passages/api.rs:244-257 | a run in which an event names a chunk id before it is handed out, and its replay adds a play |
| Retrieval.Candidates | src/passages/store.rs:118-163 | exactly the matching chunks by ascending id, up to 3000, each with the user's latest play |
| Retrieval.PlayedChunksAreNotSelected | src/passages/store.rs:125-142 | a chunk this user had played in the last 30 days is in none of this user's selections |
| Retrieval.CandidatesUnique | src/passages/store.rs:125-142 | the query determines its candidate list |
| Retrieval.OtherUsersSelectAlike | src/passages/store.rs:165-184 | recording a user's plays changes no other user's candidates and no other user's selection |
| Retrieval.StoredDocumentsMatch | src/passages/store.rs:67-69 | a document matches the lookup of the track it was stored for, also under a multi-artist credit that lists its artist |
| Retrieval.StoredChunksAreCandidates | src/passages/store.rs:126-135 | and its chunks are candidates, unless 3000 smaller ids are |
| StoredRows.CandidateCarriesItsChunk | src/passages/store.rs:126-160 | a candidate carries the text, tokens and vector of its chunk and the subject of its document |
| StoredRows.CandidatesAreAskedFor | src/passages/store.rs:131-133 | a lookup gets passages only of credited artists, about the song, its base title, the album or the artist |
| MatchKeys.MatchKeyIdempotent | src/match_keys.rs:6-18 | a key is its own key |
| KeyRules.DashesShareKey | src/match_keys.rs:14-18 | texts that differ only in which dashes they use share a key |
| KeyRules.WordsShareKey | src/match_keys.rs:6-18 | the key depends on the words only and holds no dash but the ASCII hyphen |
| MatchKeys.StripLoop | src/match_keys.rs:50-62 | the loop ends and strips every trailing qualifier group |
| MatchKeys.StripLast | src/match_keys.rs:50-61 | one round of it, every index in range |
| KeyRules.QualifierIff | src/match_keys.rs:53-57 | a bracketed text qualifies iff it is only digits or one of its words, a maximal run of alphanumerics and full stops, is on the list |
| KeyRules.TrailingGroup | src/match_keys.rs:50-61 | a trailing group is cut with the space before it iff it qualifies and something stands before it |
| KeyRules.NoTrailingGroup | src/match_keys.rs:50-52 | without a closing bracket at the end, or its opening one, nothing is cut |
| KeyRules.HeadIsBeforeDash | src/match_keys.rs:49 | groups are looked for before the first " - " |
| MatchKeys.ComputeBaseTitle | src/match_keys.rs:48-64 | the base title, or the title itself when nothing would be left |
| MatchKeys.BaseTitlePrefix | src/match_keys.rs:46-64 | a prefix of the title, nonempty for a nonempty one; where it differs from the title, without trailing space and with nothing left to strip |
| MatchKeys.BaseTitleIdempotent | src/match_keys.rs:46-64 | the base title is its own base title |
| KeyRules.BaseTitleDropsGroup | src/match_keys.rs:48-64 | a title that ends in a qualifier group has the base title of what stands before it |
| KeyRules.BaseTitleOfPlain | src/match_keys.rs:48-64 | a title without dash and group only loses the space at its end |
| MatchKeys.ComputeSongKeys | src/match_keys.rs:67-74 | one or two keys, the title's own first |
| MatchKeys.SongKeysCoverStoredKey | src/match_keys.rs:66-74 | the title's own key first, the key of its base title, no other, and every key its base title is looked up by |
| MatchKeys.ComputeArtistParts | src/match_keys.rs:77-93 | the two loops compute the distinct parts, truncated to 16 |
| MatchKeys.ArtistPartsShape | src/match_keys.rs:76-93 | 1 to 16 entries with distinct keys: the trimmed credit, then nonempty trimmed names free of all six separators |
| MatchKeys.ArtistPartsCover | src/match_keys.rs:76-93 | without truncation every nonempty piece is represented by its key |
| Credits.CreditIsWoven | src/match_keys.rs:78-84 | the pieces of a credit in order, with separators put back between them, are the credit, and no piece holds a separator |
| MatchKeys.ArtistKeysCoverCredit | src/match_keys.rs:95-98 | the lookup keys are distinct and include the credit's own |
| Genius.SongBody | src/passages/sources/genius.rs:160-190 | the nested loops and two joins give one join of all texts kept |
| Genius.BodyHasNoLyrics | src/passages/sources/genius.rs:147-190 | no fragment some referent carries that cannot be read across a blank line occurs in the stored body |
| Genius.JointShapedLeaks | src/passages/sources/genius.rs:156-189 | every other fragment is stored for some song |
| Genius.CleanTextsAreKept | src/passages/sources/genius.rs:137-188 | an annotation of any referent or a paragraph of the description that quotes nothing is stored, trimmed |
| Genius.KeptTextsAreClean | src/passages/sources/genius.rs:137-188 | nothing else is stored |
| Genius.DescriptionComesFirst | src/passages/sources/genius.rs:172-189 | the paragraphs of the description come before the annotations |
| Genius.FragmentsAre | src/passages/sources/genius.rs:167-171 | the fragments are exactly the nonempty ones that some referent carries |
| Clean.StripWikiSections | src/passages/sources/clean.rs:44-56 | the loop cuts at the first trailing heading line |
| Clean.StripSectionsResult | src/passages/sources/clean.rs:44-56 | the result is that prefix without trailing space, none of its lines is such a heading, the cut is at one, and stripping again changes nothing |
| HeadingLines.HeadingIff | src/passages/sources/clean.rs:47-49 | a line is cut at iff it reads two or more equals signs, a listed name with space around it if any, and any number of equals signs |
| HeadingLines.HeadingIsCut | src/passages/sources/clean.rs:46-52 | nothing from such a line on is kept |
| HeadingLines.NothingElseIsCut | src/passages/sources/clean.rs:46-55 | a text without such a line only loses the space at its end |
| Clean.StripLastfmResult | src/passages/sources/clean.rs:58-65 | only space is dropped around what precedes the first marker, no marker is left anywhere, and stripping again changes nothing |
| Clean.FirstMarkerIsFirst | src/passages/sources/clean.rs:59-63 | the minimum of the markers' positions is where the first of any marker starts |
| Clean.TruncateBody | src/passages/sources/clean.rs:67-77 | stepping back byte by byte finds the longest run of whole characters that fits |
| Clean.TruncatedResult | src/passages/sources/clean.rs:67-77 | a prefix of at most max bytes, cut at the last line break of a run that ends at a character boundary at most three bytes short of max |
| Utf8.NoBoundaryInside | src/passages/sources/clean.rs:72-74 | no byte inside a character is a boundary |
| Utf8.BytesInjective | src/dj_fact_sources.rs:34 | two texts with the same bytes are the same text |
| WikiUrl.DecodeEncode | src/dj_fact_sources.rs:32-43 | percent-decoding an encoded address gives back its bytes |
| WikiUrl.SameUrlIff | src/dj_fact_sources.rs:32-43 | two page ids have one address if and only if they differ only in spaces and underscores |
| WikiUrl.UrlIsPlain | src/dj_fact_sources.rs:36-40 | an address holds only plain ASCII and percent escapes |
| WikiUrl.EncodedByteIs | src/dj_fact_sources.rs:36-40 | which bytes stay as they are, and the two upper-case digits of the others |

## Left out

- The database driver, SQL text, connection handling and errors of the database: a table is a map, and a statement or a transaction is one step. A failed upsert or write is an `Abandon` or `Abort` step.
- Ranker.Select: scores are exact reals and the recovery curve is an arbitrary function, so floating-point rounding and NaN are not modelled; the cosine is the dot product over the common length of the two vectors.
- Ranker.SortSorts: the library sort is modelled as an insertion sort on values; which sort runs does not matter, as SortedUnique shows.
- JobTable.Jobs.Finish: the error text is kept as the map from source to message it is spelled from, and the integer width of `attempts` is not modelled.
- Worker.Process: fetches run concurrently in the source and are merged in list order; the model merges them in that order. The freshness scope passed to a source is a parameter of what it returns.
- Quota.DailyQuota: authentication, validation of the parameters and the HTTP answers of a lookup are not modelled; a requeued old job is not counted, as in the source.
- UserChannels.OffersEverySend: an event is offered to a receiver; the bounded buffer behind it, lag and the WebSocket loop are not modelled.
- SyncDocument.RefinesAtomic: the isolation level is the one the statements show, a plain read followed by an update by key; JSON is opaque text.
- StoreInterleavings.UnchangedBodyKeepsChunks: SHA-256 is a parameter; only that lemma asks that it tells the two bodies apart.
- KeyRules.DashesShareKey: that lower-casing leaves dashes alone is an assumption on the case tables.
- MatchKeys.MatchKeyIdempotent: Unicode lower-casing is a parameter that keeps single-spaced text single-spaced and leaves its own dash-folded output alone; CaselessIsLawful shows the assumption can be met.
- Genius.SongBody: the parsed JSON is given as values, with None where a field is absent or not a string.
- Catalog loading, configuration, routing, migrations, token generation and user administration: plumbing or single checks.
- `RateLimiter`, `title_matches`, `canonical`, `valid_qid`, `valid_uuid`, `valid` and `fresh`: each would only add easy members.
- The BERT embedder, and all fetching and parsing in the sources: their results are parameters.
