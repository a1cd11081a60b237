# Verified model of the durable memory server

This project models the storage protocol, the memory graph, the text chunker, the embedding executor, the ranking of
search results and the credential env file of the server, and proves what they are relied on for. Nothing here runs the
server. `dafny verify dfyconfig.toml` checks everything.

## How the model is built

**Documents and jobs.** `JobStore` holds the tables (documents, jobs, chunk rows, and a log of what was committed to the
memory tables) and every transaction as a function from old tables to new ones; a failing transaction returns the old
tables. `JobStorage.Storage` is the same store as a mutable object whose methods update, loop and roll back like the
program, each proved equal to its function. `JobProtocol` puts the tables together with the workers that hold claimed
jobs outside the database, the clock, and a history of events; an action is one transaction, one decision of a
coordinator, an upsert, a deletion, a forget, an abandoned worker or a restart. A run is any sequence of actions from the
empty store, so every interleaving is covered. `JobInvariants`, `JobTransactions`, `JobUpserts` and `JobRecovery` prove
what each transaction keeps; `JobSafety` lifts that to all runs; `JobTheorems`, `JobLifecycle`, `JobProgress`,
`JobOwnership`, `JobLiveness` and `JobRetries` state the consequences; `JobExamples` has short runs that reach the states
warned about; `UpsertIdentity` is about upserts alone.

**Memories.** `Memories` has reconciliation and forgetting as functions, `MemoryStorage.MemoryTables` has them as loops
over mutable tables, `MemoryInvariants` what every sequence of commands keeps, `MemoryViews` what readers may rely on,
`MemoryReplay` when replaying a batch is harmless, and `MemoryRecords` what a batch writes, field by field, in terms of its
proposals and the tables before it.
The protocol's log is such a sequence, so the two halves meet in `JobTheorems.MemoriesStayConsistent`.

**Chunking.** `Chunking` has the chunker as functions and as loops, `ChunkingCoverage` cuts every chunk into a repeated
heading, a repeated overlap and new text, and shows that the new texts hold the text's non-whitespace characters
("ink") in order, each once, apart from NUL and the replacement character. `ChunkingBoundaries` says where it cuts.

**Embedding.** `Microbatch` has the greedy batching and `embed_owned`; `Scheduler` the loop over the two queues as a
state machine whose steps arrivals may interleave with, down to the single attempts on a queue; `SchedulerProgress` shows
that the loop answers everything once arrivals pause, and `SchedulerStarvation` decides for which limits one class of
requests can keep the other waiting without end.

**Search and credentials.** `SearchRanking` goes from evidence to response; `SearchOrder` says how places in the
retrievals decide the order, `SearchSimilarity` is about the similarities reported; `EnvFile` prints and parses assignments.

Conventions: identifiers of documents, jobs, chunk rows and memories are fresh numbers from one counter per store, and
`created_at, rowid` order is identifier order because the clock never runs backwards. The content hash is an arbitrary
field. The normalization of memory contents is a parameter, so the results hold for every normalization. Scores are
reals. The embedding model is an arbitrary function from a text to a vector. Strings are sequences of Unicode scalar
values.

## Where the program does not do what is promised

Each of these is a proved statement, with the exact condition where there is one.

- A job in progress does not always have a worker: abandoning a worker strands its job exactly when it is still in
  progress, until a restart (`JobOwnership.AbandonLoses`, `JobOwnership.NothingIsStranded`); an upsert, a claim and an
  abandoned worker do it (`JobExamples.AbandonedJobIsStranded`).
- Between restarts a document's status leaves the edges of `DocumentState::transition` exactly when a worker publishes its
  current revision without embeddings, which takes it from chunking to done (`JobLifecycle.UndocumentedIff`,
  `JobExamples.PlainPublicationJumps`).
- Repeating an upsert at once creates a second document exactly when the first created one without a custom id
  (`UpsertIdentity.RepeatedUpsertIff`).
- Replaying a batch is a no-op exactly when no proposal with a new content updates the row that answers a proposal of the
  batch (`MemoryReplay.ReplayIdempotentIff`, `MemoryReplay.ReplayOfAnUpdateChanges`).
- Setting `include_forgotten` alone shows nothing more (`MemoryViews.IncludeForgottenAloneShowsNothingMore`).
- The chunk limit binds exactly when it is at least 2 or the text has no astral character
  (`ChunkingCoverage.BoundHoldsIff`).
- The deferred slot bypasses the burst test. Among the limits the configuration accepts, one class can be kept waiting
  without end exactly if a batch takes three items, or two but not two of the longest; by requests of one item, as the
  server's queries are, exactly if a batch of longest items reaches the token limit before the item limit. Otherwise bulk
  work waits for at most five query batches in a row and a query for at most two bulk batches
  (`SchedulerStarvation.StarvationIff`, `SchedulerStarvation.WaitingIsBounded`). What holds under all limits is
  `Scheduler.QueriesYieldToBulk` and `Scheduler.BulkYieldsToQueries`.
- A result is left out of the response although it would be in it without its optional fields exactly when it fits what the
  results before it left of the budget, exceeds half of the budget, and would not exceed it reduced
  (`SearchRanking.DroppedUnreducedIff`).
- A memory's reported similarity is the square of its fused score, and therefore below that of every chunk: the
  similarities of a response are nonincreasing exactly when no memory comes before a chunk in it
  (`SearchSimilarity.ResponseInOrderIff`, `SearchSimilarity.MemoryFirstReportsLess`).
- Selection without aggregation is just a prefix of the ranking, whatever its comment says about diversity
  (`SearchRanking.SelectDiverse`).

## Model

| member | source | states |
|---|---|---|
| JobTheorems.ActiveJobsAreCurrent | crates/storage/src/lib.rs:476-631 | in every reachable state each active job has its document's current revision and the matching document status (indexing for memory jobs), a document has at most one active job, and it is done or failed exactly when it has none |
| JobTheorems.IndexNeverRejects | migrations/0007_revision_scoped_active_jobs.sql:3-5 | the unique index on active jobs never rejects an upsert or a publication; a publication fails exactly when its document is gone |
| JobTheorems.MutualExclusion | crates/storage/src/document_jobs.rs:35-46 | two live handles never name the same job, and a job with a live handle cannot be claimed |
| JobTheorems.SearchedChunksAgree | crates/storage/src/search.rs:424 | a done document's stored chunks are exactly the chunks of its current content, and stable ids are distinct over all documents |
| JobTheorems.StableIdsSurvive | crates/storage/src/document_jobs.rs:131-174 | republishing keeps the stable id of each surviving (ordinal, content) pair, gives every other chunk an unused id, and leaves other documents' chunks alone |
| JobTheorems.CommitsExactlyOnce | crates/storage/src/memories.rs:158-175 | a memory job has at most one extraction accepted, is finished at most once and exactly if its row is done, is requeued at most three times over its life, and the memory tables received exactly the committed batches in order |
| JobTheorems.ExtractionIsCommitted | crates/server/src/memory_extraction_coordinator.rs:40-84 | a worker commits exactly the accepted extraction stored with its job, under the organization of its document |
| JobTheorems.OnlyEmptyExtractionsVanish | crates/server/src/memory_extraction_coordinator.rs:40-45 | a current job is finished without a commit only when its extraction is empty |
| JobTheorems.OnlyBlankDocumentsVanish | crates/server/src/indexing_coordinator.rs:103-109 | a document disappears only when a user deletes it or when its content has nothing but whitespace, NUL and replacement characters |
| JobTheorems.MemoriesStayConsistent | crates/storage/src/memories.rs:43-177 | the memory tables any protocol run builds satisfy the invariant of the memory graph |
| JobTheorems.RestartRecovers | crates/storage/src/lib.rs:1290-1309 | from any reachable state a restart re-establishes the whole invariant, leaves no job in progress, and restarting again changes nothing |
| JobSafety.StepOk | crates/server/src/indexing_coordinator.rs:89-169 | every action keeps the invariant: consistent tables, owned and distinct handles, history and log in step |
| JobSafety.RunOk | crates/server/src/memory_extraction_coordinator.rs:40-84 | the invariant holds after every sequence of actions |
| JobSafety.CachedHistory | crates/storage/src/memory_jobs.rs:101-121 | a provider's answer is accepted only when none was cached for the job, and never for a stale handle |
| JobSafety.PreparedChunks | crates/memory-engine/src/embedding.rs:166-177 | the texts the executor hands back for publication are the chunks unchanged |
| JobSafety.PreparedIsLongest | crates/memory-engine/src/embedding.rs:285-302 | in general each text is cut to its longest prefix of at most 8000 code units |
| JobLifecycle.StepMoves | crates/storage/src/lib.rs:101-118 | any step but a plain publication moves every document status along a documented edge within its revision, or starts the next revision queued from an idle document; a restart only takes work in progress back to queued |
| JobLifecycle.TransitionIs | crates/storage/src/lib.rs:101-118 | the documented edges are one stage further, failure from any stage but done, and queueing to begin with or after a failure |
| JobLifecycle.UndocumentedIff | crates/server/src/indexing_coordinator.rs:111-121 | between restarts a document leaves along an undocumented edge exactly when a worker publishes its current revision without embeddings |
| JobExamples.PlainPublicationJumps | crates/server/src/indexing_coordinator.rs:111-121 | every uploaded document that is not blank jumps from chunking to done on that path |
| JobLifecycle.StaleForever | crates/storage/src/lib.rs:583-592 | a stale handle stays stale in every continuation |
| JobLifecycle.DocumentHandleFenced | crates/storage/src/document_jobs.rs:108-271 | after any further run a stale document handle can change no document, chunk, memory or other job |
| JobLifecycle.MemoryHandleFenced | crates/storage/src/memory_jobs.rs:101-214 | the same for a stale memory handle |
| JobProgress.WorkerStepPays | crates/server/src/memory_extraction_coordinator.rs:40-84 | every worker step that does anything decreases the measure |
| JobProgress.WorkIsBounded | crates/storage/src/memory_jobs.rs:168-214 | without upserts and restarts the number of effective worker steps of a run is at most the measure of its start |
| JobOwnership.NothingIsStranded | crates/server/src/indexing_coordinator.rs:51-59 | in a run without abandoned workers every job in progress has a worker |
| JobOwnership.AbandonLoses | crates/server/src/memory_extraction_coordinator.rs:174-176 | abandoning a worker leaves everything attended exactly if its job is no longer in progress |
| JobExamples.AbandonedJobIsStranded | crates/server/src/indexing_coordinator.rs:51-59 | after an upsert, a claim and an abandoned worker the job is in progress without a worker |
| JobProtocol.Backoff | crates/server/src/memory_extraction_coordinator.rs:334-346 | retry delays double from one second up to 64, an invalid answer is retried once after a second, a rejected setup never |
| JobRetries.ProviderFailureOutcome | crates/server/src/memory_extraction_coordinator.rs:178-213 | a failed provider call on a current job waits two, four, then eight seconds and ends job and document at the fourth attempt; an invalid answer gets one more attempt after a second, a rejected setup none |
| JobRetries.InternalFailureOutcome | crates/server/src/memory_extraction_coordinator.rs:40-84 | a failure to embed or to commit is tried again after a second up to the third attempt, and is recorded by its name |
| JobExamples.ThreeRetriesThenFailure | crates/storage/src/memory_jobs.rs:175-189 | for every document that is not blank a run requeues its memory job three times, and the next failure ends job and document |
| JobLiveness.WorkersAreNeverStuck | crates/server/src/indexing_coordinator.rs:89-169 | every worker always has an enabled step, and taking it uses up work |
| JobLiveness.QuiescenceIsReached | crates/server/src/memory_extraction_coordinator.rs:88-168 | from every attended reachable state the coordinators alone reach a state in which they have nothing left to do, within measure many steps |
| JobLiveness.QuiescentMeansSettled | crates/storage/src/memory_jobs.rs:63-71 | in such a state, once retry delays have passed, every document is done or failed |
| JobLiveness.EverythingSettles | crates/server/src/memory_extraction_coordinator.rs:88-168 | from every attended reachable state coordinator steps and the passing of time make every document done or failed, within twice the measure plus one steps |
| JobLiveness.EveryRunSettles | crates/server/src/memory_extraction_coordinator.rs:88-168 | in every run of coordinator steps and ticks at most measure many steps do anything, and one that stops with nothing left to do and no delay pending has made every document done or failed |
| JobLiveness.RestartThenSettles | crates/storage/src/lib.rs:1290-1309 | the same after a restart in any reachable state, whatever was abandoned before |
| JobInvariants.RewriteOk | crates/storage/src/document_jobs.rs:35-45 | writing an active job row together with its document's status keeps the table invariant |
| JobInvariants.AddJobOk | crates/storage/src/document_jobs.rs:180-190 | queueing a job for a settled document keeps the table invariant |
| JobInvariants.SetChunksOk | crates/storage/src/document_jobs.rs:152-174 | replacing the chunks of a document under an active document job keeps the table invariant |
| JobInvariants.ClaimJobOk | crates/storage/src/document_jobs.rs:11-47 | a claim keeps the invariant and hands out an owned handle on a job that was queued |
| JobInvariants.MarkJobStageShape | crates/storage/src/document_jobs.rs:205-237 | a live handle's stage update writes job and document together and fails exactly when the document is gone |
| JobInvariants.MarkJobStageOk | crates/storage/src/document_jobs.rs:205-237 | a stage update keeps the invariant and the handle's ownership at the new stage |
| JobInvariants.FailJobOk | crates/storage/src/document_jobs.rs:243-256 | without a status guard of its own, failing an owned job keeps the invariant |
| JobInvariants.PublishShape | crates/storage/src/document_jobs.rs:108-199 | a live handle's publication replaces chunks, finishes the job, and queues the memory job without an index conflict |
| JobInvariants.PublishJobOk | crates/storage/src/document_jobs.rs:175-198 | a publication keeps the invariant and touches no other job |
| JobTransactions.ClaimMemoryJobOk | crates/storage/src/memory_jobs.rs:11-57 | a memory claim keeps the invariant, changes no document, and hands out an owned handle |
| JobTransactions.CacheShape | crates/storage/src/memory_jobs.rs:101-121 | caching succeeds exactly on a current handle and otherwise changes nothing |
| JobTransactions.CompleteShape | crates/storage/src/memory_jobs.rs:127-162 | completing a handle never fails and marks a stale one's own row at most |
| JobTransactions.RetryShape | crates/storage/src/memory_jobs.rs:168-214 | retrying a stale handle does nothing, and a current one rewrites only its own job and document |
| JobTransactions.RetryOutcome | crates/storage/src/memory_jobs.rs:175-211 | a current job is queued again after the delay, at least a second, exactly if a delay is given and the attempt is one of the first three; otherwise job and document fail |
| JobTransactions.ReconcileMemoriesOk | crates/storage/src/memories.rs:158-175 | reconciliation either changes nothing or commits its batch, completes exactly its own extracting job, and finishes the document |
| JobUpserts.UpsertShape | crates/storage/src/lib.rs:476-573 | an upsert never fails; it does nothing, changes metadata, rewrites and requeues, or creates |
| JobUpserts.UpsertDocumentOk | crates/storage/src/documents.rs:29-52 | an upsert keeps the table invariant |
| JobUpserts.UpsertKeepsOwner | crates/storage/src/lib.rs:484-497 | a document job in progress shields its document: its handle stays owned and current |
| JobUpserts.UpsertKeepsMemoryOwner | crates/storage/src/lib.rs:587-592 | a memory handle is untouched or becomes stale with its job failed |
| JobUpserts.DropDocumentOk | crates/storage/src/documents.rs:108-133 | deleting a document with its jobs and chunks keeps the table invariant |
| JobUpserts.DeletesOnlyNamed | crates/storage/src/documents.rs:108-133 | a deletion removes at most a document that the identifier names in the organization, and leaves every other document with its jobs and chunks alone |
| JobRecovery.InitializeShape | crates/storage/src/lib.rs:1290-1309 | on reachable tables the stale sweep and the memory-document statement have nothing to do |
| JobRecovery.InitializeRecovers | crates/storage/src/lib.rs:1290-1309 | recovery queues every active job at its current revision so that it is claimable once its time comes, changes no settled job, and keeps cached extractions, attempts, contents, chunks and memories |
| JobRecovery.InitializeIdempotent | crates/storage/src/lib.rs:1290-1309 | recovering again at any later time changes nothing |
| UpsertIdentity.MergeLookup | crates/storage/src/lib.rs:1178-1187 | merged metadata takes the incoming value of a key, else the existing one |
| UpsertIdentity.UpsertRecords | crates/storage/src/lib.rs:499-592 | an upsert that queues work leaves the new content, merged metadata, queued status and exactly the new job |
| UpsertIdentity.RewritingSupersedes | crates/storage/src/lib.rs:583-592 | rewriting a document fails the memory job of its former revision as stale and leaves every other job alone |
| UpsertIdentity.UpsertTouchesOneDocument | crates/storage/src/lib.rs:476-573 | every other document and all chunks stay, and without queued work all jobs stay |
| UpsertIdentity.RepeatedUpsertIff | crates/storage/src/documents.rs:39-49 | repeating an upsert at once is a no-op exactly unless it created a document without a custom id |
| UpsertIdentity.CreatesIff | crates/storage/src/lib.rs:633-669 | an upsert creates a document exactly when the organization has none with its custom id and tags, or, without a custom id, no finished one with its hash, the same nonblank tags as often, and equivalent metadata |
| UpsertIdentity.ComparableEntry | crates/storage/src/lib.rs:1189-1198 | exactly the entries whose key starts with sm_ or is commonQuestions are left out of the comparison |
| UpsertIdentity.InternalEntryChangesNothing | crates/storage/src/lib.rs:499-554 | an upsert that differs from the stored document by such an entry alone changes nothing |
| JobStorage.Storage.FindClaimable | crates/storage/src/document_jobs.rs:16-34 | the claim query returns the oldest claimable job, or none |
| JobStorage.Storage.ClaimJob | crates/storage/src/document_jobs.rs:11-47 | the in-place claim yields the specified tables and handle |
| JobStorage.Storage.MarkJobStage | crates/storage/src/document_jobs.rs:205-237 | both updates and the rollback on a row count other than one yield the specified tables |
| JobStorage.Storage.ReplaceChunks | crates/storage/src/document_jobs.rs:131-174 | draining the map of existing ids yields the specified rows |
| JobStorage.Storage.PublishJob | crates/storage/src/document_jobs.rs:108-199 | the in-place publication yields the specified tables, rolled back on an index conflict |
| JobStorage.Storage.FailJob | crates/storage/src/document_jobs.rs:243-256 | the in-place failure yields the specified tables |
| JobStorage.Storage.DeleteEmptyDocument | crates/storage/src/document_jobs.rs:262-270 | only a current document still extracting or chunking is deleted, with its cascades |
| JobStorage.Storage.DeleteDocument | crates/storage/src/documents.rs:108-133 | the document named by id, else the oldest named by custom id, is deleted with its jobs, chunks and memory sources; the answer tells whether there was one |
| JobStorage.Storage.ClaimMemoryJob | crates/storage/src/memory_jobs.rs:11-57 | the in-place memory claim yields the specified tables and handle |
| JobStorage.Storage.CacheExtraction | crates/storage/src/memory_jobs.rs:101-121 | a stale handle is marked stale and reported, a current one cached |
| JobStorage.Storage.CompleteMemoryJob | crates/storage/src/memory_jobs.rs:127-162 | the in-place completion yields the specified tables, rolled back unless exactly one job and one document changed |
| JobStorage.Storage.RetryMemoryJob | crates/storage/src/memory_jobs.rs:168-214 | the in-place retry yields the specified tables, whose outcome `JobTransactions.RetryOutcome` states |
| JobStorage.Storage.ReconcileMemories | crates/storage/src/memories.rs:43-177 | the revision is checked and a job completed only if named, and the batch is undone when the job cannot be completed |
| JobStorage.Storage.Requeue | crates/storage/src/lib.rs:575-631 | rewriting and queueing commit together or not at all |
| JobStorage.Storage.ApplyExisting | crates/storage/src/lib.rs:476-554 | the branches of an upsert on an existing document yield the specified tables and answer |
| JobStorage.Storage.InsertNew | crates/storage/src/lib.rs:556-573 | a new document and its job commit together |
| JobStorage.Storage.UpsertDocument | crates/storage/src/documents.rs:29-52 | the oldest identified document is updated, else a new one inserted |
| JobStorage.Storage.Initialize | crates/storage/src/lib.rs:1290-1309 | the four recovery statements in order yield the specified tables |
| MemoryInvariants.RunKeepsInv | crates/storage/src/memories.rs:85-153 | over all sequences of reconciliations, forgets and deletions the relations, lineages, flags and content uniqueness hold |
| MemoryInvariants.AdmitAllKeepsInv | crates/storage/src/memories.rs:85-153 | a batch keeps the invariant and its dedup map covers every active row, although superseded contents stay in it |
| MemoryInvariants.ForgetKeepsInv | crates/storage/src/memories.rs:335-345 | forgetting keeps the invariant |
| MemoryInvariants.LinkEffect | crates/storage/src/memories.rs:126-144 | linking adds exactly one edge per parent and demotes exactly the updated parents |
| MemoryInvariants.BeginIsIndexed | crates/storage/src/lib.rs:921-942 | the dedup map starts with exactly the active contents of the scope |
| MemoryInvariants.LineageReachesRoot | crates/storage/src/memories.rs:104-113 | following parents version - 1 times reaches the root of the same scope, and version 1 means no root |
| MemoryInvariants.RelationsAcyclic | crates/storage/src/memories.rs:126-131 | every path of relations strictly ascends, so there is no cycle |
| MemoryViews.VisibilityByState | crates/storage/src/search.rs:320 | which switches a current, a superseded and a forgotten row need; a forgotten row needs all four |
| MemoryViews.IncludeForgottenAloneShowsNothingMore | crates/server/src/search_engine.rs:264-267 | the switch set by the version-4 search shows exactly the default rows |
| MemoryViews.DeduplicateMemories | crates/storage/src/lib.rs:1084-1098 | the filtering loop equals the specification |
| MemoryViews.ProfilesAreExact | crates/storage/src/memories.rs:191-250 | deduplication drops only blank rows before its cap, and the static and dynamic profile share no content |
| MemoryViews.IndexIgnoresOrder | crates/storage/src/lib.rs:927-940 | the order of the dedup query does not matter on reachable tables |
| MemoryReplay.RecordsHoldTheirContent | crates/storage/src/memories.rs:154-157 | every proposal is answered, in order, by a row that holds its content and has the document as a source |
| MemoryReplay.PlanIsExact | crates/storage/src/memories.rs:82-153 | contents, temporary ids and the active contents before determine which row answers each content |
| MemoryReplay.RowsAfter | crates/storage/src/memories.rs:126-144 | after a batch a row of the scope is latest exactly if it was, or is new, and no proposal of the batch updates it |
| MemoryReplay.ReplayIdempotentIff | crates/storage/src/memories.rs:87-96 | replaying a batch changes nothing exactly if, judged on the batch and the tables before it, no proposal updates the row that answers another |
| MemoryReplay.ReplayOfAnUpdateChanges | crates/storage/src/memories.rs:132-137 | a batch whose second proposal updates the first is changed by a replay |
| MemoryRecords.NewMemoryIsAsProposed | crates/storage/src/memories.rs:98-124 | for a proposal with a new content, about the row that answers it: static exactly if proposed so and not updated by the batch, inferred exactly if proposed so or a parent found in scope derives, the proposed forgetting time exactly if it is still to come, the proposed reason, and an edge to every parent found |
| MemoryRecords.BatchWrites | crates/storage/src/memories.rs:85-153 | the rows and relations after a batch, from its proposals and the tables before: every field of each new row, its parent as the first one found, exactly the relations asked for, and each old row as it was unless the batch updates it |
| MemoryRecords.AnswersAsPlanned | crates/storage/src/memories.rs:87-96 | a proposal with a new content is answered by its own new row, any other by the row that has its content |
| MemoryRecords.SourcesAreAnswers | crates/storage/src/memories.rs:121-125 | the document becomes a source of exactly the answering rows |
| MemoryRecords.ForgetWrites | crates/storage/src/memories.rs:307-348 | forgetting changes exactly the oldest remembered row that the request names, in its flags, time and reason alone |
| MemoryRecords.UnlinkKeepsMemories | crates/storage/src/documents.rs:124-128 | deleting a document takes away its own sources and nothing else of the memory tables |
| MemoryStorage.MemoryTables.ActiveIdsByContent | crates/storage/src/lib.rs:921-942 | the loop builds the specified dedup map |
| MemoryStorage.MemoryTables.ResolveMemoryParents | crates/storage/src/lib.rs:887-919 | the loop resolves temporary ids and drops parents outside the scope |
| MemoryStorage.MemoryTables.CheckProposals | crates/storage/src/memories.rs:54-59 | the validation loop finds the first failing check |
| MemoryStorage.MemoryTables.AdmitProposal | crates/storage/src/memories.rs:85-153 | one proposal is merged into the row that has its content, or inserted and linked; `MemoryRecords.BatchWrites` says what that row holds |
| MemoryStorage.MemoryTables.ReconcileMemories | crates/storage/src/memories.rs:43-157 | the loops over proposals and parents yield the specified tables and records, described by `MemoryRecords.BatchWrites`, and an invalid batch changes nothing |
| MemoryStorage.MemoryTables.ForgetMemory | crates/storage/src/memories.rs:307-348 | forgets the row named by id, else the oldest forgettable row with the content, else nothing |
| ChunkingCoverage.ChunkTextSound | crates/memory-engine/src/chunking.rs:24-45 | exact errors and sizes; chunks trimmed and within the limit, none exactly for text of whitespace, NUL and replacement characters alone, and covering the ink of the text itself without those two characters, which is all of it if the text has neither |
| ChunkingCoverage.ChunkAtCovers | crates/memory-engine/src/chunking.rs:91-238 | with headings and overlaps cut off, the chunks hold the ink of the text but NUL and the replacement character in order, each once, and each adds some |
| ChunkingCoverage.NormalizeConcat | crates/memory-engine/src/chunking.rs:14-18 | normalizing works on parts of the text separately |
| ChunkingCoverage.NormalizeIsLegible | crates/memory-engine/src/chunking.rs:14-18 | exactly NUL and the replacement character are dropped, so a text with neither stays as it is |
| ChunkingCoverage.NormalizedInk | crates/memory-engine/src/chunking.rs:14-18 | the ink that is left to cover is that of the text without the two characters |
| ChunkingBoundaries.SentencesAre | crates/memory-engine/src/chunking.rs:155-172 | the sentences are exactly the nonblank stretches between one sentence end and the next, trimmed |
| ChunkingBoundaries.RetainedIsLongest | crates/memory-engine/src/chunking.rs:233-243 | the retained overlap is the longest run of last units that joins to at most 200 code units and half the limit |
| ChunkingBoundaries.PackIsGreedy | crates/memory-engine/src/chunking.rs:190-209 | a chunk is closed only when the next unit would exceed the limit, and the overlap is carried over exactly if the unit fits behind it |
| ChunkingBoundaries.FlushMergesShort | crates/memory-engine/src/chunking.rs:214-231 | a closed chunk is merged into the one before exactly if it is shorter than 322 code units and both fit |
| ChunkingBoundaries.HeadingIff | crates/memory-engine/src/chunking.rs:77-80 | a heading is one to six hashes and a space |
| ChunkingBoundaries.MarkdownIff | crates/memory-engine/src/chunking.rs:47-75 | text counts as Markdown exactly if the headings, fenced blocks, items, links, quotations and table rows outside of fenced blocks in its first hundred lines weigh three |
| ChunkingBoundaries.ContinuationsAreHeaded | crates/memory-engine/src/chunking.rs:98-113 | every later chunk of an oversized section with a heading starts with it unless it would not fit |
| ChunkingCoverage.ChunkPlainCovers | crates/memory-engine/src/chunking.rs:150-153 | the same for plain text |
| ChunkingCoverage.ChunkMarkdownCovers | crates/memory-engine/src/chunking.rs:91-125 | the same for Markdown; a heading is repeated only before new text of its own section, after the section's first chunk |
| ChunkingCoverage.PackCovers | crates/memory-engine/src/chunking.rs:174-212 | the packing loop with its recursive fallback covers what it consumed, carrying over at most the overlap budget |
| ChunkingCoverage.CarryOk | crates/memory-engine/src/chunking.rs:214-238 | what is carried over ends the chunk before and overflows with it, so the short tail is never merged into its own overlap |
| ChunkingCoverage.FlushCovers | crates/memory-engine/src/chunking.rs:214-231 | closing the pending units keeps the cover, whether merged or not |
| ChunkingCoverage.FixedWidthCovers | crates/memory-engine/src/chunking.rs:245-257 | character cutting covers the text without overlap |
| ChunkingCoverage.SplitSentencesInk | crates/memory-engine/src/chunking.rs:155-172 | sentences hold the text's ink in order |
| ChunkingCoverage.MarkdownSectionsInk | crates/memory-engine/src/chunking.rs:127-148 | sections hold the text's ink in order |
| ChunkingCoverage.BoundHoldsIff | crates/memory-engine/src/chunking.rs:245-257 | every chunk keeps the limit exactly if the limit is at least 2 or there is no astral character |
| ChunkingCoverage.DefaultChunksAreNotTruncated | crates/memory-engine/src/embedding.rs:285-302 | at the default size the 8000-unit truncation is the identity on every chunk |
| ChunkingCoverage.TruncatedIsLongest | crates/memory-engine/src/embedding.rs:285-302 | truncation keeps the longest prefix within the maximum |
| Chunking.ChunkUnitsLoop | crates/memory-engine/src/chunking.rs:174-212 | the packing loop equals the specification and terminates |
| Chunking.RetainOverlapLoop | crates/memory-engine/src/chunking.rs:233-238 | the overlap loop equals the specification |
| Chunking.FixedWidthLoop | crates/memory-engine/src/chunking.rs:245-257 | the cutting loop equals the specification |
| Chunking.SplitSentencesLoop | crates/memory-engine/src/chunking.rs:155-172 | the sentence loop equals the specification |
| Chunking.MarkdownSectionsLoop | crates/memory-engine/src/chunking.rs:127-148 | the section loop equals the specification |
| Chunking.RepeatHeadingLoop | crates/memory-engine/src/chunking.rs:104-111 | the loop over continuation chunks equals the specification |
| Chunking.ChunkMarkdownLoop | crates/memory-engine/src/chunking.rs:91-125 | the Markdown loop equals the specification |
| Chunking.ChunkTextLoops | crates/memory-engine/src/chunking.rs:24-45 | the loops together compute what the coverage and boundary results are about |
| Microbatch.MicrobatchLengths | crates/memory-engine/src/embedding_executor.rs:169-198 | fails exactly if an item exceeds the token limit, naming the first; otherwise partitions the input in order into maximal batches within the limits |
| Microbatch.MaximalIsOptimal | crates/memory-engine/src/embedding_executor.rs:177-197 | no ordered partition meeting the limits has fewer batches |
| Microbatch.MaximalIsUnique | crates/memory-engine/src/embedding_executor.rs:177-197 | a maximal partition with that many batches is the only one |
| Microbatch.EmbedOwned | crates/memory-engine/src/embedding_executor.rs:104-133 | submitting batch by batch returns every text with its own vector in input order |
| Scheduler.RunInv | crates/memory-engine/src/embedding_executor.rs:204-350 | for every arrival schedule no request is lost, duplicated or overtaken in its class, batches keep the limits and one class, and each served request is refused exactly if its batch failed and otherwise gets its own texts and vectors |
| Scheduler.NothingIsRefused | crates/memory-engine/src/embedding_executor.rs:318-331 | in a run whose dispatches all succeed every served request is answered with its own texts and vectors |
| Scheduler.BatchesAreDispatches | crates/memory-engine/src/embedding_executor.rs:318-347 | the k-th batch failed exactly if the k-th dispatch did |
| SchedulerProgress.EveryRequestIsAnswered | crates/memory-engine/src/embedding_executor.rs:204-350 | after any run, whatever the limits and whichever dispatches fail, the loop left to itself serves and answers every request that has arrived, in order, within measure many steps |
| Scheduler.Distributed | crates/memory-engine/src/embedding_executor.rs:317-332 | draining the results request by request gives each request its own |
| Scheduler.SendReplies | crates/memory-engine/src/embedding_executor.rs:319-331 | the draining loop equals the specification |
| Scheduler.CollectIsGreedy | crates/memory-engine/src/embedding_executor.rs:258-284 | a batch is closed only when full, when its queue is empty, or when the next request would break a limit and is deferred |
| Scheduler.AdmissibleBatches | crates/memory-engine/src/embedding_executor.rs:258-284 | when each request is admissible alone, every batch keeps both limits |
| Scheduler.PaddedBatches | crates/memory-engine/src/embedding_executor.rs:258-284 | and so does the number of its texts times the length of any of them |
| Scheduler.MicrobatchesAreAdmissible | crates/memory-engine/src/embedding_executor.rs:135-166 | what microbatching submits is admissible alone |
| Scheduler.QueriesYieldToBulk | crates/memory-engine/src/embedding_executor.rs:216-254 | while bulk work waits, at most four of any consecutive query selections come from the queue rather than the deferred slot |
| Scheduler.BulkYieldsToQueries | crates/memory-engine/src/embedding_executor.rs:216-254 | bulk work from its queue passes a waiting query only right after four query batches |
| SchedulerStarvation.DeferralStarves | crates/memory-engine/src/embedding_executor.rs:212-218 | for either class, any number of rounds and any request that chains under the limits, a run selects that class so often in a row while the other waits |
| SchedulerStarvation.WaitingIsBounded | crates/memory-engine/src/embedding_executor.rs:274-280 | under the other limits bulk work waits for at most five query batches in a row and a query for at most two bulk batches |
| SchedulerStarvation.StarvationIff | crates/supermemory/src/model_config.rs:156-159 | for every accepted configuration, exactly when waiting is unbounded, for requests in general and for requests of one item |
| SearchRanking.FuseCandidates | crates/server/src/search_engine.rs:490-538 | each id with evidence gets its first candidate and the sum of the weights of its places |
| SearchOrder.WeightIs | crates/server/src/search_engine.rs:533 | the weight of a place is the reciprocal of sixty plus the place, so an earlier place weighs more |
| SearchOrder.SoleRetrievalKeepsItsOrder | crates/server/src/search_engine.rs:490-538 | when one semantic retrieval alone returns candidates, each once, the ranking is exactly those in its order |
| SearchOrder.BetterPlacedComesFirst | crates/server/src/search_engine.rs:490-538 | a candidate better placed in every retrieval that mentions either of two comes before the other |
| SearchOrder.TiesBreakByKindAndId | crates/server/src/search_engine.rs:417-432 | of equal scores memories come before chunks, and then the smaller id comes first |
| SearchOrder.IdsIdentify | crates/server/src/search_engine.rs:61-65 | a memory and a chunk never share an id in the fused map |
| SearchRanking.RankingIsAFunctionOfEvidence | crates/server/src/search_engine.rs:490-538 | the ranked list depends neither on the order of the evidence nor on the map's |
| SearchRanking.BeforeIsStrictTotal | crates/server/src/search_engine.rs:417-432 | the comparator is a strict total order on candidates with distinct ids |
| SearchRanking.SelectDiverse | crates/server/src/search_engine.rs:540-566 | aggregation takes the first memories and best chunks per document, otherwise a prefix is taken |
| SearchRanking.FirstsAreBest | crates/server/src/search_engine.rs:551-563 | aggregation keeps of each document only its best-ranked chunk, keeps all memories, and keeps the order |
| SearchRanking.Reassemble | crates/server/src/search_engine.rs:380-405 | taking hydrated results out of the map restores the fused order |
| SearchRanking.FitSearchContext | crates/server/src/search_projection.rs:42-72 | the budgeting loop equals the specification |
| SearchRanking.FitWithinBudget | crates/server/src/search_projection.rs:10-12 | the response has at most 5000 bytes and no result more than 2500 |
| SearchRanking.FitFromInput | crates/server/src/search_projection.rs:37-41 | every returned result has the candidate, score and fact of a retrieved one, and all of its optional fields or none |
| SearchRanking.FitKeepsOrder | crates/server/src/search_projection.rs:44-71 | the response is in the order of the results |
| SearchRanking.DroppedUnreducedIff | crates/server/src/search_projection.rs:49-61 | exactly which results of a list are missing from the response although they would be in it without their optional fields |
| SearchRanking.DroppedUnreducedExample | crates/server/src/search_projection.rs:53-61 | such a result exists |
| SearchRanking.ResponseIsOrdered | crates/server/src/lib.rs:734 | reported similarities are nonincreasing within each kind of result |
| SearchSimilarity.MemoryMentions | crates/server/src/search_engine.rs:497-506 | a memory has at most two pieces of evidence |
| SearchSimilarity.ScoreBounds | crates/server/src/search_engine.rs:523-538 | each piece of evidence is worth between 1/560 and 1/61 |
| SearchSimilarity.MemoryReportsLess | crates/server/src/search_engine.rs:384-394 | a memory reports the square of its score, which is below the similarity of any chunk with evidence |
| SearchSimilarity.ResponseInOrderIff | crates/server/src/search_engine.rs:402-413 | for whatever the four retrievals return, the similarities of the hydrated results, and those of the budgeted response, are nonincreasing exactly when no memory comes before a chunk among them |
| SearchSimilarity.MemoryFirstReportsLess | crates/server/src/search_engine.rs:424-430 | a search whose memory and chunk are each first in their retrieval yields a response that is out of order |
| SearchRanking.Search | crates/server/src/search_engine.rs:338-413 | from evidence to response: the ranking, which `SearchOrder` describes, the selection, and exactly the fitted results of hydration, in order, within budget, with their facts |
| EnvFile.RoundTripIff | crates/supermemory/src/credentials.rs:223-263 | printing and parsing is the identity exactly on maps with valid names and newline-free values |
| EnvFile.UnescapeEscape | crates/supermemory/src/credentials.rs:244-259 | left-to-right unescaping stays aligned with the escape blocks |
| EnvFile.ParseEnvLoop | crates/supermemory/src/credentials.rs:223-242 | the parsing loop equals the specification and reports the first malformed line |
| EnvFile.ParsedIsValid | crates/supermemory/src/credentials.rs:229-239 | whatever the file, a parsed map has valid names and newline-free values |
| EnvFile.ParsesUnquoted | crates/supermemory/src/credentials.rs:244-255 | a value without quotes around it is taken as it stands |
| EnvFile.ParsesPadded | crates/supermemory/src/credentials.rs:244-246 | whitespace behind the equals sign does not belong to the value |
| EnvFile.ParsesDoubleQuoted | crates/supermemory/src/credentials.rs:244-255 | double quotes around a value are taken off |
| EnvFile.OtherLines | crates/supermemory/src/credentials.rs:225-239 | blank lines and comments change nothing, and any other line is malformed exactly if no valid name stands before its first equals sign |
| EnvFile.NameCharacters | crates/supermemory/src/credentials.rs:232-236 | names consist of capital letters, digits and underscores |
| EnvFile.FirstWindowsLine | crates/supermemory/src/credentials.rs:225 | a carriage return before a newline belongs to the line end |

## Left out

- Imported legacy rows: runs start from an empty store, because imported documents may have active statuses without jobs.
- A second process on the same database: recovery assumes that no other process holds claimed jobs.
- SQL itself: statements are atomic updates of maps; FTS and vector retrieval deliver arbitrary ranked lists.
- Failed commits, vector validation and a cached extraction that cannot be parsed: each is an abandoned worker.
- Cached extractions are kept as values, not as JSON text, and `last_error` texts are dropped; `last_error_kind` is kept.
- Chunk vectors are not stored in the model: they are only read by retrieval.
- The order of the dedup query (version, update time) is identifier order; `MemoryViews.IndexIgnoresOrder` shows that it does not matter.
- Unicode case folding of memory contents: normalization is a parameter.
- Relations outside the three kinds, proposal metadata and buckets: they do not influence the graph.
- Integer widths: counters are unbounded, so overflow of attempts, revisions and token products is not modelled.
- The separator of the packing loop is fixed to a space, which is what every caller passes.
- The capacity of the executor's queues, its shutdown and its timing logs: senders that wait simply arrive later.
- The limits on concurrent workers and the notification channels: any number of workers may claim at any time.
- Floating-point rounding of scores, NaN included: scores are reals.
- Rows that vanish between retrieval and hydration are modelled; a chunk whose row id changes in between is not.
- JSON serialization of results: their sizes are an arbitrary function.
- Encryption, key derivation and file writing of credentials; only the text format is modelled.
- HTTP, authentication, configuration files, health flags and provider prompts: they carry data to and from the parts modelled here and keep no state those parts depend on.
- Content sanitization and metadata filters: pure text and tree predicates; upserts take sanitized content, and retrieval is arbitrary.
- The grouping of the first version of the search endpoint: it presents retrieved hits and feeds nothing back.
