/** Short runs from the empty store that reach the states the other modules warn about. */
module JobExamples {
  import opened Options
  import opened JobStore
  import opened JobInvariants
  import opened JobProtocol
  import opened JobTransactions
  import JobLifecycle
  import JobOwnership
  import JobSafety

  lemma RunPush(actions: seq<Action>, a: Action)
    ensures Run(Initial, actions + [a]) == Step(Run(Initial, actions), a)
  {
    assert (actions + [a])[..|actions|] == actions;
  }

  /** The first uploaded document, at some status. */
  function First(org: string, input: Upsert, status: DocumentState): Document {
    Document(org, input.content, input.hash, input.customId, input.tags, input.metadata, input.attributes, status, 1)
  }

  /** The store with that document, and its job with so many attempts. */
  function FirstStore(org: string, input: Upsert, status: DocumentState, attempts: nat): Store {
    Store(map[0 := First(org, input, status)], map[1 := Job(0, DocumentJob, status, 1, attempts, 0, None, None)],
          map[0 := []], [], 2)
  }

  function FirstHandle(input: Upsert): ClaimedJob {
    ClaimedJob(1, 0, input.content, 1)
  }

  /** One worker at one stage of the first document. */
  function AtStage(org: string, input: Upsert, at: DocumentState): System {
    System(FirstStore(org, input, at, 1), map[0 := DocumentWorker(FirstHandle(input), at)], 1, 0, [])
  }

  lemma Uploaded(org: string, input: Upsert)
    ensures Run(Initial, [Upserting(org, input)]) == System(FirstStore(org, input, Queued, 0), map[], 0, 0, [])
  {
    RunPush([], Upserting(org, input));
    assert [] + [Upserting(org, input)] == [Upserting(org, input)];
    assert FindExisting(EmptyStore, org, input, 0) == None;
    var s := UpsertDocument(EmptyStore, org, input, 0).0;
    assert s.documents == FirstStore(org, input, Queued, 0).documents;
    assert s.jobs == FirstStore(org, input, Queued, 0).jobs;
    assert s.chunks == FirstStore(org, input, Queued, 0).chunks;
  }

  lemma FirstIsClaimable(org: string, input: Upsert)
    ensures OldestClaimable(FirstStore(org, input, Queued, 0), DocumentJob, 0, 2) == Some(1)
  {
    var s := FirstStore(org, input, Queued, 0);
    assert !Claimable(s, 0, DocumentJob, 0) && Claimable(s, 1, DocumentJob, 0);
    assert OldestClaimable(s, DocumentJob, 0, 1) == None;
  }

  lemma ClaimedFirst(org: string, input: Upsert)
    ensures Run(Initial, [Upserting(org, input), ClaimDocument]) == AtStage(org, input, Extracting)
  {
    Uploaded(org, input);
    RunPush([Upserting(org, input)], ClaimDocument);
    assert [Upserting(org, input)] + [ClaimDocument] == [Upserting(org, input), ClaimDocument];
    FirstIsClaimable(org, input);
    var s := ClaimJob(FirstStore(org, input, Queued, 0), 0).0;
    assert s.documents == FirstStore(org, input, Extracting, 1).documents;
    assert s.jobs == FirstStore(org, input, Extracting, 1).jobs;
  }

  lemma ChunkingFirst(org: string, input: Upsert)
    ensures Run(Initial, [Upserting(org, input), ClaimDocument, Advance(0)]) == AtStage(org, input, Chunking)
  {
    var before := [Upserting(org, input), ClaimDocument];
    ClaimedFirst(org, input);
    RunPush(before, Advance(0));
    assert before + [Advance(0)] == [Upserting(org, input), ClaimDocument, Advance(0)];
    AdvanceFirst(org, input, Extracting);
  }

  /** Without an embedding model every document that is not blank jumps from chunking to done. */
  lemma PlainPublicationJumps(org: string, input: Upsert)
    requires Chunks(input.content) != []
    ensures var before := Run(Initial, [Upserting(org, input), ClaimDocument, Advance(0)]);
            var after := Step(before, PublishPlain(0));
            && Enabled(before, PublishPlain(0)) && 0 in before.store.documents && 0 in after.store.documents
            && before.store.documents[0].status.Chunking? && after.store.documents[0].status.Done?
            && JobLifecycle.Undocumented(before.store.documents[0], after.store.documents[0])
  {
    var actions := [Upserting(org, input), ClaimDocument, Advance(0)];
    JobSafety.RunOk(actions);
    ChunkingFirst(org, input);
    JobLifecycle.StepMoves(Run(Initial, actions), PublishPlain(0));
  }

  lemma AbandonedFirst(org: string, input: Upsert)
    ensures Run(Initial, [Upserting(org, input), ClaimDocument, Abandon(0)])
            == System(FirstStore(org, input, Extracting, 1), map[], 1, 0, [])
  {
    var before := [Upserting(org, input), ClaimDocument];
    ClaimedFirst(org, input);
    RunPush(before, Abandon(0));
    assert before + [Abandon(0)] == [Upserting(org, input), ClaimDocument, Abandon(0)];
    AbandonFirst(org, input);
  }

  lemma AbandonFirst(org: string, input: Upsert)
    ensures Step(AtStage(org, input, Extracting), Abandon(0))
        == System(FirstStore(org, input, Extracting, 1), map[], 1, 0, [])
  {
    var sys := AtStage(org, input, Extracting);
    assert Leave(sys, sys.store, 0).workers == map[];
  }

  /** Abandoning the worker of a claimed document strands its job. */
  lemma AbandonedJobIsStranded(org: string, input: Upsert)
    ensures var sys := Run(Initial, [Upserting(org, input), ClaimDocument, Abandon(0)]);
            && 1 in sys.store.jobs && sys.store.jobs[1].status.Extracting? && !JobOwnership.HasWorker(sys.workers, 1)
            && !JobOwnership.Attended(sys)
  {
    AbandonedFirst(org, input);
    assert 1 in FirstStore(org, input, Extracting, 1).jobs;
  }

  // ---- a memory job that is rate limited again and again ------------------------------------------

  /** What the first document's publication writes. */
  function Published(input: Upsert): seq<string> {
    Prepared(Chunks(input.content))
  }

  /** The id of the memory job that the publication queues. */
  function FirstMemoryJob(input: Upsert): JobId {
    2 + |Published(input)|
  }

  /** The first document indexing, its chunks stored, its document job done, and its memory job as given. */
  function MemoryStore(org: string, input: Upsert, status: DocumentState, job: Job): Store {
    Store(map[0 := First(org, input, status)],
          map[1 := Job(0, DocumentJob, Done, 1, 1, 0, None, None), FirstMemoryJob(input) := job],
          map[0 := PublishedRows([], Published(input), 2)], [], FirstMemoryJob(input) + 1)
  }

  function MemoryJobRow(status: DocumentState, attempts: nat, at: nat, kind: Option<string>): Job {
    Job(0, MemoryJob, status, 1, attempts, at, None, kind)
  }

  lemma MarkFirst(org: string, input: Upsert, at: DocumentState)
    requires at in {Extracting, Chunking, Embedding}
    ensures MarkJobStage(FirstStore(org, input, at, 1), FirstHandle(input), NextStage(at))
            == (FirstStore(org, input, NextStage(at), 1), Ok(()))
  {
    var before, after := FirstStore(org, input, at, 1), FirstStore(org, input, NextStage(at), 1);
    assert before.documents[0 := before.documents[0].(status := NextStage(at))] == after.documents;
    assert before.jobs[1 := before.jobs[1].(status := NextStage(at))] == after.jobs;
  }

  /** Advancing the only worker of the first document. */
  lemma AdvanceFirst(org: string, input: Upsert, at: DocumentState)
    requires at in {Extracting, Chunking, Embedding} && (at.Chunking? ==> Chunks(input.content) != [])
    ensures Step(AtStage(org, input, at), Advance(0)) == AtStage(org, input, NextStage(at))
  {
    MarkFirst(org, input, at);
    assert AtStage(org, input, at).workers[0 := DocumentWorker(FirstHandle(input), NextStage(at))]
        == AtStage(org, input, NextStage(at)).workers;
  }

  lemma FinishFirst(org: string, input: Upsert)
    ensures FinishJob(PutChunks(FirstStore(org, input, Indexing, 1), 0, Published(input)), FirstHandle(input))
            == Store(map[0 := First(org, input, Indexing)], map[1 := Job(0, DocumentJob, Done, 1, 1, 0, None, None)],
                     map[0 := PublishedRows([], Published(input), 2)], [], FirstMemoryJob(input))
  {
    var s := FirstStore(org, input, Indexing, 1);
    assert s.jobs[1 := s.jobs[1].(status := Done)] == map[1 := Job(0, DocumentJob, Done, 1, 1, 0, None, None)];
    assert s.chunks[0 := PublishedRows([], Published(input), 2)] == map[0 := PublishedRows([], Published(input), 2)];
  }

  /** The store between finishing the first document's job and queueing its memory job. */
  function FinishedStore(org: string, input: Upsert): Store {
    FinishJob(PutChunks(FirstStore(org, input, Indexing, 1), 0, Published(input)), FirstHandle(input))
  }

  lemma FirstIndexIsFree(org: string, input: Upsert)
    ensures !IndexTaken(FinishedStore(org, input).jobs, 0, 1)
  {
    FinishFirst(org, input);
  }

  lemma QueueFirst(org: string, input: Upsert)
    ensures SetDocument(QueueJob(FinishedStore(org, input), NewJob(0, MemoryJob, 1, 0)), 0, 1, Indexing)
            == MemoryStore(org, input, Indexing, MemoryJobRow(Queued, 0, 0, None))
  {
    FinishFirst(org, input);
    var published := FinishedStore(org, input);
    var expected := MemoryStore(org, input, Indexing, MemoryJobRow(Queued, 0, 0, None));
    assert published.jobs[FirstMemoryJob(input) := NewJob(0, MemoryJob, 1, 0)] == expected.jobs;
    assert published.documents[0 := First(org, input, Indexing)] == expected.documents;
  }

  lemma PublishFirstStore(org: string, input: Upsert)
    ensures PublishJob(FirstStore(org, input, Indexing, 1), FirstHandle(input), Published(input), true, 0)
            == (MemoryStore(org, input, Indexing, MemoryJobRow(Queued, 0, 0, None)), Ok(()))
  {
    FirstIndexIsFree(org, input);
    QueueFirst(org, input);
    PublishUnfolds(FirstStore(org, input, Indexing, 1), FirstHandle(input), Published(input), 0);
  }

  lemma PublishUnfolds(s: Store, h: ClaimedJob, contents: seq<string>, now: nat)
    requires Current(s, h.doc, h.revision)
    ensures var published := FinishJob(PutChunks(s, h.doc, contents), h);
            !IndexTaken(published.jobs, h.doc, h.revision) ==>
              PublishJob(s, h, contents, true, now)
              == (SetDocument(QueueJob(published, NewJob(h.doc, MemoryJob, h.revision, now)), h.doc, h.revision,
                              Indexing), Ok(()))
  {
  }

  lemma PublishStep(sys: System, h: ClaimedJob)
    requires 0 in sys.workers && sys.workers[0] == DocumentWorker(h, Indexing)
    ensures Step(sys, PublishEmbedded(0, true))
            == Leave(sys, PublishJob(sys.store, h, Prepared(Chunks(h.content)), true, sys.now).0, 0)
  {
    assert Enabled(sys, PublishEmbedded(0, true));
  }

  lemma LastLeaves(sys: System, s: Store, worker: Worker)
    requires sys.workers == map[0 := worker]
    ensures Leave(sys, s, 0) == sys.(store := s, workers := map[])
  {
    assert Leave(sys, s, 0).workers == map[];
  }

  lemma PublishFirst(org: string, input: Upsert)
    ensures Step(AtStage(org, input, Indexing), PublishEmbedded(0, true))
            == System(MemoryStore(org, input, Indexing, MemoryJobRow(Queued, 0, 0, None)), map[], 1, 0, [])
  {
    var s := MemoryStore(org, input, Indexing, MemoryJobRow(Queued, 0, 0, None));
    PublishFirstStore(org, input);
    PublishStep(AtStage(org, input, Indexing), FirstHandle(input));
    LastLeaves(AtStage(org, input, Indexing), s, DocumentWorker(FirstHandle(input), Indexing));
  }

  /** Job m is the only queued job, due, and has been requeued after each of n attempts. */
  ghost predicate AfterAttempts(sys: System, m: JobId, n: nat) {
    && StoreOk(sys.store) && Claimable(sys.store, m, MemoryJob, sys.now)
    && OnlyQueued(sys.store, m)
    && sys.store.jobs[m].doc == 0 && sys.store.jobs[m].attempts == n && sys.store.jobs[m].extraction.None?
    && sys.workers == map[] && sys.nextWorker == n + 1 && JobSafety.Requeues(sys.history, m) == n
  }

  /** Upload and embedded publication of the first document. */
  function Publication(org: string, input: Upsert): seq<Action> {
    [Upserting(org, input), ClaimDocument, Advance(0)] + [Advance(0)] + [Advance(0)] + [PublishEmbedded(0, true)]
  }

  lemma IndexingFirst(org: string, input: Upsert)
    requires Chunks(input.content) != []
    ensures Run(Initial, [Upserting(org, input), ClaimDocument, Advance(0)] + [Advance(0)] + [Advance(0)])
            == AtStage(org, input, Indexing)
  {
    var chunking := [Upserting(org, input), ClaimDocument, Advance(0)];
    ChunkingFirst(org, input);
    RunPush(chunking, Advance(0));
    AdvanceFirst(org, input, Chunking);
    RunPush(chunking + [Advance(0)], Advance(0));
    AdvanceFirst(org, input, Embedding);
  }

  lemma PublicationRuns(org: string, input: Upsert)
    requires Chunks(input.content) != []
    ensures Run(Initial, Publication(org, input))
            == System(MemoryStore(org, input, Indexing, MemoryJobRow(Queued, 0, 0, None)), map[], 1, 0, [])
  {
    IndexingFirst(org, input);
    RunPush([Upserting(org, input), ClaimDocument, Advance(0)] + [Advance(0)] + [Advance(0)], PublishEmbedded(0, true));
    PublishFirst(org, input);
  }

  lemma PublishedOnce(org: string, input: Upsert)
    requires Chunks(input.content) != []
    ensures AfterAttempts(Run(Initial, Publication(org, input)), FirstMemoryJob(input), 0)
  {
    PublicationRuns(org, input);
    JobSafety.RunOk(Publication(org, input));
  }

  lemma ClaimAttempt(sys: System, m: JobId, n: nat)
    requires AfterAttempts(sys, m, n)
    ensures var h := MemoryHandle(sys.store, m);
            var s := sys.store.(jobs := sys.store.jobs[m := Claimed(sys.store.jobs[m])]);
            && Step(sys, ClaimMemory) == System(s, map[n + 1 := MemoryWorker(h, Fresh)], n + 2, sys.now, sys.history)
            && StoreOk(s) && OwnsMemoryJob(s, h) && Current(s, h.doc, h.revision) && OnlyQueued(s, m)
  {
    ClaimMemoryJobShape(sys.store, sys.now);
    assert OldestClaimable(sys.store, MemoryJob, sys.now, sys.store.nextId) == Some(m);
    ClaimedMemoryOk(sys.store, m);
  }

  lemma FailAttempt(sys: System, h: ClaimedMemoryJob, w: nat, s: Store)
    requires RetryMemoryJob(sys.store, h, "rate_limited", RetryDelay(RateLimited, h.attempts), sys.now).0 == s
    requires sys.workers == map[w := MemoryWorker(h, Fresh)] && h.extraction.None? && h.id in s.jobs
    ensures Step(sys, ProviderFailure(w, RateLimited))
            == System(s, map[], sys.nextWorker, sys.now,
                      if s.jobs[h.id].status.Queued? then sys.history + [Requeued(h.id)] else sys.history)
  {
    assert Leave(sys, s, w).workers == map[];
  }

  ghost predicate OnlyQueued(s: Store, m: JobId) {
    forall j | j in s.jobs && s.jobs[j].status.Queued? :: j == m
  }

  /** The store after one of the first three attempts failed: the job is queued, and claimable within 64 seconds. */
  lemma RetriedAttempt(s: Store, h: ClaimedMemoryJob, now: nat)
    requires StoreOk(s) && OwnsMemoryJob(s, h) && Current(s, h.doc, h.revision) && OnlyQueued(s, h.id)
    requires 1 <= h.attempts <= 3
    ensures var r := RetryMemoryJob(s, h, "rate_limited", RetryDelay(RateLimited, h.attempts), now).0;
            && StoreOk(r) && OnlyQueued(r, h.id) && Claimable(r, h.id, MemoryJob, now + 64)
            && h.id in s.jobs && r.jobs[h.id].doc == h.doc && r.jobs[h.id].attempts == h.attempts
            && r.jobs[h.id].extraction == s.jobs[h.id].extraction
  {
    var delay := RetryDelay(RateLimited, h.attempts);
    RetryShape(s, h, "rate_limited", delay, now);
    RetryMemoryJobOk(s, h, "rate_limited", delay, now);
    RetryOutcome(s, h, "rate_limited", delay, now);
    Backoff(RateLimited, h.attempts);
  }

  /** One rate-limited attempt and the passing of its delay. */
  function Round(n: nat): seq<Action> {
    [ClaimMemory, ProviderFailure(n + 1, RateLimited), Tick(64)]
  }

  lemma RunRound(actions: seq<Action>, n: nat)
    ensures Run(Initial, actions + Round(n))
            == Step(Step(Step(Run(Initial, actions), ClaimMemory), ProviderFailure(n + 1, RateLimited)), Tick(64))
  {
    var fail := ProviderFailure(n + 1, RateLimited);
    RunPush(actions, ClaimMemory);
    RunPush(actions + [ClaimMemory], fail);
    RunPush(actions + [ClaimMemory] + [fail], Tick(64));
    assert actions + Round(n) == actions + [ClaimMemory] + [fail] + [Tick(64)];
  }

  /** The first three rate-limited attempts put the job back. */
  lemma RoundRequeues(sys: System, m: JobId, n: nat)
    requires AfterAttempts(sys, m, n) && n <= 2
    ensures AfterAttempts(Step(Step(Step(sys, ClaimMemory), ProviderFailure(n + 1, RateLimited)), Tick(64)), m, n + 1)
  {
    ClaimAttempt(sys, m, n);
    var claimed, h, delay := Step(sys, ClaimMemory), MemoryHandle(sys.store, m), RetryDelay(RateLimited, n + 1);
    RetriedAttempt(claimed.store, h, sys.now);
    FailAttempt(claimed, h, n + 1, RetryMemoryJob(claimed.store, h, "rate_limited", delay, sys.now).0);
    JobSafety.Counted(sys.history, Requeued(m), m);
  }

  /** The fourth ends the job and its document. */
  lemma RoundFails(sys: System, m: JobId)
    requires AfterAttempts(sys, m, 3)
    ensures var after := Step(Step(Step(sys, ClaimMemory), ProviderFailure(4, RateLimited)), Tick(64));
            && m in after.store.jobs && after.store.jobs[m].status.Failed?
            && 0 in after.store.documents && after.store.documents[0].status.Failed?
            && JobSafety.Requeues(after.history, m) == 3
  {
    ClaimAttempt(sys, m, 3);
    var claimed, h, delay := Step(sys, ClaimMemory), MemoryHandle(sys.store, m), RetryDelay(RateLimited, 4);
    RetryOutcome(claimed.store, h, "rate_limited", delay, sys.now);
    FailAttempt(claimed, h, 4, RetryMemoryJob(claimed.store, h, "rate_limited", delay, sys.now).0);
  }

  lemma NextAttempt(actions: seq<Action>, m: JobId, n: nat)
    requires AfterAttempts(Run(Initial, actions), m, n) && n <= 2
    ensures AfterAttempts(Run(Initial, actions + Round(n)), m, n + 1)
  {
    RunRound(actions, n);
    RoundRequeues(Run(Initial, actions), m, n);
  }

  lemma LastAttempt(actions: seq<Action>, m: JobId)
    requires AfterAttempts(Run(Initial, actions), m, 3)
    ensures var after := Run(Initial, actions + Round(3));
            && m in after.store.jobs && after.store.jobs[m].status.Failed?
            && 0 in after.store.documents && after.store.documents[0].status.Failed?
            && JobSafety.Requeues(after.history, m) == 3
  {
    RunRound(actions, 3);
    RoundFails(Run(Initial, actions), m);
  }

  lemma ThreeAttempts(start: seq<Action>, m: JobId)
    requires AfterAttempts(Run(Initial, start), m, 0)
    ensures AfterAttempts(Run(Initial, start + Round(0) + Round(1) + Round(2)), m, 3)
  {
    NextAttempt(start, m, 0);
    NextAttempt(start + Round(0), m, 1);
    NextAttempt(start + Round(0) + Round(1), m, 2);
  }

  /** Whatever is uploaded, unless it is blank: its memory job can be requeued three times, and not a fourth time. */
  lemma ThreeRetriesThenFailure(org: string, input: Upsert)
    requires Chunks(input.content) != []
    ensures var m := FirstMemoryJob(input);
            var three := Publication(org, input) + Round(0) + Round(1) + Round(2);
            var retried, failed := Run(Initial, three), Run(Initial, three + Round(3));
            && m in retried.store.jobs && retried.store.jobs[m].status.Queued?
            && JobSafety.Requeues(retried.history, m) == 3
            && m in failed.store.jobs && failed.store.jobs[m].status.Failed?
            && 0 in failed.store.documents && failed.store.documents[0].status.Failed?
            && JobSafety.Requeues(failed.history, m) == 3
  {
    var three := Publication(org, input) + Round(0) + Round(1) + Round(2);
    PublishedOnce(org, input);
    ThreeAttempts(Publication(org, input), FirstMemoryJob(input));
    LastAttempt(three, FirstMemoryJob(input));
  }
}
