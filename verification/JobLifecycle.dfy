/** How documents move from state to state, and what a stale handle can still do: nothing. */
module JobLifecycle {
  import opened Options
  import opened JobStore
  import opened JobInvariants
  import opened JobTransactions
  import opened JobUpserts
  import opened JobRecovery
  import opened JobProtocol
  import JobSafety
  import Memories

  // ---- status edges -------------------------------------------------------------------------------

  /** Staying, or a documented transition. */
  predicate Edge(from: DocumentState, to: DocumentState) {
    from == to || Transition(from, to)
  }

  const Pipeline := [DocumentState.Queued, Extracting, DocumentState.Chunking, Embedding, Indexing, Done]

  /** The documented edges: one stage further, from any stage but the last to failed, or queued to begin with or
      again. */
  lemma TransitionIs(from: DocumentState, to: DocumentState)
    ensures Transition(from, to)
            <==> (exists k :: 0 <= k < |Pipeline| - 1 && Pipeline[k] == from && Pipeline[k + 1] == to)
                 || (to.Failed? && from in Pipeline[..|Pipeline| - 1])
                 || (to.Queued? && (from.Unknown? || from.Failed?))
  {
    assert Pipeline[0] == Queued && Pipeline[1] == Extracting && Pipeline[2] == Chunking && Pipeline[3] == Embedding
        && Pipeline[4] == Indexing && Pipeline[5] == Done;
    if k :| 0 <= k < |Pipeline| - 1 && Pipeline[k] == from && Pipeline[k + 1] == to {
      assert k == 0 || k == 1 || k == 2 || k == 3 || k == 4;
    }
  }

  /** What a step does to a document: one edge within a revision, or the next revision queued. */
  ghost predicate Moves(before: Document, after: Document) {
    && after.org == before.org
    && if after.revision == before.revision then after.content == before.content && Edge(before.status, after.status)
       else after.revision == before.revision + 1 && after.status.Queued?
            && (Settled(before.status) || before.status.Indexing?)
  }

  ghost predicate DocumentsMove(s: Store, r: Store) {
    && s.nextId <= r.nextId
    && forall d | d in r.documents ::
         if d in s.documents then Moves(s.documents[d], r.documents[d])
         else d >= s.nextId && r.documents[d].revision == 1 && r.documents[d].status.Queued?
  }

  lemma SameMoves(s: Store, r: Store)
    requires r.documents == s.documents && s.nextId <= r.nextId
    ensures DocumentsMove(s, r)
  {
  }

  lemma RewriteMoves(s: Store, id: JobId, job: Job, status: DocumentState)
    requires job.doc in s.documents && Edge(s.documents[job.doc].status, status)
    ensures DocumentsMove(s, Rewrite(s, id, job, status))
  {
  }

  lemma ClaimDocumentMoves(s: Store, now: nat)
    requires StoreOk(s)
    ensures DocumentsMove(s, ClaimJob(s, now).0)
  {
    var found := OldestClaimable(s, DocumentJob, now, s.nextId);
    ClaimJobShape(s, now);
    if found.Some? {
      assert JobOk(s, found.value);
      RewriteMoves(s, found.value, Claimed(s.jobs[found.value]), Extracting);
    }
  }

  lemma AdvanceMoves(s: Store, h: ClaimedJob, at: DocumentState)
    requires StoreOk(s) && OwnsJob(s, h, at) && (at.Extracting? || at.Chunking? || at.Embedding?)
    ensures DocumentsMove(s, MarkJobStage(s, h, NextStage(at)).0)
  {
    MarkJobStageShape(s, h, at, NextStage(at));
    OwnerIsCurrent(s, h, at);
    if h.id in s.jobs { RewriteMoves(s, h.id, s.jobs[h.id].(status := NextStage(at)), NextStage(at)); }
  }

  lemma PublishMoves(s: Store, h: ClaimedJob, schedule: bool, now: nat)
    requires StoreOk(s) && OwnsJob(s, h, Indexing) && Chunks(h.content) != []
    ensures DocumentsMove(s, PublishJob(s, h, Chunks(h.content), schedule, now).0)
  {
    PublishShape(s, h, Indexing, schedule, now);
    OwnerIsCurrent(s, h, Indexing);
  }

  /** The jump of the embedding-free path: the handle's document, when it still exists, goes from chunking to done. */
  ghost predicate DocumentJumps(s: Store, r: Store, h: ClaimedJob) {
    && s.nextId <= r.nextId
    && if h.doc in s.documents then
         && Current(s, h.doc, h.revision) && s.documents[h.doc].status.Chunking?
         && r.documents == s.documents[h.doc := s.documents[h.doc].(status := Done)]
       else r.documents == s.documents
  }

  lemma PlainPublishJumps(s: Store, h: ClaimedJob, now: nat)
    requires StoreOk(s) && OwnsJob(s, h, Chunking) && Chunks(h.content) != []
    ensures DocumentJumps(s, PublishJob(s, h, Chunks(h.content), false, now).0, h)
  {
    PublishShape(s, h, Chunking, false, now);
    OwnerIsCurrent(s, h, Chunking);
  }

  lemma FailMoves(s: Store, h: ClaimedJob, at: DocumentState)
    requires StoreOk(s) && OwnsJob(s, h, at)
    ensures DocumentsMove(s, FailJob(s, h))
  {
    OwnerIsCurrent(s, h, at);
  }

  lemma ClaimMemoryMoves(s: Store, now: nat)
    requires StoreOk(s)
    ensures DocumentsMove(s, ClaimMemoryJob(s, now).0)
  {
    ClaimMemoryJobShape(s, now);
  }

  lemma RetryMoves(s: Store, h: ClaimedMemoryJob, kind: string, delay: Option<nat>, now: nat)
    requires StoreOk(s) && OwnsMemoryJob(s, h)
    ensures DocumentsMove(s, RetryMemoryJob(s, h, kind, delay, now).0)
  {
    RetryShape(s, h, kind, delay, now);
    MemoryOwnerState(s, h);
  }

  lemma CompleteMoves(s: Store, h: ClaimedMemoryJob)
    requires StoreOk(s) && OwnsMemoryJob(s, h)
    ensures DocumentsMove(s, CompleteMemoryJob(s, h).0)
  {
    CompleteShape(s, h);
    MemoryOwnerState(s, h);
  }

  lemma ReconcileMoves(s: Store, h: ClaimedMemoryJob, candidates: seq<Memories.Proposal>, now: nat)
    requires StoreOk(s) && OwnsMemoryJob(s, h)
    ensures DocumentsMove(s, ReconcileMemories(s, h, candidates, now).0)
  {
    MemoryOwnerState(s, h);
  }

  lemma RetagMoves(s: Store, doc: DocId, metadata: Metadata)
    requires doc in s.documents
    ensures DocumentsMove(s, Retagged(s, doc, metadata))
  {
  }

  lemma CreateMoves(s: Store, org: string, input: Upsert, now: nat)
    requires Keys(s)
    ensures DocumentsMove(s, Created(s, org, input, now))
  {
  }

  lemma UpsertMoves(s: Store, org: string, input: Upsert, now: nat)
    requires StoreOk(s)
    ensures DocumentsMove(s, UpsertDocument(s, org, input, now).0)
  {
    UpsertShape(s, org, input, now);
    match OutcomeOf(s, org, input)
    case Nothing => SameMoves(s, s);
    case Retag(doc, metadata) => RetagMoves(s, doc, metadata);
    case Rewriting(doc) => ReissueMoves(s, doc, input, now);
    case Creation => CreateMoves(s, org, input, now);
  }

  /** A document without an active document job is settled, or indexing under a memory job. */
  lemma IdleDocument(s: Store, doc: DocId)
    requires StoreOk(s) && doc in s.documents && !DocumentActive(s, doc)
    ensures Settled(s.documents[doc].status) || s.documents[doc].status.Indexing?
  {
    assert DocOk(s, doc);
    if !Settled(s.documents[doc].status) {
      var j :| ActiveFor(s.jobs, j, doc);
      assert JobOk(s, j);
    }
  }

  lemma ReissueMoves(s: Store, doc: DocId, input: Upsert, now: nat)
    requires StoreOk(s) && doc in s.documents && !DocumentActive(s, doc)
    ensures DocumentsMove(s, Reissued(s, doc, input, now))
  {
    IdleDocument(s, doc);
  }

  /** A restart takes documents in progress back to queued, and keeps their revision. */
  ghost predicate DocumentsRestart(s: Store, r: Store) {
    && s.nextId == r.nextId && r.documents.Keys == s.documents.Keys
    && forall d | d in s.documents ::
         && r.documents[d] == s.documents[d].(status := r.documents[d].status)
         && (r.documents[d].status == s.documents[d].status
               || (InProgress(s.documents[d].status) && r.documents[d].status.Queued?))
  }

  lemma RestartMoves(s: Store, now: nat)
    requires StoreOk(s)
    ensures DocumentsRestart(s, Initialize(s, now))
  {
    InitializeShape(s, now);
  }

  lemma ExtractStepMoves(sys: System, w: nat, candidates: seq<Memories.Proposal>)
    requires IsMemoryWorker(sys, w)
    ensures DocumentsMove(sys.store, ExtractStep(sys, w, candidates).store)
  {
    SameMoves(sys.store, CacheExtraction(sys.store, sys.workers[w].task, candidates).0);
  }

  lemma RetryStepMoves(sys: System, w: nat, kind: string, delay: Option<nat>)
    requires JobSafety.Inv(sys) && IsMemoryWorker(sys, w)
    ensures DocumentsMove(sys.store, RetryStep(sys, w, kind, delay).store)
  {
    assert JobSafety.Owns(sys.store, sys.workers[w]);
    RetryMoves(sys.store, sys.workers[w].task, kind, delay, sys.now);
  }

  lemma ReconcileStepMoves(sys: System, w: nat)
    requires JobSafety.Inv(sys) && IsMemoryWorker(sys, w) && sys.workers[w].phase.Extracted?
    ensures DocumentsMove(sys.store, ReconcileStep(sys, w).store)
  {
    assert JobSafety.Owns(sys.store, sys.workers[w]);
    ReconcileMoves(sys.store, sys.workers[w].task, sys.workers[w].phase.candidates, sys.now);
  }

  lemma CompleteStepMoves(sys: System, w: nat)
    requires JobSafety.Inv(sys) && IsMemoryWorker(sys, w)
    ensures DocumentsMove(sys.store, CompleteStep(sys, w).store)
  {
    assert JobSafety.Owns(sys.store, sys.workers[w]);
    CompleteMoves(sys.store, sys.workers[w].task);
  }

  lemma MemoryStepMoves(sys: System, a: Action)
    requires JobSafety.Inv(sys) && Enabled(sys, a)
    requires IsMemoryStep(a)
    ensures DocumentsMove(sys.store, Perform(sys, a).store)
  {
    match a
    case ReuseExtraction(w) => SameMoves(sys.store, sys.store);
    case Extract(w, candidates) => ExtractStepMoves(sys, w, candidates);
    case ProviderFailure(w, failure) =>
      RetryStepMoves(sys, w, FailureName(failure), RetryDelay(failure, sys.workers[w].task.attempts));
    case InternalFailure(w) =>
      RetryStepMoves(sys, w, if sys.workers[w].phase.Failing? then "reconciliation" else "embedding", Some(1));
    case Reconcile(w) => ReconcileStepMoves(sys, w);
    case Complete(w) => CompleteStepMoves(sys, w);
  }

  /** Steps that rewrite no document: at most one disappears. */
  lemma QuietStepMoves(sys: System, a: Action)
    requires Enabled(sys, a) && (a.Tick? || a.Deleting? || a.Forgetting? || a.DeleteEmpty? || a.Abandon?)
    ensures DocumentsMove(sys.store, Perform(sys, a).store)
  {
  }

  lemma DocumentStepMoves(sys: System, a: Action)
    requires JobSafety.Inv(sys) && Enabled(sys, a)
    requires IsDocumentStep(a) && !a.PublishPlain?
    ensures DocumentsMove(sys.store, Perform(sys, a).store)
  {
    match a
    case Advance(w) =>
      assert JobSafety.Owns(sys.store, sys.workers[w]);
      AdvanceMoves(sys.store, sys.workers[w].job, sys.workers[w].at);
    case PublishEmbedded(w, schedule) =>
      assert JobSafety.Owns(sys.store, sys.workers[w]);
      JobSafety.PreparedChunks(sys.workers[w].job.content);
      PublishMoves(sys.store, sys.workers[w].job, schedule, sys.now);
    case DeleteEmpty(_) => QuietStepMoves(sys, a);
    case FailDocument(w) =>
      assert JobSafety.Owns(sys.store, sys.workers[w]);
      FailMoves(sys.store, sys.workers[w].job, sys.workers[w].at);
  }

  lemma PlainStepJumps(sys: System, w: nat)
    requires JobSafety.Inv(sys) && Enabled(sys, PublishPlain(w))
    ensures DocumentJumps(sys.store, Perform(sys, PublishPlain(w)).store, sys.workers[w].job)
  {
    assert JobSafety.Owns(sys.store, sys.workers[w]);
    PlainPublishJumps(sys.store, sys.workers[w].job, sys.now);
  }

  /** The steps that neither restart nor publish plainly. */
  lemma PerformMoves(sys: System, a: Action)
    requires JobSafety.Inv(sys) && Enabled(sys, a) && !a.Restart? && !a.PublishPlain?
    ensures DocumentsMove(sys.store, Perform(sys, a).store)
  {
    if IsDocumentStep(a) {
      DocumentStepMoves(sys, a);
    } else if IsMemoryStep(a) {
      MemoryStepMoves(sys, a);
    } else {
      match a
      case Upserting(org, input) => UpsertMoves(sys.store, org, input, sys.now);
      case ClaimDocument => ClaimDocumentMoves(sys.store, sys.now);
      case ClaimMemory => ClaimMemoryMoves(sys.store, sys.now);
      case _ => QuietStepMoves(sys, a);
    }
  }

  /** In every reachable state, a step moves document states along documented edges, restarts them, or publishes
      plainly. */
  lemma StepMoves(sys: System, a: Action)
    requires JobSafety.Inv(sys)
    ensures if a.Restart? then DocumentsRestart(sys.store, Step(sys, a).store)
            else if a.PublishPlain? && Enabled(sys, a)
            then DocumentJumps(sys.store, Step(sys, a).store, sys.workers[a.w].job)
            else DocumentsMove(sys.store, Step(sys, a).store)
  {
    if !Enabled(sys, a) {
      SameMoves(sys.store, sys.store);
    } else if a.Restart? {
      RestartMoves(sys.store, sys.now);
    } else if a.PublishPlain? {
      PlainStepJumps(sys, a.w);
    } else {
      PerformMoves(sys, a);
    }
  }

  /** A change of status within one revision that DocumentState::transition does not permit. */
  predicate Undocumented(before: Document, after: Document) {
    after.revision == before.revision && after.status != before.status && !Transition(before.status, after.status)
  }

  lemma MovesAreDocumented(s: Store, r: Store, d: DocId)
    requires DocumentsMove(s, r) && d in s.documents && d in r.documents
    ensures !Undocumented(s.documents[d], r.documents[d])
  {
  }

  lemma JumpIsUndocumented(s: Store, r: Store, h: ClaimedJob, d: DocId)
    requires DocumentJumps(s, r, h) && d in s.documents && d in r.documents
    ensures Undocumented(s.documents[d], r.documents[d]) <==> h.doc == d && h.revision == s.documents[d].revision
  {
  }

  /**
   Between restarts a document leaves along an undocumented edge exactly when a worker publishes its current revision
   without embeddings.
   */
  lemma UndocumentedIff(sys: System, a: Action, d: DocId)
    requires JobSafety.Inv(sys) && !a.Restart? && d in sys.store.documents && d in Step(sys, a).store.documents
    ensures Undocumented(sys.store.documents[d], Step(sys, a).store.documents[d])
            <==> && a.PublishPlain? && Enabled(sys, a)
                 && sys.workers[a.w].job.doc == d && sys.workers[a.w].job.revision == sys.store.documents[d].revision
  {
    var r := Step(sys, a).store;
    StepMoves(sys, a);
    if a.PublishPlain? && Enabled(sys, a) {
      JumpIsUndocumented(sys.store, r, sys.workers[a.w].job, d);
    } else {
      MovesAreDocumented(sys.store, r, d);
    }
  }

  // ---- fencing ------------------------------------------------------------------------------------

  /** A handle on a document that is gone, or was rewritten since. */
  predicate Stale(s: Store, doc: DocId, revision: nat) {
    doc < s.nextId && (doc in s.documents ==> revision < s.documents[doc].revision)
  }

  /** No document, chunk or memory changes, nor any job but the handle's own. */
  ghost predicate Untouched(s: Store, r: Store, id: JobId) {
    && r.documents == s.documents && r.chunks == s.chunks && r.log == s.log
    && r.jobs.Keys == s.jobs.Keys && forall j | j in s.jobs && j != id :: r.jobs[j] == s.jobs[j]
  }

  lemma StaleDocumentHandle(s: Store, h: ClaimedJob, stage: DocumentState, contents: seq<string>, schedule: bool,
                            now: nat)
    requires Stale(s, h.doc, h.revision)
    ensures Untouched(s, MarkJobStage(s, h, stage).0, h.id)
    ensures Untouched(s, PublishJob(s, h, contents, schedule, now).0, h.id)
    ensures Untouched(s, FailJob(s, h), h.id)
    ensures Untouched(s, DeleteEmptyDocument(s, h, now), h.id)
  {
  }

  lemma StaleMemoryHandle(s: Store, h: ClaimedMemoryJob, ps: seq<Memories.Proposal>, kind: string, delay: Option<nat>,
                          now: nat)
    requires Stale(s, h.doc, h.revision)
    ensures Untouched(s, CacheExtraction(s, h, ps).0, h.id)
    ensures Untouched(s, CompleteMemoryJob(s, h).0, h.id)
    ensures Untouched(s, RetryMemoryJob(s, h, kind, delay, now).0, h.id)
    ensures Untouched(s, ReconcileMemories(s, h, ps, now).0, h.id)
  {
  }

  lemma {:induction false} StaleForever(sys: System, actions: seq<Action>, doc: DocId, revision: nat)
    requires JobSafety.Inv(sys) && Stale(sys.store, doc, revision)
    ensures JobSafety.Inv(Run(sys, actions)) && Stale(Run(sys, actions).store, doc, revision)
  {
    if actions != [] {
      var front, a := actions[..|actions| - 1], actions[|actions| - 1];
      StaleForever(sys, front, doc, revision);
      JobSafety.StepOk(Run(sys, front), a);
      StepMoves(Run(sys, front), a);
    }
  }

  /** Once stale, a document handle can never again change a document, a chunk or a memory, whatever happens in
      between. */
  lemma DocumentHandleFenced(sys: System, actions: seq<Action>, h: ClaimedJob, stage: DocumentState,
                             contents: seq<string>, schedule: bool)
    requires JobSafety.Inv(sys) && Stale(sys.store, h.doc, h.revision)
    ensures var s, now := Run(sys, actions).store, Run(sys, actions).now;
            && Untouched(s, MarkJobStage(s, h, stage).0, h.id)
            && Untouched(s, PublishJob(s, h, contents, schedule, now).0, h.id)
            && Untouched(s, FailJob(s, h), h.id)
            && Untouched(s, DeleteEmptyDocument(s, h, now), h.id)
  {
    StaleForever(sys, actions, h.doc, h.revision);
    StaleDocumentHandle(Run(sys, actions).store, h, stage, contents, schedule, Run(sys, actions).now);
  }

  /** The same for a memory handle. */
  lemma MemoryHandleFenced(sys: System, actions: seq<Action>, h: ClaimedMemoryJob, ps: seq<Memories.Proposal>,
                           kind: string, delay: Option<nat>)
    requires JobSafety.Inv(sys) && Stale(sys.store, h.doc, h.revision)
    ensures var s, now := Run(sys, actions).store, Run(sys, actions).now;
            && Untouched(s, CacheExtraction(s, h, ps).0, h.id)
            && Untouched(s, CompleteMemoryJob(s, h).0, h.id)
            && Untouched(s, RetryMemoryJob(s, h, kind, delay, now).0, h.id)
            && Untouched(s, ReconcileMemories(s, h, ps, now).0, h.id)
  {
    StaleForever(sys, actions, h.doc, h.revision);
    StaleMemoryHandle(Run(sys, actions).store, h, ps, kind, delay, Run(sys, actions).now);
  }
}
