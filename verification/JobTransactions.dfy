/** The transactions on memory jobs: their shapes on owned handles, and that they keep the invariant. */
module JobTransactions {
  import opened Options
  import opened JobStore
  import opened JobInvariants
  import Memories

  // ---- memory jobs --------------------------------------------------------------------------------

  function MemoryHandle(s: Store, id: JobId): ClaimedMemoryJob
    requires Keys(s) && id in s.jobs
  {
    var job, document := s.jobs[id], s.documents[s.jobs[id].doc];
    ClaimedMemoryJob(id, job.doc, document.content, job.revision, document.org,
                     if document.tags == [] then "sm_project_default" else document.tags[0],
                     job.extraction, job.attempts + 1)
  }

  lemma ClaimMemoryJobShape(s: Store, now: nat)
    requires Keys(s)
    ensures var found := OldestClaimable(s, MemoryJob, now, s.nextId);
            ClaimMemoryJob(s, now) ==
              if found.None? then (s, None)
              else (s.(jobs := s.jobs[found.value := Claimed(s.jobs[found.value])]), Some(MemoryHandle(s, found.value)))
  {
  }

  /** A queued memory job's document is indexing, so claiming it rewrites the job row alone. */
  lemma ClaimedMemoryOk(s: Store, id: JobId)
    requires StoreOk(s) && id in s.jobs && s.jobs[id].status.Queued? && s.jobs[id].kind.MemoryJob?
    ensures var r := s.(jobs := s.jobs[id := Claimed(s.jobs[id])]);
            StoreOk(r) && Local(s, r, id) && OwnsMemoryJob(r, MemoryHandle(s, id))
  {
    var job := Claimed(s.jobs[id]);
    assert JobOk(s, id);
    SameDocument(s, job.doc);
    assert s.(jobs := s.jobs[id := job]) == Rewrite(s, id, job, Indexing);
    RewriteOk(s, id, job, Indexing);
    RewriteLocal(s, id, job, Indexing);
  }

  lemma ClaimMemoryJobOk(s: Store, now: nat)
    requires StoreOk(s)
    ensures var (r, claimed) := ClaimMemoryJob(s, now);
            && StoreOk(r)
            && (claimed.Some? ==>
                  && Local(s, r, claimed.value.id) && OwnsMemoryJob(r, claimed.value)
                  && claimed.value.id in s.jobs && s.jobs[claimed.value.id].status.Queued?
                  && r.documents == s.documents)
            && (claimed.None? ==> r == s)
  {
    var found := OldestClaimable(s, MemoryJob, now, s.nextId);
    ClaimMemoryJobShape(s, now);
    if found.Some? { ClaimedMemoryOk(s, found.value); }
  }

  /** Writing back the status a document has changes nothing. */
  lemma SameDocument(s: Store, d: DocId)
    requires d in s.documents
    ensures s.documents[d := s.documents[d].(status := s.documents[d].status)] == s.documents
  {
  }

  /** A current memory handle sees its document indexing, with chunks that agree with its content. */
  lemma MemoryOwnerState(s: Store, h: ClaimedMemoryJob)
    requires StoreOk(s) && OwnsMemoryJob(s, h)
    ensures h.id in s.jobs <==> h.doc in s.documents
    ensures Current(s, h.doc, h.revision) ==>
              && h.id in s.jobs && HasRow(s, h.id, h.revision) && s.jobs[h.id].status.Extracting?
              && s.documents[h.doc].status.Indexing? && Indexed(s, h.doc)
    ensures !Current(s, h.doc, h.revision) && h.id in s.jobs ==> s.jobs[h.id].status.Failed?
  {
    if h.id in s.jobs { assert JobOk(s, h.id); }
  }

  /** A stale handle's own row, when it still exists, is failed; whatever else is written to it is harmless. */
  lemma StaleRowOk(s: Store, h: ClaimedMemoryJob, job: Job)
    requires StoreOk(s) && OwnsMemoryJob(s, h) && !Current(s, h.doc, h.revision) && h.id in s.jobs
    requires job.doc == h.doc && job.kind.MemoryJob? && job.revision == h.revision && job.status.Failed?
    ensures StoreOk(s.(jobs := s.jobs[h.id := job])) && Local(s, s.(jobs := s.jobs[h.id := job]), h.id)
  {
    var r := s.(jobs := s.jobs[h.id := job]);
    assert forall j, d :: ActiveFor(r.jobs, j, d) <==> ActiveFor(s.jobs, j, d);
    forall j | j in r.jobs ensures JobOk(r, j) { assert JobOk(s, j); }
    forall d | d in r.documents ensures DocOk(r, d) {
      assert DocOk(s, d);
      assert HasActive(r.jobs, d) <==> HasActive(s.jobs, d);
    }
  }

  function CachedStore(s: Store, h: ClaimedMemoryJob, ps: seq<Memories.Proposal>): Store
    requires Keys(s)
  {
    if Current(s, h.doc, h.revision) && h.id in s.jobs
    then Rewrite(s, h.id, s.jobs[h.id].(extraction := Some(ps)), Indexing) else s
  }

  /** Caching succeeds exactly on a current handle, and otherwise does nothing. */
  lemma CacheShape(s: Store, h: ClaimedMemoryJob, ps: seq<Memories.Proposal>)
    requires StoreOk(s) && OwnsMemoryJob(s, h)
    ensures CacheExtraction(s, h, ps) ==
              (CachedStore(s, h, ps), if Current(s, h.doc, h.revision) then Ok(()) else Err(StaleRevision))
  {
    MemoryOwnerState(s, h);
    if Current(s, h.doc, h.revision) { SameDocument(s, h.doc); }
  }

  lemma CacheExtractionOk(s: Store, h: ClaimedMemoryJob, ps: seq<Memories.Proposal>)
    requires StoreOk(s) && OwnsMemoryJob(s, h)
    ensures var r := CachedStore(s, h, ps);
            StoreOk(r) && Local(s, r, h.id) && OwnsMemoryJob(r, h)
  {
    MemoryOwnerState(s, h);
    if Current(s, h.doc, h.revision) {
      var job := s.jobs[h.id].(extraction := Some(ps));
      RewriteOk(s, h.id, job, Indexing);
      RewriteLocal(s, h.id, job, Indexing);
    }
  }

  function CompletedStore(s: Store, h: ClaimedMemoryJob): Store
    requires Keys(s)
  {
    if h.id !in s.jobs then s
    else if Current(s, h.doc, h.revision) then Rewrite(s, h.id, Completed(s.jobs[h.id]), Done)
    else s.(jobs := s.jobs[h.id := s.jobs[h.id].(status := Failed, errorKind := STALE_REVISION)])
  }

  /** Completing never fails; a stale handle only marks its own failed row. */
  lemma CompleteShape(s: Store, h: ClaimedMemoryJob)
    requires StoreOk(s) && OwnsMemoryJob(s, h)
    ensures CompleteMemoryJob(s, h) == (CompletedStore(s, h), Ok(()))
  {
    MemoryOwnerState(s, h);
  }

  lemma CompleteMemoryJobOk(s: Store, h: ClaimedMemoryJob)
    requires StoreOk(s) && OwnsMemoryJob(s, h)
    ensures StoreOk(CompletedStore(s, h)) && Local(s, CompletedStore(s, h), h.id)
  {
    MemoryOwnerState(s, h);
    if Current(s, h.doc, h.revision) {
      RewriteOk(s, h.id, Completed(s.jobs[h.id]), Done);
      RewriteLocal(s, h.id, Completed(s.jobs[h.id]), Done);
    } else if h.id in s.jobs {
      StaleRowOk(s, h, s.jobs[h.id].(status := Failed, errorKind := STALE_REVISION));
    }
  }

  /** A retry of a current handle either queues its job again or fails it with its document. */
  function Retried(job: Job, terminal: bool, kind: string, at: nat): Job {
    job.(status := if terminal then Failed else Queued, errorKind := Some(kind), availableAt := at)
  }

  /** Retrying a stale handle does nothing: its row is already failed. */
  lemma RetryShape(s: Store, h: ClaimedMemoryJob, kind: string, delay: Option<nat>, now: nat)
    requires StoreOk(s) && OwnsMemoryJob(s, h)
    ensures RetryMemoryJob(s, h, kind, delay, now) == (RetriedStore(s, h, kind, delay, now), Ok(()))
  {
    MemoryOwnerState(s, h);
    if h.doc in s.documents { SameDocument(s, h.doc); }
  }

  /** The first three attempts may be retried, after the delay and at least a second; any other failure ends the job and
      the document. */
  lemma RetryOutcome(s: Store, h: ClaimedMemoryJob, kind: string, delay: Option<nat>, now: nat)
    requires StoreOk(s) && OwnsMemoryJob(s, h) && Current(s, h.doc, h.revision)
    ensures var r := RetryMemoryJob(s, h, kind, delay, now).0;
            && h.id in s.jobs && h.id in r.jobs && h.doc in r.documents
            && r.jobs[h.id].attempts == h.attempts && r.jobs[h.id].extraction == s.jobs[h.id].extraction
            && r.jobs[h.id].errorKind == Some(kind)
            && (r.jobs[h.id].status.Queued? <==> delay.Some? && h.attempts <= 3)
            && (r.jobs[h.id].status.Queued? ==>
                  && r.jobs[h.id].availableAt == now + (if delay.value == 0 then 1 else delay.value)
                  && r.documents == s.documents)
            && (!r.jobs[h.id].status.Queued? ==> r.jobs[h.id].status.Failed? && r.documents[h.doc].status.Failed?)
  {
    MemoryOwnerState(s, h);
  }

  function RetryTerminal(h: ClaimedMemoryJob, delay: Option<nat>): bool {
    delay.None? || h.attempts >= MAX_ATTEMPTS
  }

  function RetryTime(delay: Option<nat>, now: nat): nat {
    now + if delay.None? then 0 else if delay.value < 1 then 1 else delay.value
  }

  ghost function RetriedStore(s: Store, h: ClaimedMemoryJob, kind: string, delay: Option<nat>, now: nat): Store
    requires Keys(s) && OwnsMemoryJob(s, h)
  {
    if Current(s, h.doc, h.revision) then
      Rewrite(s, h.id, Retried(s.jobs[h.id], RetryTerminal(h, delay), kind, RetryTime(delay, now)),
              if RetryTerminal(h, delay) then Failed else Indexing)
    else s
  }

  lemma RetryMemoryJobOk(s: Store, h: ClaimedMemoryJob, kind: string, delay: Option<nat>, now: nat)
    requires StoreOk(s) && OwnsMemoryJob(s, h)
    ensures StoreOk(RetriedStore(s, h, kind, delay, now)) && Local(s, RetriedStore(s, h, kind, delay, now), h.id)
  {
    MemoryOwnerState(s, h);
    if Current(s, h.doc, h.revision) {
      RetriedOk(s, h, Retried(s.jobs[h.id], RetryTerminal(h, delay), kind, RetryTime(delay, now)),
                if RetryTerminal(h, delay) then Failed else Indexing);
    }
  }

  lemma RetriedOk(s: Store, h: ClaimedMemoryJob, job: Job, status: DocumentState)
    requires StoreOk(s) && h.id in s.jobs && s.jobs[h.id].status.Extracting? && h.doc in s.documents
        && Indexed(s, h.doc)
    requires job.doc == h.doc == s.jobs[h.id].doc && job.kind == s.jobs[h.id].kind == MemoryJob
    requires job.revision == s.jobs[h.id].revision
    requires (job.status.Queued? && status.Indexing?) || (job.status.Failed? && status.Failed?)
    ensures StoreOk(Rewrite(s, h.id, job, status)) && Local(s, Rewrite(s, h.id, job, status), h.id)
  {
    RewriteOk(s, h.id, job, status);
    RewriteLocal(s, h.id, job, status);
  }

  lemma LogIrrelevant(s: Store, log: seq<Memories.Command>)
    requires StoreOk(s)
    ensures StoreOk(s.(log := log))
  {
    var r := s.(log := log);
    assert forall j, d :: ActiveFor(r.jobs, j, d) <==> ActiveFor(s.jobs, j, d);
    forall j | j in r.jobs ensures JobOk(r, j) { assert JobOk(s, j); }
    forall d | d in r.documents ensures DocOk(r, d) {
      assert DocOk(s, d);
      assert HasActive(r.jobs, d) <==> HasActive(s.jobs, d);
    }
  }

  lemma ReconcileMemoriesOk(s: Store, h: ClaimedMemoryJob, ps: seq<Memories.Proposal>, now: nat)
    requires StoreOk(s) && OwnsMemoryJob(s, h)
    ensures var (r, result) := ReconcileMemories(s, h, ps, now);
            && StoreOk(r) && Local(s, r, h.id)
            && (result.Err? ==> r == s)
            && (result.Err? && result.error.StaleRevision? ==> !Current(s, h.doc, h.revision))
            && (result.Ok? ==>
                  && Current(s, h.doc, h.revision) && h.id in s.jobs && s.jobs[h.id].status.Extracting?
                  && h.id in r.jobs && r.jobs[h.id] == Completed(s.jobs[h.id])
                  && r.log == s.log + [Memories.Publish(Memories.Source(h.org, h.doc, h.container), ps, now)])
  {
    MemoryOwnerState(s, h);
    var (r, result) := ReconcileMemories(s, h, ps, now);
    if result.Ok? {
      var job := Completed(s.jobs[h.id]);
      var batch := Memories.Publish(Memories.Source(h.org, h.doc, h.container), ps, now);
      assert r == Rewrite(s, h.id, job, Done).(log := s.log + [batch]);
      RewriteOk(s, h.id, job, Done);
      RewriteLocal(s, h.id, job, Done);
      LogIrrelevant(Rewrite(s, h.id, job, Done), s.log + [batch]);
    }
  }
}
