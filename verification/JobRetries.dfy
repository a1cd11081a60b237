/** When a failed extraction is tried again: the coordinator's delays and the store's bound together. */
module JobRetries {
  import opened Options
  import opened JobStore
  import opened JobInvariants
  import opened JobTransactions
  import opened JobProtocol
  import JobSafety

  /** The row of the job that worker w holds, before and after its failure was reported. */
  ghost predicate ReportsFailure(sys: System, w: nat, a: Action) {
    && JobSafety.Inv(sys) && Enabled(sys, a) && IsMemoryWorker(sys, w)
    && Current(sys.store, sys.workers[w].task.doc, sys.workers[w].task.revision)
    && (a == InternalFailure(w) || (a.ProviderFailure? && a.w == w))
  }

  /** The job waits until this time for its next attempt. */
  predicate WaitsUntil(s: Store, h: ClaimedMemoryJob, at: nat) {
    && h.id in s.jobs && s.jobs[h.id].status.Queued? && s.jobs[h.id].availableAt == at
    && h.doc in s.documents && s.documents[h.doc].status.Indexing?
  }

  /** The job has failed for good, and its document with it. */
  predicate GaveUp(s: Store, h: ClaimedMemoryJob) {
    h.id in s.jobs && s.jobs[h.id].status.Failed? && h.doc in s.documents && s.documents[h.doc].status.Failed?
  }

  lemma StepRetries(sys: System, w: nat, a: Action, kind: string, delay: Option<nat>)
    requires ReportsFailure(sys, w, a)
    requires Perform(sys, a) == RetryStep(sys, w, kind, delay)
    ensures var h, r := sys.workers[w].task, Step(sys, a);
            && w !in r.workers && h.id in r.store.jobs && r.store.jobs[h.id].errorKind == Some(kind)
            && (delay.Some? && h.attempts <= 3 ==>
                  WaitsUntil(r.store, h, sys.now + if delay.value == 0 then 1 else delay.value))
            && (delay.None? || h.attempts > 3 ==> GaveUp(r.store, h))
  {
    var h := sys.workers[w].task;
    assert JobSafety.Owns(sys.store, sys.workers[w]);
    RetryOutcome(sys.store, h, kind, delay, sys.now);
    MemoryOwnerState(sys.store, h);
  }

  /** A provider's failure: two, four, then eight seconds, and no fourth retry; an answer that was invalid once is tried
      again after a second; a rejected setup never. */
  lemma ProviderFailureOutcome(sys: System, w: nat, failure: ExtractionFailure)
    requires ReportsFailure(sys, w, ProviderFailure(w, failure)) && sys.workers[w].task.attempts >= 1
    ensures var h, r := sys.workers[w].task, Step(sys, ProviderFailure(w, failure)).store;
            && (failure.RateLimited? || failure.Transport? || failure.Provider? ==>
                  && (h.attempts == 1 ==> WaitsUntil(r, h, sys.now + 2))
                  && (h.attempts == 2 ==> WaitsUntil(r, h, sys.now + 4))
                  && (h.attempts == 3 ==> WaitsUntil(r, h, sys.now + 8))
                  && (h.attempts >= 4 ==> GaveUp(r, h)))
            && (failure.InvalidOutput? ==>
                  if h.attempts == 1 then WaitsUntil(r, h, sys.now + 1) else GaveUp(r, h))
            && (failure.Authentication? || failure.Configuration? ==> GaveUp(r, h))
  {
    var h := sys.workers[w].task;
    var delay := RetryDelay(failure, h.attempts);
    StepRetries(sys, w, ProviderFailure(w, failure), FailureName(failure), delay);
    assert PowerOfTwo(1) == 2 && PowerOfTwo(2) == 4 && PowerOfTwo(3) == 8;
  }

  /** A failure to embed or to commit is tried again after a second, up to the third attempt. */
  lemma InternalFailureOutcome(sys: System, w: nat)
    requires ReportsFailure(sys, w, InternalFailure(w))
    ensures var h, r := sys.workers[w].task, Step(sys, InternalFailure(w)).store;
            && (h.attempts <= 3 ==> WaitsUntil(r, h, sys.now + 1)) && (h.attempts >= 4 ==> GaveUp(r, h))
            && h.id in r.jobs
            && r.jobs[h.id].errorKind == Some(if sys.workers[w].phase.Extracted? then "embedding" else "reconciliation")
  {
    StepRetries(sys, w, InternalFailure(w), if sys.workers[w].phase.Failing? then "reconciliation" else "embedding",
                Some(1));
  }

  /** Each kind of failure is recorded under its own name. */
  lemma FailureNamesDiffer(a: ExtractionFailure, b: ExtractionFailure)
    requires FailureName(a) == FailureName(b)
    ensures a == b
  {
    assert |FailureName(a)| == |FailureName(b)| && FailureName(a)[0] == FailureName(b)[0];
  }
}
