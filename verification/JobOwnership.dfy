/** Which work is attended: a job in progress has a worker, unless its task was abandoned. */
module JobOwnership {
  import opened Options
  import opened JobStore
  import opened JobInvariants
  import opened JobTransactions
  import opened JobUpserts
  import opened JobProtocol
  import opened JobSafety
  import Memories

  predicate HasWorker(workers: map<nat, Worker>, j: JobId) {
    exists w :: w in workers && JobOf(workers[w]) == j
  }

  /** Every job in progress has a worker. */
  ghost predicate Attended(sys: System) {
    forall j | j in sys.store.jobs && InProgress(sys.store.jobs[j].status) :: HasWorker(sys.workers, j)
  }

  /** A job no worker is left for: queued, finished, or gone. */
  predicate Idle(s: Store, j: JobId) {
    j in s.jobs ==> !InProgress(s.jobs[j].status)
  }

  lemma LeaveAttended(sys: System, r: Store, w: nat)
    requires Attended(sys) && w in sys.workers && Local(sys.store, r, JobOf(sys.workers[w]))
    requires Idle(r, JobOf(sys.workers[w]))
    ensures Attended(Leave(sys, r, w))
  {
    var left := Leave(sys, r, w);
    forall j | j in r.jobs && InProgress(r.jobs[j].status) ensures HasWorker(left.workers, j) {
      assert HasWorker(sys.workers, j);
      var v :| v in sys.workers && JobOf(sys.workers[v]) == j;
      assert v in left.workers;
    }
  }

  lemma ContinueAttended(sys: System, r: Store, w: nat, worker: Worker)
    requires Attended(sys) && w in sys.workers && JobOf(worker) == JobOf(sys.workers[w])
    requires Local(sys.store, r, JobOf(worker))
    ensures Attended(Continue(sys, r, w, worker))
  {
    var next := Continue(sys, r, w, worker);
    forall j | j in r.jobs && InProgress(r.jobs[j].status) ensures HasWorker(next.workers, j) {
      assert next.workers[w] == worker;
      if j != JobOf(worker) {
        assert HasWorker(sys.workers, j);
        var v :| v in sys.workers && JobOf(sys.workers[v]) == j;
        assert next.workers[v] == sys.workers[v];
      }
    }
  }

  lemma SpawnAttended(sys: System, r: Store, worker: Worker)
    requires Attended(sys) && Local(sys.store, r, JobOf(worker)) && forall w | w in sys.workers :: w < sys.nextWorker
    ensures Attended(Spawn(sys, r, worker))
  {
    var next := Spawn(sys, r, worker);
    forall j | j in r.jobs && InProgress(r.jobs[j].status) ensures HasWorker(next.workers, j) {
      assert next.workers[sys.nextWorker] == worker;
      if j != JobOf(worker) {
        assert HasWorker(sys.workers, j);
        var v :| v in sys.workers && JobOf(sys.workers[v]) == j;
        assert next.workers[v] == sys.workers[v];
      }
    }
  }

  /** A store in which no new job is in progress. */
  lemma QuietAttended(sys: System, r: Store)
    requires Attended(sys)
    requires forall j | j in r.jobs && InProgress(r.jobs[j].status) ::
               j in sys.store.jobs && InProgress(sys.store.jobs[j].status)
    ensures Attended(WithStore(sys, r))
  {
  }

  lemma UpsertAttended(s: Store, org: string, input: Upsert, now: nat)
    ensures var r := Upserted(s, org, input, now);
            forall j | j in r.jobs && InProgress(r.jobs[j].status) :: j in s.jobs && InProgress(s.jobs[j].status)
  {
  }

  lemma AdvanceAttended(sys: System, w: nat)
    requires Inv(sys) && Attended(sys) && Enabled(sys, Advance(w))
    ensures Attended(AdvanceStep(sys, w))
  {
    var h, r := sys.workers[w].job, AdvancedStore(sys, w);
    AdvanceShape(sys, w);
    AdvancedTables(sys, w);
    if h.doc in sys.store.documents {
      ContinueAttended(sys, r, w, DocumentWorker(h, NextStage(sys.workers[w].at)));
    } else {
      LeaveAttended(sys, r, w);
    }
  }

  lemma FailedIsIdle(s: Store, h: ClaimedJob, at: DocumentState)
    requires StoreOk(s) && OwnsJob(s, h, at)
    ensures Local(s, FailJob(s, h), h.id) && Idle(FailJob(s, h), h.id)
  {
    FailJobOk(s, h, at);
  }

  lemma FailAttended(sys: System, w: nat)
    requires Inv(sys) && Attended(sys) && Enabled(sys, FailDocument(w))
    ensures Attended(Leave(sys, FailJob(sys.store, sys.workers[w].job), w))
  {
    assert Owns(sys.store, sys.workers[w]);
    FailedIsIdle(sys.store, sys.workers[w].job, sys.workers[w].at);
    LeaveAttended(sys, FailJob(sys.store, sys.workers[w].job), w);
  }

  lemma DocumentStepAttended(sys: System, a: Action)
    requires Inv(sys) && Attended(sys) && Enabled(sys, a)
    requires IsDocumentStep(a)
    ensures Attended(Perform(sys, a))
  {
    match a
    case Advance(w) => AdvanceAttended(sys, w);
    case PublishPlain(w) => PublishAttended(sys, w, false);
    case PublishEmbedded(w, schedule) =>
      assert Owns(sys.store, sys.workers[w]);
      PreparedChunks(sys.workers[w].job.content);
      PublishAttended(sys, w, schedule);
    case DeleteEmpty(w) => DeleteEmptyAttended(sys, w);
    case FailDocument(w) => FailAttended(sys, w);
  }

  lemma PublishedIsIdle(s: Store, h: ClaimedJob, schedule: bool, now: nat)
    requires Keys(s) && h.id < s.nextId && (h.id in s.jobs ==> s.jobs[h.id].doc == h.doc)
    ensures Idle(PublishedStore(s, h, schedule, now), h.id)
  {
  }

  lemma PublishAttended(sys: System, w: nat, schedule: bool)
    requires Inv(sys) && Attended(sys)
    requires IsDocumentWorker(sys, w, {Chunking, Indexing}) && Chunks(sys.workers[w].job.content) != []
    ensures var h := sys.workers[w].job;
            Attended(Leave(sys, PublishJob(sys.store, h, Chunks(h.content), schedule, sys.now).0, w))
  {
    var s, h, at := sys.store, sys.workers[w].job, sys.workers[w].at;
    assert Owns(s, sys.workers[w]);
    PublishedIsIdle(s, h, schedule, sys.now);
    PublishJobOk(s, h, at, schedule, sys.now);
    PublishShape(s, h, at, schedule, sys.now);
    LeaveAttended(sys, PublishedStore(s, h, schedule, sys.now), w);
  }

  lemma RetriedIsIdle(s: Store, h: ClaimedMemoryJob, kind: string, delay: Option<nat>, now: nat)
    requires StoreOk(s) && OwnsMemoryJob(s, h)
    ensures var r := RetriedStore(s, h, kind, delay, now); Local(s, r, h.id) && Idle(r, h.id)
  {
    RetryMemoryJobOk(s, h, kind, delay, now);
    MemoryOwnerState(s, h);
  }

  /** Who attends what depends on the tables and the workers alone. */
  lemma NotedAttended(a: System, b: System)
    requires Attended(a) && a.store == b.store && a.workers == b.workers
    ensures Attended(b)
  {
  }

  lemma RetryAttended(sys: System, w: nat, kind: string, delay: Option<nat>)
    requires Inv(sys) && Attended(sys) && IsMemoryWorker(sys, w)
    ensures Attended(RetryStep(sys, w, kind, delay))
  {
    var s, h := sys.store, sys.workers[w].task;
    assert Owns(s, sys.workers[w]);
    var r := RetriedStore(s, h, kind, delay, sys.now);
    RetryShape(s, h, kind, delay, sys.now);
    RetriedIsIdle(s, h, kind, delay, sys.now);
    LeaveAttended(sys, r, w);
    NotedAttended(Leave(sys, r, w), RetryStep(sys, w, kind, delay));
  }

  lemma ExtractAttended(sys: System, w: nat, candidates: seq<Memories.Proposal>)
    requires Inv(sys) && Attended(sys) && IsMemoryWorker(sys, w)
    ensures Attended(ExtractStep(sys, w, candidates))
  {
    var s, h := sys.store, sys.workers[w].task;
    assert Owns(s, sys.workers[w]);
    CacheShape(s, h, candidates);
    CacheExtractionOk(s, h, candidates);
    MemoryOwnerState(s, h);
    var r := CachedStore(s, h, candidates);
    if Current(s, h.doc, h.revision) {
      ContinueAttended(sys, r, w, MemoryWorker(h, Extracted(candidates)));
    } else {
      LeaveAttended(sys, r, w);
    }
  }

  lemma ReconcileAttended(sys: System, w: nat)
    requires Inv(sys) && Attended(sys) && Enabled(sys, Reconcile(w))
    ensures Attended(ReconcileStep(sys, w))
  {
    var s, h, candidates := sys.store, sys.workers[w].task, sys.workers[w].phase.candidates;
    assert Owns(s, sys.workers[w]);
    ReconcileMemoriesOk(s, h, candidates, sys.now);
    var (r, result) := ReconcileMemories(s, h, candidates, sys.now);
    if result.Ok? {
      LeaveAttended(sys, r, w);
    } else {
      ContinueAttended(sys, s, w, MemoryWorker(h, if result.error.StaleRevision? then Rejected else Failing));
    }
  }

  lemma CompleteAttended(sys: System, w: nat)
    requires Inv(sys) && Attended(sys) && IsMemoryWorker(sys, w)
    ensures Attended(CompleteStep(sys, w))
  {
    var s, h := sys.store, sys.workers[w].task;
    assert Owns(s, sys.workers[w]);
    CompleteShape(s, h);
    CompleteMemoryJobOk(s, h);
    LeaveAttended(sys, CompletedStore(s, h), w);
  }

  lemma DeleteEmptyAttended(sys: System, w: nat)
    requires Inv(sys) && Attended(sys) && Enabled(sys, DeleteEmpty(w))
    ensures Attended(Perform(sys, DeleteEmpty(w)))
  {
    var s, h, at := sys.store, sys.workers[w].job, sys.workers[w].at;
    assert Owns(s, sys.workers[w]);
    OwnerIsCurrent(s, h, at);
    var next := Perform(sys, DeleteEmpty(w));
    forall j | j in next.store.jobs && InProgress(next.store.jobs[j].status) ensures HasWorker(next.workers, j) {
      assert HasWorker(sys.workers, j);
      var v :| v in sys.workers && JobOf(sys.workers[v]) == j;
      assert v in next.workers;
    }
  }

  lemma ClaimDocumentAttended(sys: System)
    requires Inv(sys) && Attended(sys)
    ensures Attended(ClaimDocumentStep(sys))
  {
    ClaimJobOk(sys.store, sys.now);
    var (r, claimed) := ClaimJob(sys.store, sys.now);
    if claimed.Some? { SpawnAttended(sys, r, DocumentWorker(claimed.value, Extracting)); }
  }

  lemma ClaimMemoryAttended(sys: System)
    requires Inv(sys) && Attended(sys)
    ensures Attended(ClaimMemoryStep(sys))
  {
    ClaimMemoryJobOk(sys.store, sys.now);
    var (r, claimed) := ClaimMemoryJob(sys.store, sys.now);
    if claimed.Some? { SpawnAttended(sys, r, MemoryWorker(claimed.value, Fresh)); }
  }

  /** Abandoning a task loses exactly a job that is still in progress. */
  lemma AbandonLoses(sys: System, w: nat)
    requires Inv(sys) && Attended(sys) && w in sys.workers
    ensures Attended(Leave(sys, sys.store, w)) <==> Idle(sys.store, JobOf(sys.workers[w]))
  {
    var left, j := Leave(sys, sys.store, w), JobOf(sys.workers[w]);
    assert !HasWorker(left.workers, j);
    if Idle(sys.store, j) {
      assert Local(sys.store, sys.store, j);
      LeaveAttended(sys, sys.store, w);
    } else {
      assert j in sys.store.jobs && InProgress(sys.store.jobs[j].status);
    }
  }

  lemma MemoryStepAttended(sys: System, a: Action)
    requires Inv(sys) && Attended(sys) && Enabled(sys, a) && IsMemoryStep(a)
    ensures Attended(Perform(sys, a))
  {
    match a
    case ReuseExtraction(w) =>
      var h := sys.workers[w].task;
      ContinueAttended(sys, sys.store, w, MemoryWorker(h, Extracted(h.extraction.value)));
    case Extract(w, candidates) => ExtractAttended(sys, w, candidates);
    case ProviderFailure(w, failure) =>
      RetryAttended(sys, w, FailureName(failure), RetryDelay(failure, sys.workers[w].task.attempts));
    case InternalFailure(w) =>
      RetryAttended(sys, w, if sys.workers[w].phase.Failing? then "reconciliation" else "embedding", Some(1));
    case Reconcile(w) => ReconcileAttended(sys, w);
    case Complete(w) => CompleteAttended(sys, w);
  }

  lemma OutsideStepAttended(sys: System, a: Action)
    requires Inv(sys) && Attended(sys) && IsOutsideStep(a)
    ensures Attended(Perform(sys, a))
  {
    match a
    case Upserting(org, input) =>
      UpsertShape(sys.store, org, input, sys.now);
      UpsertAttended(sys.store, org, input, sys.now);
      QuietAttended(sys, Upserted(sys.store, org, input, sys.now));
    case _ =>
  }

  /** Any other step leaves every job in progress attended. */
  lemma StepAttended(sys: System, a: Action)
    requires Inv(sys) && Attended(sys) && !a.Abandon?
    ensures Attended(Step(sys, a))
  {
    if Enabled(sys, a) {
      if IsDocumentStep(a) {
        DocumentStepAttended(sys, a);
      } else if IsMemoryStep(a) {
        MemoryStepAttended(sys, a);
      } else if IsOutsideStep(a) {
        OutsideStepAttended(sys, a);
      } else {
        match a
        case ClaimDocument => ClaimDocumentAttended(sys);
        case ClaimMemory => ClaimMemoryAttended(sys);
      }
    }
  }

  /** A run without abandoned tasks never strands a job. */
  lemma {:induction false} NothingIsStranded(actions: seq<Action>)
    requires forall a | a in actions :: !a.Abandon?
    ensures Attended(Run(Initial, actions))
  {
    if actions != [] {
      var front, a := actions[..|actions| - 1], actions[|actions| - 1];
      NothingIsStranded(front);
      RunOk(front);
      assert a in actions;
      StepAttended(Run(Initial, front), a);
    }
  }
}
