/** Work is bounded: without new upserts and restarts, every worker step uses up a finite budget. */
module JobProgress {
  import opened Options
  import opened JobStore
  import opened JobInvariants
  import opened JobTransactions
  import opened JobProtocol
  import JobSafety
  import Memories

  // ---- the measure --------------------------------------------------------------------------------

  /** What is left to pay for a job row: one attempt of a memory job costs four, a document job pays for its memory
      job. */
  function RowCost(job: Job): nat {
    match job.kind
    case DocumentJob => if job.status.Queued? then 25 else if InProgress(job.status) then 20 else 0
    case MemoryJob =>
      var left := if job.attempts < MAX_ATTEMPTS then MAX_ATTEMPTS - job.attempts else 0;
      if job.status.Queued? || (InProgress(job.status) && left > 0) then 4 * (1 + left) else 0
  }

  function JobCost(jobs: map<JobId, Job>, j: JobId): nat {
    if j in jobs then RowCost(jobs[j]) else 0
  }

  function JobsCost(jobs: map<JobId, Job>, n: nat): nat {
    if n == 0 then 0 else JobsCost(jobs, n - 1) + JobCost(jobs, n - 1)
  }

  function WorkerCost(worker: Worker): nat {
    match worker
    case DocumentWorker(_, at) =>
      if at.Extracting? then 4 else if at.Chunking? then 3 else if at.Embedding? then 2 else 1
    case MemoryWorker(_, phase) => if phase.Fresh? then 3 else if phase.Extracted? then 2 else 1
  }

  function WorkersCost(workers: map<nat, Worker>, n: nat): nat {
    if n == 0 then 0
    else WorkersCost(workers, n - 1) + if n - 1 in workers then WorkerCost(workers[n - 1]) else 0
  }

  function Measure(sys: System): nat {
    TableCost(sys.store) + WorkersCost(sys.workers, sys.nextWorker)
  }

  // ---- sums ---------------------------------------------------------------------------------------

  /** Two job tables that differ only at id. */
  lemma {:induction false} JobsDiffer(a: map<JobId, Job>, b: map<JobId, Job>, id: JobId, n: nat)
    requires forall j: JobId | j < n && j != id :: JobCost(a, j) == JobCost(b, j)
    ensures JobsCost(b, n) + (if id < n then JobCost(a, id) else 0)
            == JobsCost(a, n) + (if id < n then JobCost(b, id) else 0)
  {
    if n > 0 { JobsDiffer(a, b, id, n - 1); }
  }

  lemma {:induction false} WorkersDiffer(a: map<nat, Worker>, b: map<nat, Worker>, w: nat, n: nat)
    requires forall v: nat | v < n && v != w :: (v in a <==> v in b) && (v in a ==> a[v] == b[v])
    ensures var x := if w < n && w in a then WorkerCost(a[w]) else 0;
            var y := if w < n && w in b then WorkerCost(b[w]) else 0;
            WorkersCost(b, n) + x == WorkersCost(a, n) + y
  {
    if n > 0 { WorkersDiffer(a, b, w, n - 1); }
  }

  lemma {:induction false} JobsBeyond(jobs: map<JobId, Job>, n: nat, m: nat)
    requires n <= m && forall j: JobId | n <= j < m :: j !in jobs
    ensures JobsCost(jobs, m) == JobsCost(jobs, n)
  {
    if n < m { JobsBeyond(jobs, n, m - 1); }
  }

  /** Rows may vanish, and none may get more expensive. */
  lemma {:induction false} JobsShrink(a: map<JobId, Job>, b: map<JobId, Job>, n: nat)
    requires forall j: JobId | j < n :: JobCost(b, j) <= JobCost(a, j)
    ensures JobsCost(b, n) <= JobsCost(a, n)
  {
    if n > 0 { JobsShrink(a, b, n - 1); }
  }

  lemma {:induction false} WorkersLeft(workers: map<nat, Worker>, w: nat, n: nat)
    ensures WorkersCost((map v | v in workers && v != w :: workers[v]), n)
        + (if w < n && w in workers then WorkerCost(workers[w]) else 0)
            == WorkersCost(workers, n)
  {
    if n > 0 { WorkersLeft(workers, w, n - 1); }
  }

  // ---- steps --------------------------------------------------------------------------------------

  function TableCost(s: Store): nat {
    JobsCost(s.jobs, s.nextId)
  }

  /** The price of a transaction on job id is what its row costs less. */
  lemma LocalCost(s: Store, r: Store, id: JobId)
    requires Keys(s) && Keys(r) && Local(s, r, id) && id < s.nextId && r.nextId == s.nextId
    ensures TableCost(r) + JobCost(s.jobs, id) == TableCost(s) + JobCost(r.jobs, id)
  {
    JobsDiffer(s.jobs, r.jobs, id, s.nextId);
  }

  lemma LeaveCost(sys: System, r: Store, w: nat)
    requires w in sys.workers && w < sys.nextWorker
    ensures Measure(Leave(sys, r, w)) + WorkerCost(sys.workers[w])
            == TableCost(r) + WorkersCost(sys.workers, sys.nextWorker)
  {
    WorkersLeft(sys.workers, w, sys.nextWorker);
  }

  /** A worker that leaves at no cost to the tables pays. */
  lemma LeavePays(sys: System, r: Store, w: nat)
    requires w in sys.workers && w < sys.nextWorker && TableCost(r) <= TableCost(sys.store)
    ensures Measure(Leave(sys, r, w)) < Measure(sys)
  {
    LeaveCost(sys, r, w);
  }

  lemma ContinueCost(sys: System, r: Store, w: nat, worker: Worker)
    requires w in sys.workers && w < sys.nextWorker
    ensures Measure(Continue(sys, r, w, worker)) + WorkerCost(sys.workers[w])
            == TableCost(r) + WorkersCost(sys.workers, sys.nextWorker) + WorkerCost(worker)
  {
    WorkersDiffer(sys.workers, sys.workers[w := worker], w, sys.nextWorker);
  }

  lemma SpawnCost(sys: System, r: Store, worker: Worker)
    ensures Measure(Spawn(sys, r, worker))
            == TableCost(r) + WorkersCost(sys.workers, sys.nextWorker) + WorkerCost(worker)
  {
    WorkersDiffer(sys.workers, sys.workers[sys.nextWorker := worker], sys.nextWorker, sys.nextWorker);
  }

  lemma ClaimCost(s: Store, now: nat)
    requires StoreOk(s)
    ensures var (r, claimed) := ClaimJob(s, now);
            if claimed.Some? then TableCost(r) + 5 == TableCost(s) else r == s
  {
    ClaimJobOk(s, now);
    ClaimJobShape(s, now);
    var (r, claimed) := ClaimJob(s, now);
    if claimed.Some? { LocalCost(s, r, claimed.value.id); }
  }

  lemma ClaimDocumentPays(sys: System)
    requires JobSafety.Inv(sys)
    ensures ClaimDocumentStep(sys) == sys || Measure(ClaimDocumentStep(sys)) < Measure(sys)
  {
    ClaimCost(sys.store, sys.now);
    var (r, claimed) := ClaimJob(sys.store, sys.now);
    if claimed.Some? { SpawnCost(sys, r, DocumentWorker(claimed.value, Extracting)); }
  }

  lemma ClaimMemoryPays(sys: System)
    requires JobSafety.Inv(sys)
    ensures ClaimMemoryStep(sys) == sys || Measure(ClaimMemoryStep(sys)) < Measure(sys)
  {
    var s := sys.store;
    ClaimMemoryJobOk(s, sys.now);
    ClaimMemoryJobShape(s, sys.now);
    var (r, claimed) := ClaimMemoryJob(s, sys.now);
    if claimed.Some? {
      SpawnCost(sys, r, MemoryWorker(claimed.value, Fresh));
      LocalCost(s, r, claimed.value.id);
    }
  }

  lemma AdvanceCost(sys: System, w: nat)
    requires JobSafety.Inv(sys) && Enabled(sys, Advance(w))
    ensures TableCost(JobSafety.AdvancedStore(sys, w)) <= TableCost(sys.store)
  {
    JobSafety.AdvancedTables(sys, w);
    LocalCost(sys.store, JobSafety.AdvancedStore(sys, w), sys.workers[w].job.id);
    assert JobSafety.Owns(sys.store, sys.workers[w]);
  }

  lemma AdvancePays(sys: System, w: nat)
    requires JobSafety.Inv(sys) && Enabled(sys, Advance(w))
    ensures Measure(AdvanceStep(sys, w)) < Measure(sys)
  {
    var h, r := sys.workers[w].job, JobSafety.AdvancedStore(sys, w);
    JobSafety.AdvanceShape(sys, w);
    AdvanceCost(sys, w);
    EitherPays(sys, r, w, DocumentWorker(h, NextStage(sys.workers[w].at)));
  }

  /** A worker that goes on more cheaply, or leaves, at no cost to the tables. */
  lemma EitherPays(sys: System, r: Store, w: nat, worker: Worker)
    requires w in sys.workers && w < sys.nextWorker && TableCost(r) <= TableCost(sys.store)
    requires WorkerCost(worker) < WorkerCost(sys.workers[w])
    ensures Measure(Continue(sys, r, w, worker)) < Measure(sys) && Measure(Leave(sys, r, w)) < Measure(sys)
  {
    ContinueCost(sys, r, w, worker);
    LeaveCost(sys, r, w);
  }

  lemma PublishedCost(s: Store, h: ClaimedJob, at: DocumentState)
    requires StoreOk(s) && OwnsJob(s, h, at) && h.id in s.jobs
    ensures Keys(Published(s, h)) && TableCost(Published(s, h)) + 20 == TableCost(s)
  {
    JobsDiffer(s.jobs, Published(s, h).jobs, h.id, s.nextId);
    JobsBeyond(Published(s, h).jobs, s.nextId, Published(s, h).nextId);
  }

  lemma AddedCost(s: Store, job: Job, status: DocumentState)
    requires Keys(s) && job.doc in s.documents
    ensures TableCost(AddJob(s, job, status)) == TableCost(s) + RowCost(job)
  {
    JobsDiffer(s.jobs, AddJob(s, job, status).jobs, s.nextId, s.nextId);
  }

  /** A publication pays for the memory job it may schedule. */
  lemma PublishCost(s: Store, h: ClaimedJob, at: DocumentState, schedule: bool, now: nat)
    requires StoreOk(s) && OwnsJob(s, h, at)
    ensures TableCost(PublishedStore(s, h, schedule, now)) <= TableCost(s)
  {
    if h.id in s.jobs {
      PublishedCost(s, h, at);
      AddedCost(Published(s, h), NewJob(h.doc, MemoryJob, h.revision, now), Indexing);
    }
  }

  lemma PublicationCost(s: Store, h: ClaimedJob, at: DocumentState, schedule: bool, now: nat)
    requires StoreOk(s) && OwnsJob(s, h, at) && (at.Chunking? || at.Indexing?) && Chunks(h.content) != []
    ensures TableCost(PublishJob(s, h, Chunks(h.content), schedule, now).0) <= TableCost(s)
  {
    PublishShape(s, h, at, schedule, now);
    PublishCost(s, h, at, schedule, now);
  }

  lemma PublishPays(sys: System, w: nat, schedule: bool)
    requires JobSafety.Inv(sys) && IsDocumentWorker(sys, w, {Chunking, Indexing})
        && Chunks(sys.workers[w].job.content) != []
    ensures var h := sys.workers[w].job;
            Measure(Leave(sys, PublishJob(sys.store, h, Chunks(h.content), schedule, sys.now).0, w)) < Measure(sys)
  {
    var s, h, at := sys.store, sys.workers[w].job, sys.workers[w].at;
    assert JobSafety.Owns(s, sys.workers[w]);
    PublicationCost(s, h, at, schedule, sys.now);
    LeavePays(sys, PublishJob(s, h, Chunks(h.content), schedule, sys.now).0, w);
  }

  lemma FailCost(s: Store, h: ClaimedJob, at: DocumentState)
    requires StoreOk(s) && OwnsJob(s, h, at)
    ensures TableCost(FailJob(s, h)) <= TableCost(s)
  {
    FailJobOk(s, h, at);
    LocalCost(s, FailJob(s, h), h.id);
  }

  lemma FailPays(sys: System, w: nat)
    requires JobSafety.Inv(sys) && Enabled(sys, FailDocument(w))
    ensures Measure(Leave(sys, FailJob(sys.store, sys.workers[w].job), w)) < Measure(sys)
  {
    var s, h, at := sys.store, sys.workers[w].job, sys.workers[w].at;
    assert JobSafety.Owns(s, sys.workers[w]);
    FailCost(s, h, at);
    LeaveCost(sys, FailJob(s, h), w);
  }

  lemma DropCost(s: Store, doc: DocId, now: nat)
    ensures JobsCost(DropDocument(s, doc, now).jobs, s.nextId) <= TableCost(s)
  {
    JobsShrink(s.jobs, DropDocument(s, doc, now).jobs, s.nextId);
  }

  lemma DeleteEmptyPays(sys: System, w: nat)
    requires JobSafety.Inv(sys) && Enabled(sys, DeleteEmpty(w))
    ensures Measure(Perform(sys, DeleteEmpty(w))) < Measure(sys)
  {
    var h := sys.workers[w].job;
    DropCost(sys.store, h.doc, sys.now);
    LeaveCost(sys, DeleteEmptyDocument(sys.store, h, sys.now), w);
  }

  lemma ExtractPays(sys: System, w: nat, candidates: seq<Memories.Proposal>)
    requires JobSafety.Inv(sys) && Enabled(sys, Extract(w, candidates))
    ensures Measure(ExtractStep(sys, w, candidates)) < Measure(sys)
  {
    var s, h := sys.store, sys.workers[w].task;
    assert JobSafety.Owns(s, sys.workers[w]);
    CacheShape(s, h, candidates);
    CacheExtractionOk(s, h, candidates);
    var r := CachedStore(s, h, candidates);
    LocalCost(s, r, h.id);
    if Current(s, h.doc, h.revision) {
      ContinueCost(sys, r, w, MemoryWorker(h, Extracted(candidates)));
    } else {
      LeaveCost(sys, r, w);
    }
  }

  lemma RetryCost(s: Store, h: ClaimedMemoryJob, kind: string, delay: Option<nat>, now: nat)
    requires StoreOk(s) && OwnsMemoryJob(s, h)
    ensures TableCost(RetryMemoryJob(s, h, kind, delay, now).0) <= TableCost(s)
  {
    RetryShape(s, h, kind, delay, now);
    RetryMemoryJobOk(s, h, kind, delay, now);
    MemoryOwnerState(s, h);
    LocalCost(s, RetriedStore(s, h, kind, delay, now), h.id);
  }

  lemma RetryPays(sys: System, w: nat, kind: string, delay: Option<nat>)
    requires JobSafety.Inv(sys) && IsMemoryWorker(sys, w)
    ensures Measure(RetryStep(sys, w, kind, delay)) < Measure(sys)
  {
    var s, h := sys.store, sys.workers[w].task;
    assert JobSafety.Owns(s, sys.workers[w]);
    RetryCost(s, h, kind, delay, sys.now);
    LeavePays(sys, RetryMemoryJob(s, h, kind, delay, sys.now).0, w);
  }

  lemma CompletePays(sys: System, w: nat)
    requires JobSafety.Inv(sys) && IsMemoryWorker(sys, w)
    ensures Measure(CompleteStep(sys, w)) < Measure(sys)
  {
    var s, h := sys.store, sys.workers[w].task;
    assert JobSafety.Owns(s, sys.workers[w]);
    CompleteShape(s, h);
    CompleteMemoryJobOk(s, h);
    var r := CompletedStore(s, h);
    LocalCost(s, r, h.id);
    LeaveCost(sys, r, w);
  }

  lemma ReconcileCost(s: Store, h: ClaimedMemoryJob, candidates: seq<Memories.Proposal>, now: nat)
    requires StoreOk(s) && OwnsMemoryJob(s, h)
    ensures var (r, result) := ReconcileMemories(s, h, candidates, now);
            TableCost(r) <= TableCost(s) && (result.Err? ==> r == s)
  {
    ReconcileMemoriesOk(s, h, candidates, now);
    var (r, result) := ReconcileMemories(s, h, candidates, now);
    if result.Ok? { LocalCost(s, r, h.id); }
  }

  lemma ReconcilePays(sys: System, w: nat)
    requires JobSafety.Inv(sys) && Enabled(sys, Reconcile(w))
    ensures Measure(ReconcileStep(sys, w)) < Measure(sys)
  {
    var h, candidates := sys.workers[w].task, sys.workers[w].phase.candidates;
    assert JobSafety.Owns(sys.store, sys.workers[w]);
    ReconcileCost(sys.store, h, candidates, sys.now);
    var (r, result) := ReconcileMemories(sys.store, h, candidates, sys.now);
    if result.Ok? {
      LeaveCost(sys, r, w);
    } else {
      ContinueCost(sys, r, w, MemoryWorker(h, if result.error.StaleRevision? then Rejected else Failing));
    }
  }

  // ---- bounded work -------------------------------------------------------------------------------

  /** The steps of the two coordinators, abandoned tasks included. */
  predicate IsWorkerStep(a: Action) {
    !IsOutsideStep(a)
  }

  lemma DocumentStepPays(sys: System, a: Action)
    requires JobSafety.Inv(sys) && Enabled(sys, a)
    requires IsDocumentStep(a)
    ensures Measure(Perform(sys, a)) < Measure(sys)
  {
    match a
    case Advance(w) => AdvancePays(sys, w);
    case PublishPlain(w) => PublishPays(sys, w, false);
    case PublishEmbedded(w, schedule) =>
      assert JobSafety.Owns(sys.store, sys.workers[w]);
      JobSafety.PreparedChunks(sys.workers[w].job.content);
      PublishPays(sys, w, schedule);
    case DeleteEmpty(w) => DeleteEmptyPays(sys, w);
    case FailDocument(w) => FailPays(sys, w);
  }

  lemma MemoryStepPays(sys: System, a: Action)
    requires JobSafety.Inv(sys) && Enabled(sys, a)
    requires IsMemoryStep(a)
    ensures Measure(Perform(sys, a)) < Measure(sys)
  {
    match a
    case ReuseExtraction(w) =>
      ContinueCost(sys, sys.store, w, MemoryWorker(sys.workers[w].task,
          Extracted(sys.workers[w].task.extraction.value)));
    case Extract(w, candidates) => ExtractPays(sys, w, candidates);
    case ProviderFailure(w, failure) =>
      RetryPays(sys, w, FailureName(failure), RetryDelay(failure, sys.workers[w].task.attempts));
    case InternalFailure(w) =>
      RetryPays(sys, w, if sys.workers[w].phase.Failing? then "reconciliation" else "embedding", Some(1));
    case Reconcile(w) => ReconcilePays(sys, w);
    case Complete(w) => CompletePays(sys, w);
  }

  /** Every worker step that does anything decreases the measure. */
  lemma WorkerStepPays(sys: System, a: Action)
    requires JobSafety.Inv(sys) && IsWorkerStep(a)
    ensures Step(sys, a) == sys || Measure(Step(sys, a)) < Measure(sys)
  {
    if Enabled(sys, a) {
      if IsDocumentStep(a) {
        DocumentStepPays(sys, a);
      } else if IsMemoryStep(a) {
        MemoryStepPays(sys, a);
      } else {
        match a
        case ClaimDocument => ClaimDocumentPays(sys);
        case ClaimMemory => ClaimMemoryPays(sys);
        case Abandon(w) => LeaveCost(sys, sys.store, w);
      }
    }
  }

  /** The clock, deletions and forgetting add no work. */
  lemma OtherStepsAreFree(sys: System, a: Action)
    requires a.Tick? || a.Deleting? || a.Forgetting?
    ensures Measure(Step(sys, a)) <= Measure(sys)
  {
    if a.Deleting? { DropCost(sys.store, a.doc, sys.now); }
  }

  /** The worker steps of a run that did something. */
  function Effective(sys: System, actions: seq<Action>): nat {
    if actions == [] then 0
    else
      var before, a := Run(sys, actions[..|actions| - 1]), actions[|actions| - 1];
      Effective(sys, actions[..|actions| - 1]) + if IsWorkerStep(a) && Step(before, a) != before then 1 else 0
  }

  /** From any reachable state, without upserts and restarts, only Measure many worker steps can do anything. */
  lemma {:induction false} WorkIsBounded(sys: System, actions: seq<Action>)
    requires JobSafety.Inv(sys)
    requires forall a | a in actions :: !a.Upserting? && !a.Restart?
    ensures JobSafety.Inv(Run(sys, actions))
    ensures Effective(sys, actions) + Measure(Run(sys, actions)) <= Measure(sys)
  {
    if actions != [] {
      var front, a := actions[..|actions| - 1], actions[|actions| - 1];
      WorkIsBounded(sys, front);
      assert a in actions;
      var before := Run(sys, front);
      JobSafety.StepOk(before, a);
      if IsWorkerStep(a) { WorkerStepPays(before, a); } else { OtherStepsAreFree(before, a); }
    }
  }
}
