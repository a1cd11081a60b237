/**
 The whole protocol as a state machine: the tables, the workers that hold claimed jobs outside the database, the
 clock, and a record of what happened. Every interleaving of the two coordinators with upserts, deletions, abandoned
 tasks and restarts is a sequence of actions; an action that is not enabled does nothing.
 */
module JobProtocol {
  import opened Options
  import opened JobStore
  import JobInvariants
  import ChunkingCoverage
  import Memories

  // ---- workers ------------------------------------------------------------------------------------

  /** How far a memory job has come; a rejected reconciliation was stale, any other error makes it failing. */
  datatype Phase = Fresh | Extracted(candidates: seq<Memories.Proposal>) | Failing | Rejected

  datatype Worker =
    | DocumentWorker(job: ClaimedJob, at: DocumentState)
    | MemoryWorker(task: ClaimedMemoryJob, phase: Phase)

  /** What a run has done for each memory job. */
  datatype Event =
    | Cached(job: JobId)
    | Committed(job: JobId, batch: Memories.Command)
    | Emptied(job: JobId)
    | Requeued(job: JobId)

  datatype System = System(
    store: Store, workers: map<nat, Worker>, nextWorker: nat, now: nat, history: seq<Event>)

  const Initial := System(EmptyStore, map[], 0, 0, [])

  datatype ExtractionFailure = RateLimited | Transport | InvalidOutput | Authentication | Configuration | Provider

  datatype Action =
    | Tick(seconds: nat)
    | Upserting(org: string, input: Upsert)
    | Deleting(doc: DocId)
    | Forgetting(org: string, id: Option<Memories.Id>, content: Option<string>, container: string,
        reason: Option<string>)
    | ClaimDocument
    | Advance(w: nat)
    | PublishPlain(w: nat)
    | PublishEmbedded(w: nat, schedule: bool)
    | DeleteEmpty(w: nat)
    | FailDocument(w: nat)
    | ClaimMemory
    | ReuseExtraction(w: nat)
    | Extract(w: nat, candidates: seq<Memories.Proposal>)
    | ProviderFailure(w: nat, failure: ExtractionFailure)
    | InternalFailure(w: nat)
    | Reconcile(w: nat)
    | Complete(w: nat)
    | Abandon(w: nat)
    | Restart

  /** The steps of a document worker, of a memory worker, and of neither: users, the clock and start-up. */
  predicate IsDocumentStep(a: Action) {
    a.Advance? || a.PublishPlain? || a.PublishEmbedded? || a.DeleteEmpty? || a.FailDocument?
  }

  predicate IsMemoryStep(a: Action) {
    a.ReuseExtraction? || a.Extract? || a.ProviderFailure? || a.InternalFailure? || a.Reconcile? || a.Complete?
  }

  predicate IsOutsideStep(a: Action) {
    a.Tick? || a.Upserting? || a.Deleting? || a.Forgetting? || a.Restart?
  }

  // ---- coordinator decisions ----------------------------------------------------------------------

  function PowerOfTwo(n: nat): nat {
    if n == 0 then 1 else 2 * PowerOfTwo(n - 1)
  }

  /** The delay before another attempt, in seconds; none when trying again cannot help. */
  function RetryDelay(failure: ExtractionFailure, attempt: nat): Option<nat> {
    match failure
    case Authentication => None
    case Configuration => None
    case InvalidOutput => if attempt >= 2 then None else Some(1)
    case _ => Some(PowerOfTwo(if attempt <= 6 then attempt else 6))
  }

  /** The delay doubles from one second up to 64; an invalid answer is retried once, a rejected setup never. */
  lemma {:induction false} Backoff(failure: ExtractionFailure, attempt: nat)
    ensures var first, next := RetryDelay(failure, attempt), RetryDelay(failure, attempt + 1);
            && (first.Some? ==> 1 <= first.value <= 64)
            && (failure.RateLimited? || failure.Transport? || failure.Provider? ==>
                  && first.Some? && (attempt == 0 ==> first.value == 1)
                  && next == Some(if 2 * first.value <= 64 then 2 * first.value else 64))
            && (failure.InvalidOutput? ==> (first.Some? <==> attempt <= 1) && (first.Some? ==> first.value == 1))
            && (failure.Authentication? || failure.Configuration? ==> first.None?)
  {
    assert PowerOfTwo(0) == 1;
    if attempt < 6 {
      PowerBound(attempt);
    } else {
      assert PowerOfTwo(6) == 64;
    }
  }

  lemma {:induction false} PowerBound(n: nat)
    requires n < 6
    ensures 1 <= PowerOfTwo(n) <= 32
  {
    if n > 0 { PowerBound(n - 1); } else { assert PowerOfTwo(0) == 1; }
    assert PowerOfTwo(5) == 32 && PowerOfTwo(4) == 16 && PowerOfTwo(3) == 8 && PowerOfTwo(2) == 4 && PowerOfTwo(1) == 2;
  }

  function FailureName(failure: ExtractionFailure): string {
    match failure
    case RateLimited => "rate_limited"
    case Transport => "transport"
    case InvalidOutput => "invalid_output"
    case Authentication => "authentication"
    case Configuration => "configuration"
    case Provider => "provider"
  }

  function NextStage(at: DocumentState): DocumentState {
    match at
    case Extracting => Chunking
    case Chunking => Embedding
    case _ => Indexing
  }

  /** The texts the embedding executor hands back: each input cut to what the model accepts. */
  function Prepared(texts: seq<string>): seq<string> {
    seq(|texts|, i requires 0 <= i < |texts| =>
      ChunkingCoverage.TruncateUtf16(texts[i], ChunkingCoverage.MAX_UTF16_UNITS))
  }

  // ---- bookkeeping --------------------------------------------------------------------------------

  function WithStore(sys: System, store: Store): System {
    sys.(store := store)
  }

  function Spawn(sys: System, store: Store, worker: Worker): System {
    sys.(store := store, workers := sys.workers[sys.nextWorker := worker], nextWorker := sys.nextWorker + 1)
  }

  function Continue(sys: System, store: Store, w: nat, worker: Worker): System {
    sys.(store := store, workers := sys.workers[w := worker])
  }

  function Leave(sys: System, store: Store, w: nat): System {
    sys.(store := store, workers := map v | v in sys.workers && v != w :: sys.workers[v])
  }

  function Note(sys: System, event: Event): System {
    sys.(history := sys.history + [event])
  }

  /** The document worker w, at one of the given stages. */
  predicate IsDocumentWorker(sys: System, w: nat, stages: set<DocumentState>) {
    w in sys.workers && sys.workers[w].DocumentWorker? && sys.workers[w].at in stages
  }

  predicate IsMemoryWorker(sys: System, w: nat) {
    w in sys.workers && sys.workers[w].MemoryWorker?
  }

  // ---- document worker steps ----------------------------------------------------------------------

  function ClaimDocumentStep(sys: System): System {
    var (store, claimed) := ClaimJob(sys.store, sys.now);
    if claimed.None? then sys else Spawn(sys, store, DocumentWorker(claimed.value, Extracting))
  }

  function AdvanceStep(sys: System, w: nat): System
    requires IsDocumentWorker(sys, w, {Extracting, Chunking, Embedding})
  {
    var h, at := sys.workers[w].job, sys.workers[w].at;
    var (store, result) := MarkJobStage(sys.store, h, NextStage(at));
    if result.Ok? then Continue(sys, store, w, DocumentWorker(h, NextStage(at))) else Leave(sys, store, w)
  }

  // ---- memory worker steps ------------------------------------------------------------------------

  function ClaimMemoryStep(sys: System): System {
    var (store, claimed) := ClaimMemoryJob(sys.store, sys.now);
    if claimed.None? then sys else Spawn(sys, store, MemoryWorker(claimed.value, Fresh))
  }

  function ExtractStep(sys: System, w: nat, candidates: seq<Memories.Proposal>): System
    requires IsMemoryWorker(sys, w)
  {
    var h := sys.workers[w].task;
    var (store, result) := CacheExtraction(sys.store, h, candidates);
    if result.Ok? then Note(Continue(sys, store, w, MemoryWorker(h, Extracted(candidates))), Cached(h.id))
    else Leave(sys, store, w)
  }

  function RetryStep(sys: System, w: nat, kind: string, delay: Option<nat>): System
    requires IsMemoryWorker(sys, w)
  {
    var h := sys.workers[w].task;
    var store := RetryMemoryJob(sys.store, h, kind, delay, sys.now).0;
    var left := Leave(sys, store, w);
    if h.id in store.jobs && store.jobs[h.id].status.Queued? then Note(left, Requeued(h.id)) else left
  }

  function ReconcileStep(sys: System, w: nat): System
    requires IsMemoryWorker(sys, w) && sys.workers[w].phase.Extracted?
  {
    var h, candidates := sys.workers[w].task, sys.workers[w].phase.candidates;
    var (store, result) := ReconcileMemories(sys.store, h, candidates, sys.now);
    match result
    case Ok(_) =>
      var batch := Memories.Publish(Memories.Source(h.org, h.doc, h.container), candidates, sys.now);
      Note(Leave(sys, store, w), Committed(h.id, batch))
    case Err(StaleRevision) => Continue(sys, store, w, MemoryWorker(h, Rejected))
    case Err(_) => Continue(sys, store, w, MemoryWorker(h, Failing))
  }

  function CompleteStep(sys: System, w: nat): System
    requires IsMemoryWorker(sys, w)
  {
    var h := sys.workers[w].task;
    var left := Leave(sys, CompleteMemoryJob(sys.store, h).0, w);
    if Current(sys.store, h.doc, h.revision) then Note(left, Emptied(h.id)) else left
  }

  // ---- the state machine --------------------------------------------------------------------------

  predicate Enabled(sys: System, a: Action) {
    match a
    case Advance(w) =>
      && IsDocumentWorker(sys, w, {Extracting, Chunking, Embedding})
      && (sys.workers[w].at.Chunking? ==> JobInvariants.Chunks(sys.workers[w].job.content) != [])
    case PublishPlain(w) =>
      IsDocumentWorker(sys, w, {Chunking}) && JobInvariants.Chunks(sys.workers[w].job.content) != []
    case PublishEmbedded(w, _) => IsDocumentWorker(sys, w, {Indexing})
    case DeleteEmpty(w) =>
      IsDocumentWorker(sys, w, {Chunking}) && JobInvariants.Chunks(sys.workers[w].job.content) == []
    case FailDocument(w) => IsDocumentWorker(sys, w, {Chunking, Embedding})
    case ReuseExtraction(w) => IsMemoryWorker(sys, w) && sys.workers[w].phase.Fresh?
        && sys.workers[w].task.extraction.Some?
    case Extract(w, _) => IsMemoryWorker(sys, w) && sys.workers[w].phase.Fresh? && sys.workers[w].task.extraction.None?
    case ProviderFailure(w, _) => IsMemoryWorker(sys, w) && sys.workers[w].phase.Fresh?
        && sys.workers[w].task.extraction.None?
    case InternalFailure(w) =>
      && IsMemoryWorker(sys, w)
      && (sys.workers[w].phase.Failing? || (sys.workers[w].phase.Extracted? && sys.workers[w].phase.candidates != []))
    case Reconcile(w) =>
      IsMemoryWorker(sys, w) && sys.workers[w].phase.Extracted? && sys.workers[w].phase.candidates != []
    case Complete(w) =>
      && IsMemoryWorker(sys, w)
      && (sys.workers[w].phase.Rejected? || (sys.workers[w].phase.Extracted? && sys.workers[w].phase.candidates == []))
    case Abandon(w) => w in sys.workers
    case _ => true
  }

  function Perform(sys: System, a: Action): System
    requires Enabled(sys, a)
  {
    match a
    case Tick(seconds) => sys.(now := sys.now + seconds)
    case Upserting(org, input) => WithStore(sys, UpsertDocument(sys.store, org, input, sys.now).0)
    case Deleting(doc) => WithStore(sys, DeleteDocument(sys.store, doc, sys.now))
    case Forgetting(org, id, content, container, reason) =>
      WithStore(sys, sys.store.(log := sys.store.log + [Memories.Forget(org, id, content, container, reason, sys.now)]))
    case ClaimDocument => ClaimDocumentStep(sys)
    case Advance(w) => AdvanceStep(sys, w)
    case PublishPlain(w) =>
      var h := sys.workers[w].job;
      Leave(sys, PublishJob(sys.store, h, JobInvariants.Chunks(h.content), false, sys.now).0, w)
    case PublishEmbedded(w, schedule) =>
      var h := sys.workers[w].job;
      Leave(sys, PublishJob(sys.store, h, Prepared(JobInvariants.Chunks(h.content)), schedule, sys.now).0, w)
    case DeleteEmpty(w) => Leave(sys, DeleteEmptyDocument(sys.store, sys.workers[w].job, sys.now), w)
    case FailDocument(w) => Leave(sys, FailJob(sys.store, sys.workers[w].job), w)
    case ClaimMemory => ClaimMemoryStep(sys)
    case ReuseExtraction(w) =>
      Continue(sys, sys.store, w, MemoryWorker(sys.workers[w].task, Extracted(sys.workers[w].task.extraction.value)))
    case Extract(w, candidates) => ExtractStep(sys, w, candidates)
    case ProviderFailure(w, failure) =>
      RetryStep(sys, w, FailureName(failure), RetryDelay(failure, sys.workers[w].task.attempts))
    case InternalFailure(w) =>
      RetryStep(sys, w, if sys.workers[w].phase.Failing? then "reconciliation" else "embedding", Some(1))
    case Reconcile(w) => ReconcileStep(sys, w)
    case Complete(w) => CompleteStep(sys, w)
    case Abandon(w) => Leave(sys, sys.store, w)
    case Restart => sys.(store := Initialize(sys.store, sys.now), workers := map[])
  }

  function Step(sys: System, a: Action): System {
    if Enabled(sys, a) then Perform(sys, a) else sys
  }

  function Run(sys: System, actions: seq<Action>): System {
    if actions == [] then sys else Step(Run(sys, actions[..|actions| - 1]), actions[|actions| - 1])
  }
}
