/** Safety of every run: the tables stay consistent, no two workers share a job, each memory job commits once. */
module JobSafety {
  import opened Options
  import opened JobStore
  import opened JobInvariants
  import opened JobTransactions
  import opened JobUpserts
  import opened JobRecovery
  import opened JobProtocol
  import ChunkingCoverage
  import Text
  import Memories
  import MemoryInvariants

  // ---- workers ------------------------------------------------------------------------------------

  function JobOf(worker: Worker): JobId {
    match worker
    case DocumentWorker(h, _) => h.id
    case MemoryWorker(h, _) => h.id
  }

  ghost predicate Owns(s: Store, worker: Worker) {
    match worker
    case DocumentWorker(h, at) =>
      OwnsJob(s, h, at) && (at.Embedding? || at.Indexing? ==> Chunks(h.content) != [])
    case MemoryWorker(h, phase) =>
      && OwnsMemoryJob(s, h) && (phase.Rejected? ==> !Current(s, h.doc, h.revision))
      && (phase.Fresh? && Current(s, h.doc, h.revision) ==> h.id in s.jobs && s.jobs[h.id].extraction == h.extraction)
      && (phase.Extracted? && Current(s, h.doc, h.revision) ==>
            h.id in s.jobs && s.jobs[h.id].extraction == Some(phase.candidates))
  }

  /** Every worker owns its job, and no two own the same one. */
  ghost predicate WorkersOk(s: Store, workers: map<nat, Worker>, nextWorker: nat) {
    && (forall w | w in workers :: w < nextWorker && Owns(s, workers[w]))
    && (forall v, w | v in workers && w in workers && JobOf(workers[v]) == JobOf(workers[w]) :: v == w)
  }

  // ---- history ------------------------------------------------------------------------------------

  /** How often a memory job was finished, by a commit or because nothing was extracted. */
  function Finishes(history: seq<Event>, j: JobId): nat {
    if history == [] then 0
    else
      var e := history[|history| - 1];
      Finishes(history[..|history| - 1], j) + if (e.Committed? || e.Emptied?) && e.job == j then 1 else 0
  }

  /** How often a provider's answer was accepted for a memory job. */
  function Caches(history: seq<Event>, j: JobId): nat {
    if history == [] then 0
    else
      var e := history[|history| - 1];
      Caches(history[..|history| - 1], j) + if e.Cached? && e.job == j then 1 else 0
  }

  function Requeues(history: seq<Event>, j: JobId): nat {
    if history == [] then 0
    else
      var e := history[|history| - 1];
      Requeues(history[..|history| - 1], j) + if e.Requeued? && e.job == j then 1 else 0
  }

  /** The batches a history committed, in order. */
  function Batches(history: seq<Event>): seq<Memories.Command> {
    if history == [] then []
    else
      var e := history[|history| - 1];
      Batches(history[..|history| - 1]) + if e.Committed? then [e.batch] else []
  }

  /** The publications among the commands that reached the memory tables. */
  function Publications(log: seq<Memories.Command>): seq<Memories.Command> {
    if log == [] then []
    else
      var c := log[|log| - 1];
      Publications(log[..|log| - 1]) + if c.Publish? then [c] else []
  }

  /** A memory job is extracted at most once, finished at most once, exactly when its row is done, and requeued at most
      three times. */
  ghost predicate JobHistory(s: Store, history: seq<Event>, j: JobId) {
    var finishes, requeues, caches := Finishes(history, j), Requeues(history, j), Caches(history, j);
    && finishes <= 1 && requeues <= 3 && caches <= 1
    && (j >= s.nextId ==> finishes == 0 && requeues == 0 && caches == 0)
    && (j in s.jobs ==>
          && (caches == 1 && Active(s.jobs[j].status) ==> s.jobs[j].extraction.Some?)
          && requeues <= s.jobs[j].attempts && (s.jobs[j].status.Extracting? ==> requeues < s.jobs[j].attempts)
          && (finishes == 1 <==> s.jobs[j].kind.MemoryJob? && s.jobs[j].status.Done?))
  }

  ghost predicate HistoryOk(s: Store, history: seq<Event>) {
    forall j: JobId :: JobHistory(s, history, j)
  }

  /** The publications in the memory log are exactly the commits, and its times never run backwards. */
  ghost predicate LogOk(log: seq<Memories.Command>, history: seq<Event>, now: nat) {
    Publications(log) == Batches(history) && MemoryInvariants.Timed(log, now)
  }

  ghost predicate Inv(sys: System) {
    && StoreOk(sys.store)
    && WorkersOk(sys.store, sys.workers, sys.nextWorker)
    && HistoryOk(sys.store, sys.history)
    && LogOk(sys.store.log, sys.history, sys.now)
  }

  // ---- how a store change affects the rest --------------------------------------------------------

  /** A step that says nothing new about the history of job j. */
  ghost predicate Calm(s: Store, r: Store, j: JobId) {
    && s.nextId <= r.nextId
    && (j in r.jobs ==>
          if j in s.jobs then
            && r.jobs[j].kind == s.jobs[j].kind && r.jobs[j].attempts == s.jobs[j].attempts
            && (r.jobs[j].kind.MemoryJob? ==> (r.jobs[j].status.Done? <==> s.jobs[j].status.Done?))
            && (r.jobs[j].status.Extracting? ==> s.jobs[j].status.Extracting?)
            && (Active(r.jobs[j].status) ==> Active(s.jobs[j].status) && r.jobs[j].extraction == s.jobs[j].extraction)
          else j >= s.nextId && r.jobs[j].status.Queued?)
  }

  lemma QuietHistory(s: Store, r: Store, history: seq<Event>)
    requires HistoryOk(s, history) && forall j: JobId :: Calm(s, r, j)
    ensures HistoryOk(r, history)
  {
    forall j: JobId ensures JobHistory(r, history, j) {
      assert JobHistory(s, history, j) && Calm(s, r, j);
    }
  }

  lemma LocalIsCalm(s: Store, r: Store, id: JobId, j: JobId)
    requires Local(s, r, id) && j != id
    ensures Calm(s, r, j)
  {
  }

  /** One event about the acting job, with its effect on that job's history, leaves the other histories alone. */
  lemma NotedHistory(s: Store, r: Store, id: JobId, history: seq<Event>, event: Event)
    requires HistoryOk(s, history) && Local(s, r, id) && event.job == id
    requires JobHistory(r, history + [event], id)
    ensures HistoryOk(r, history + [event])
  {
    forall j: JobId ensures JobHistory(r, history + [event], j) {
      assert JobHistory(s, history, j);
      Counted(history, event, j);
      if j != id { LocalIsCalm(s, r, id, j); }
    }
  }

  lemma Counted(history: seq<Event>, event: Event, j: JobId)
    ensures Finishes(history + [event], j) ==
              Finishes(history, j) + if (event.Committed? || event.Emptied?) && event.job == j then 1 else 0
    ensures Caches(history + [event], j) == Caches(history, j) + if event.Cached? && event.job == j then 1 else 0
    ensures Requeues(history + [event], j) == Requeues(history, j) + if event.Requeued? && event.job == j then 1 else 0
    ensures Batches(history + [event]) == Batches(history) + if event.Committed? then [event.batch] else []
  {
    assert (history + [event])[..|history|] == history;
  }

  lemma Logged(log: seq<Memories.Command>, c: Memories.Command)
    ensures Publications(log + [c]) == Publications(log) + if c.Publish? then [c] else []
  {
    assert (log + [c])[..|log|] == log;
  }

  lemma LoggedTimed(log: seq<Memories.Command>, c: Memories.Command, now: nat)
    requires MemoryInvariants.Timed(log, now) && c.at == now
    ensures MemoryInvariants.Timed(log + [c], now)
  {
  }

  /** A command that is no publication, issued now, keeps log and history in step. */
  lemma LogOther(log: seq<Memories.Command>, history: seq<Event>, c: Memories.Command, now: nat)
    requires LogOk(log, history, now) && c.at == now && !c.Publish?
    ensures LogOk(log + [c], history, now)
  {
    Logged(log, c);
    LoggedTimed(log, c, now);
  }

  lemma LocalKeepsWorker(s: Store, r: Store, id: JobId, worker: Worker)
    requires Local(s, r, id) && Owns(s, worker) && JobOf(worker) != id
    ensures Owns(r, worker)
  {
    match worker
    case DocumentWorker(h, at) => LocalKeepsOwner(s, r, id, h, at);
    case MemoryWorker(h, phase) => LocalKeepsMemoryOwner(s, r, id, h);
  }

  /** The store moves and worker w's job is the only one touched: w leaves, or goes on as another worker of that job. */
  lemma LocalWorkers(sys: System, r: Store, w: nat)
    requires WorkersOk(sys.store, sys.workers, sys.nextWorker) && w in sys.workers
        && Local(sys.store, r, JobOf(sys.workers[w]))
    ensures WorkersOk(r, Leave(sys, r, w).workers, sys.nextWorker)
    ensures forall worker | JobOf(worker) == JobOf(sys.workers[w]) && Owns(r, worker) ::
              WorkersOk(r, Continue(sys, r, w, worker).workers, sys.nextWorker)
  {
    forall v | v in sys.workers && v != w ensures Owns(r, sys.workers[v]) {
      LocalKeepsWorker(sys.store, r, JobOf(sys.workers[w]), sys.workers[v]);
    }
  }

  /** A claimed job was queued, so nobody owned it. */
  lemma SpawnedWorkers(sys: System, r: Store, worker: Worker)
    requires WorkersOk(sys.store, sys.workers, sys.nextWorker)
    requires Local(sys.store, r, JobOf(worker)) && Owns(r, worker)
    requires JobOf(worker) in sys.store.jobs && sys.store.jobs[JobOf(worker)].status.Queued?
    ensures WorkersOk(r, Spawn(sys, r, worker).workers, sys.nextWorker + 1)
  {
    forall v | v in sys.workers ensures Owns(r, sys.workers[v]) && JobOf(sys.workers[v]) != JobOf(worker) {
      assert Owns(sys.store, sys.workers[v]);
      LocalKeepsWorker(sys.store, r, JobOf(worker), sys.workers[v]);
    }
  }

  // ---- document worker steps ----------------------------------------------------------------------

  /** A claim: the claimed row moves from queued to extracting with one more attempt. */
  lemma ClaimedHistory(s: Store, r: Store, id: JobId, history: seq<Event>)
    requires HistoryOk(s, history) && Local(s, r, id) && id in s.jobs && s.jobs[id].status.Queued?
    requires id in r.jobs && r.jobs[id] == Claimed(s.jobs[id])
    ensures HistoryOk(r, history)
  {
    forall j: JobId ensures JobHistory(r, history, j) {
      assert JobHistory(s, history, j);
      if j != id { LocalIsCalm(s, r, id, j); }
    }
  }

  lemma ClaimDocumentOk(sys: System)
    requires Inv(sys)
    ensures Inv(ClaimDocumentStep(sys))
  {
    var s := sys.store;
    ClaimJobOk(s, sys.now);
    ClaimJobShape(s, sys.now);
    var (r, claimed) := ClaimJob(s, sys.now);
    if claimed.Some? {
      SpawnedWorkers(sys, r, DocumentWorker(claimed.value, Extracting));
      ClaimedHistory(s, r, claimed.value.id, sys.history);
    }
  }

  /** A step that keeps everything but the acting job's row, which it treats calmly. */
  lemma QuietLocal(s: Store, r: Store, id: JobId, history: seq<Event>)
    requires HistoryOk(s, history) && Local(s, r, id) && Calm(s, r, id)
    ensures HistoryOk(r, history)
  {
    forall j: JobId ensures Calm(s, r, j) { if j != id { LocalIsCalm(s, r, id, j); } }
    QuietHistory(s, r, history);
  }

  /** The tables after worker w took its next stage. */
  function AdvancedStore(sys: System, w: nat): Store
    requires Keys(sys.store) && Enabled(sys, Advance(w))
  {
    MarkedStore(sys.store, sys.workers[w].job, NextStage(sys.workers[w].at))
  }

  /** The worker goes on at its next stage, or leaves when its document is gone. */
  lemma AdvanceShape(sys: System, w: nat)
    requires Inv(sys) && Enabled(sys, Advance(w))
    ensures var h, r := sys.workers[w].job, AdvancedStore(sys, w);
            AdvanceStep(sys, w) == if h.doc in sys.store.documents
                                   then Continue(sys, r, w, DocumentWorker(h, NextStage(sys.workers[w].at)))
                                   else Leave(sys, r, w)
  {
    assert Owns(sys.store, sys.workers[w]);
    MarkJobStageShape(sys.store, sys.workers[w].job, sys.workers[w].at, NextStage(sys.workers[w].at));
  }

  lemma AdvancedTables(sys: System, w: nat)
    requires Inv(sys) && Enabled(sys, Advance(w))
    ensures var h, r := sys.workers[w].job, AdvancedStore(sys, w);
            && StoreOk(r) && Local(sys.store, r, h.id) && r.log == sys.store.log && r.nextId == sys.store.nextId
            && Calm(sys.store, r, h.id) && h.id < sys.store.nextId
            && (h.doc in sys.store.documents ==> Owns(r, DocumentWorker(h, NextStage(sys.workers[w].at))))
            && (h.id in sys.store.jobs <==> h.doc in sys.store.documents)
  {
    var s, h, at := sys.store, sys.workers[w].job, sys.workers[w].at;
    assert Owns(s, sys.workers[w]);
    MarkJobStageOk(s, h, at, NextStage(at));
    OwnerIsCurrent(s, h, at);
  }

  lemma AdvanceOk(sys: System, w: nat)
    requires Inv(sys) && Enabled(sys, Advance(w))
    ensures Inv(AdvanceStep(sys, w))
  {
    var r := AdvancedStore(sys, w);
    AdvanceShape(sys, w);
    AdvancedTables(sys, w);
    LocalWorkers(sys, r, w);
    QuietLocal(sys.store, r, sys.workers[w].job.id, sys.history);
  }

  lemma PreparedChunks(content: string)
    ensures Prepared(Chunks(content)) == Chunks(content)
  {
    ChunkingCoverage.DefaultChunksAreNotTruncated(content);
    forall i | 0 <= i < |Chunks(content)| ensures Prepared(Chunks(content))[i] == Chunks(content)[i] {
      assert Chunks(content)[i] in Chunks(content);
    }
  }

  /** In general each text is cut to its longest prefix of at most 8000 code units. */
  lemma PreparedIsLongest(texts: seq<string>, i: nat)
    requires i < |texts|
    ensures |Prepared(texts)| == |texts|
    ensures var r := Prepared(texts)[i];
            && r <= texts[i] && Text.Utf16Len(r) <= 8000
            && (|r| < |texts[i]| ==> Text.Utf16Len(texts[i][..|r| + 1]) > 8000)
  {
    ChunkingCoverage.TruncatedIsLongest(texts[i], ChunkingCoverage.MAX_UTF16_UNITS);
  }

  lemma PublishOk(sys: System, w: nat, schedule: bool)
    requires Inv(sys) && IsDocumentWorker(sys, w, {Chunking, Indexing}) && Chunks(sys.workers[w].job.content) != []
    ensures var h := sys.workers[w].job;
            Inv(Leave(sys, PublishJob(sys.store, h, Chunks(h.content), schedule, sys.now).0, w))
  {
    var s, h, at := sys.store, sys.workers[w].job, sys.workers[w].at;
    assert Owns(s, sys.workers[w]);
    var r := PublishedStore(s, h, schedule, sys.now);
    PublishShape(s, h, at, schedule, sys.now);
    PublishJobOk(s, h, at, schedule, sys.now);
    LocalWorkers(sys, r, w);
    QuietLocal(s, r, h.id, sys.history);
  }

  lemma FailDocumentOk(sys: System, w: nat)
    requires Inv(sys) && Enabled(sys, FailDocument(w))
    ensures Inv(Leave(sys, FailJob(sys.store, sys.workers[w].job), w))
  {
    var s, h, at := sys.store, sys.workers[w].job, sys.workers[w].at;
    assert Owns(s, sys.workers[w]);
    var r := FailJob(s, h);
    FailJobOk(s, h, at);
    LocalWorkers(sys, r, w);
    QuietLocal(s, r, h.id, sys.history);
  }

  // ---- memory worker steps ------------------------------------------------------------------------

  lemma ClaimMemoryOk(sys: System)
    requires Inv(sys)
    ensures Inv(ClaimMemoryStep(sys))
  {
    var s := sys.store;
    ClaimMemoryJobOk(s, sys.now);
    ClaimMemoryJobShape(s, sys.now);
    var (r, claimed) := ClaimMemoryJob(s, sys.now);
    if claimed.Some? {
      SpawnedWorkers(sys, r, MemoryWorker(claimed.value, Fresh));
      ClaimedHistory(s, r, claimed.value.id, sys.history);
    }
  }

  /** An accepted answer: the worker was fresh, so nothing was cached before. */
  lemma CachedHistory(s: Store, h: ClaimedMemoryJob, candidates: seq<Memories.Proposal>, history: seq<Event>)
    requires StoreOk(s) && Owns(s, MemoryWorker(h, Fresh)) && HistoryOk(s, history) && h.extraction.None?
    ensures if Current(s, h.doc, h.revision) then HistoryOk(CachedStore(s, h, candidates), history + [Cached(h.id)])
            else HistoryOk(CachedStore(s, h, candidates), history)
  {
    var r := CachedStore(s, h, candidates);
    CacheExtractionOk(s, h, candidates);
    MemoryOwnerState(s, h);
    if Current(s, h.doc, h.revision) {
      assert JobHistory(s, history, h.id);
      Counted(history, Cached(h.id), h.id);
      NotedHistory(s, r, h.id, history, Cached(h.id));
    }
  }

  lemma ExtractOk(sys: System, w: nat, candidates: seq<Memories.Proposal>)
    requires Inv(sys) && Enabled(sys, Extract(w, candidates))
    ensures Inv(ExtractStep(sys, w, candidates))
  {
    var s, h := sys.store, sys.workers[w].task;
    assert Owns(s, sys.workers[w]);
    CacheShape(s, h, candidates);
    CacheExtractionOk(s, h, candidates);
    CachedHistory(s, h, candidates, sys.history);
    Counted(sys.history, Cached(h.id), h.id);
    var r := CachedStore(s, h, candidates);
    LocalWorkers(sys, r, w);
    assert Owns(r, MemoryWorker(h, Extracted(candidates)));
  }

  /** A worker that only changes its own phase. */
  lemma PhaseOk(sys: System, w: nat, worker: Worker)
    requires Inv(sys) && w in sys.workers && JobOf(worker) == JobOf(sys.workers[w]) && Owns(sys.store, worker)
    ensures Inv(Continue(sys, sys.store, w, worker))
  {
  }

  /** A retry that queues the job again counts against its attempts. */
  lemma RetriedHistory(s: Store, h: ClaimedMemoryJob, kind: string, delay: Option<nat>, now: nat, history: seq<Event>)
    requires StoreOk(s) && OwnsMemoryJob(s, h) && HistoryOk(s, history)
    ensures var r := RetriedStore(s, h, kind, delay, now);
            if h.id in r.jobs && r.jobs[h.id].status.Queued? then HistoryOk(r, history + [Requeued(h.id)])
            else HistoryOk(r, history)
  {
    var r := RetriedStore(s, h, kind, delay, now);
    RetryMemoryJobOk(s, h, kind, delay, now);
    MemoryOwnerState(s, h);
    if h.id in r.jobs && r.jobs[h.id].status.Queued? {
      assert JobHistory(s, history, h.id);
      Counted(history, Requeued(h.id), h.id);
      NotedHistory(s, r, h.id, history, Requeued(h.id));
    } else {
      QuietLocal(s, r, h.id, history);
    }
  }

  lemma RetryOk(sys: System, w: nat, kind: string, delay: Option<nat>)
    requires Inv(sys) && IsMemoryWorker(sys, w)
    ensures Inv(RetryStep(sys, w, kind, delay))
  {
    var s, h := sys.store, sys.workers[w].task;
    assert Owns(s, sys.workers[w]);
    RetryShape(s, h, kind, delay, sys.now);
    RetryMemoryJobOk(s, h, kind, delay, sys.now);
    RetriedHistory(s, h, kind, delay, sys.now, sys.history);
    LocalWorkers(sys, RetriedStore(s, h, kind, delay, sys.now), w);
    Counted(sys.history, Requeued(h.id), h.id);
  }

  /** Finishing a memory job: its extracting row becomes done. */
  lemma FinishedHistory(s: Store, r: Store, id: JobId, history: seq<Event>, event: Event)
    requires HistoryOk(s, history) && Local(s, r, id) && event.job == id && (event.Committed? || event.Emptied?)
    requires id < s.nextId && id in s.jobs && s.jobs[id].kind.MemoryJob? && s.jobs[id].status.Extracting?
    requires id in r.jobs && r.jobs[id] == Completed(s.jobs[id])
    ensures HistoryOk(r, history + [event])
  {
    assert JobHistory(s, history, id);
    Counted(history, event, id);
    NotedHistory(s, r, id, history, event);
  }

  lemma ReconcileOk(sys: System, w: nat)
    requires Inv(sys) && Enabled(sys, Reconcile(w))
    ensures Inv(ReconcileStep(sys, w))
  {
    var s, h, candidates := sys.store, sys.workers[w].task, sys.workers[w].phase.candidates;
    assert Owns(s, sys.workers[w]);
    var (r, result) := ReconcileMemories(s, h, candidates, sys.now);
    ReconcileMemoriesOk(s, h, candidates, sys.now);
    if result.Ok? {
      var batch := Memories.Publish(Memories.Source(h.org, h.doc, h.container), candidates, sys.now);
      LocalWorkers(sys, r, w);
      FinishedHistory(s, r, h.id, sys.history, Committed(h.id, batch));
      Counted(sys.history, Committed(h.id, batch), h.id);
      Logged(s.log, batch);
      LoggedTimed(s.log, batch, sys.now);
    } else {
      PhaseOk(sys, w, MemoryWorker(h, if result.error.StaleRevision? then Rejected else Failing));
    }
  }

  lemma CompleteOk(sys: System, w: nat)
    requires Inv(sys) && IsMemoryWorker(sys, w)
    ensures Inv(CompleteStep(sys, w))
  {
    var s, h := sys.store, sys.workers[w].task;
    assert Owns(s, sys.workers[w]);
    var r := CompletedStore(s, h);
    CompleteShape(s, h);
    CompleteMemoryJobOk(s, h);
    MemoryOwnerState(s, h);
    LocalWorkers(sys, r, w);
    if Current(s, h.doc, h.revision) {
      FinishedHistory(s, r, h.id, sys.history, Emptied(h.id));
      Counted(sys.history, Emptied(h.id), h.id);
    } else {
      QuietLocal(s, r, h.id, sys.history);
    }
  }

  // ---- deletion and other steps from outside ------------------------------------------------------

  lemma DroppedWorkers(sys: System, doc: DocId)
    requires Inv(sys)
    ensures WorkersOk(DropDocument(sys.store, doc, sys.now), sys.workers, sys.nextWorker)
  {
    forall w | w in sys.workers ensures Owns(DropDocument(sys.store, doc, sys.now), sys.workers[w]) {
      match sys.workers[w]
      case DocumentWorker(h, at) => DropKeepsOwner(sys.store, doc, sys.now, h, at);
      case MemoryWorker(h, _) => DropKeepsMemoryOwner(sys.store, doc, sys.now, h);
    }
  }

  lemma DroppedHistory(s: Store, doc: DocId, now: nat, history: seq<Event>)
    requires HistoryOk(s, history) && LogOk(s.log, history, now)
    ensures HistoryOk(DropDocument(s, doc, now), history) && LogOk(DropDocument(s, doc, now).log, history, now)
  {
    forall j: JobId ensures Calm(s, DropDocument(s, doc, now), j) { }
    QuietHistory(s, DropDocument(s, doc, now), history);
    LogOther(s.log, history, Memories.Unlink(doc, now), now);
  }

  lemma DropOk(sys: System, doc: DocId)
    requires Inv(sys)
    ensures Inv(WithStore(sys, DropDocument(sys.store, doc, sys.now)))
  {
    DropDocumentOk(sys.store, doc, sys.now);
    DroppedWorkers(sys, doc);
    DroppedHistory(sys.store, doc, sys.now, sys.history);
  }

  lemma LeavingOk(sys: System, w: nat)
    requires Inv(sys)
    ensures Inv(Leave(sys, sys.store, w))
  {
  }

  lemma UpsertingOk(sys: System, org: string, input: Upsert)
    requires Inv(sys)
    ensures Inv(WithStore(sys, UpsertDocument(sys.store, org, input, sys.now).0))
  {
    var s, r := sys.store, Upserted(sys.store, org, input, sys.now);
    UpsertShape(s, org, input, sys.now);
    UpsertDocumentOk(s, org, input, sys.now);
    UpsertedWorkers(sys, org, input);
    UpsertedCalm(s, org, input, sys.now);
    QuietHistory(s, r, sys.history);
  }

  lemma UpsertedWorkers(sys: System, org: string, input: Upsert)
    requires StoreOk(sys.store) && WorkersOk(sys.store, sys.workers, sys.nextWorker)
    ensures WorkersOk(Upserted(sys.store, org, input, sys.now), sys.workers, sys.nextWorker)
  {
    var s, r := sys.store, Upserted(sys.store, org, input, sys.now);
    forall w | w in sys.workers ensures Owns(r, sys.workers[w]) {
      UpsertKeepsStale(s, org, input, sys.now);
      UpsertKeepsRows(s, org, input, sys.now);
      match sys.workers[w]
      case DocumentWorker(h, at) => UpsertKeepsOwner(s, org, input, sys.now, h, at);
      case MemoryWorker(h, _) => UpsertKeepsMemoryOwner(s, org, input, sys.now, h);
    }
  }

  /** Revisions only grow, and a new document has an unused identifier. */
  lemma UpsertKeepsStale(s: Store, org: string, input: Upsert, now: nat)
    requires Keys(s)
    ensures var r := Upserted(s, org, input, now);
            forall d | d in r.documents && d < s.nextId ::
              d in s.documents && s.documents[d].revision <= r.documents[d].revision
  {
  }

  /** A job row changes only when its document is rewritten. */
  lemma UpsertKeepsRows(s: Store, org: string, input: Upsert, now: nat)
    requires Keys(s)
    ensures var r := Upserted(s, org, input, now);
            forall j | j in s.jobs ::
              j in r.jobs && (r.jobs[j] == s.jobs[j]
                              || (s.jobs[j].doc in s.documents && s.jobs[j].doc in r.documents
                                  && s.documents[s.jobs[j].doc].revision < r.documents[s.jobs[j].doc].revision))
  {
  }

  lemma UpsertedCalm(s: Store, org: string, input: Upsert, now: nat)
    requires Keys(s)
    ensures Upserted(s, org, input, now).log == s.log
    ensures forall j: JobId :: Calm(s, Upserted(s, org, input, now), j)
  {
    match OutcomeOf(s, org, input)
    case Rewriting(doc) => RequeuedCalm(s, doc, input, now);
    case _ =>
  }

  lemma RequeuedCalm(s: Store, doc: DocId, input: Upsert, now: nat)
    requires Keys(s) && doc in s.documents
    ensures forall j: JobId :: Calm(s, Reissued(s, doc, input, now), j)
  {
  }

  lemma RecoveredCalm(s: Store, now: nat)
    requires Keys(s)
    ensures Recovered(s, now).log == s.log
    ensures forall j: JobId :: Calm(s, Recovered(s, now), j)
  {
  }

  lemma RestartOk(sys: System)
    requires Inv(sys)
    ensures Inv(Perform(sys, Restart))
  {
    InitializeShape(sys.store, sys.now);
    RecoveredOk(sys.store, sys.now);
    RecoveredCalm(sys.store, sys.now);
    QuietHistory(sys.store, Recovered(sys.store, sys.now), sys.history);
  }

  // ---- every run ----------------------------------------------------------------------------------

  lemma ForgettingOk(sys: System, c: Memories.Command)
    requires Inv(sys) && c.at == sys.now && !c.Publish?
    ensures Inv(WithStore(sys, sys.store.(log := sys.store.log + [c])))
  {
    var s, r := sys.store, sys.store.(log := sys.store.log + [c]);
    LogIrrelevant(s, s.log + [c]);
    LogOther(s.log, sys.history, c, sys.now);
    forall j: JobId ensures Calm(s, r, j) { }
    QuietHistory(s, r, sys.history);
    forall w | w in sys.workers ensures Owns(r, sys.workers[w]) { assert Owns(s, sys.workers[w]); }
  }

  lemma DeleteEmptyOk(sys: System, w: nat)
    requires Inv(sys) && Enabled(sys, DeleteEmpty(w))
    ensures Inv(Perform(sys, DeleteEmpty(w)))
  {
    var h := sys.workers[w].job;
    var left, r := Leave(sys, sys.store, w), DeleteEmptyDocument(sys.store, h, sys.now);
    LeavingOk(sys, w);
    DropOk(left, h.doc);
    assert r == sys.store || r == DropDocument(sys.store, h.doc, sys.now);
    assert Perform(sys, DeleteEmpty(w)) == WithStore(left, r);
  }

  lemma DocumentStepOk(sys: System, a: Action)
    requires Inv(sys) && Enabled(sys, a)
    requires IsDocumentStep(a)
    ensures Inv(Perform(sys, a))
  {
    match a
    case Advance(w) => AdvanceOk(sys, w);
    case PublishPlain(w) => PublishOk(sys, w, false);
    case PublishEmbedded(w, schedule) =>
      assert Owns(sys.store, sys.workers[w]);
      PreparedChunks(sys.workers[w].job.content);
      PublishOk(sys, w, schedule);
    case DeleteEmpty(w) => DeleteEmptyOk(sys, w);
    case FailDocument(w) => FailDocumentOk(sys, w);
  }

  lemma MemoryStepOk(sys: System, a: Action)
    requires Inv(sys) && Enabled(sys, a)
    requires IsMemoryStep(a)
    ensures Inv(Perform(sys, a))
  {
    match a
    case ReuseExtraction(w) =>
      PhaseOk(sys, w, MemoryWorker(sys.workers[w].task, Extracted(sys.workers[w].task.extraction.value)));
    case Extract(w, candidates) => ExtractOk(sys, w, candidates);
    case ProviderFailure(w, failure) =>
      RetryOk(sys, w, FailureName(failure), RetryDelay(failure, sys.workers[w].task.attempts));
    case InternalFailure(w) =>
      RetryOk(sys, w, if sys.workers[w].phase.Failing? then "reconciliation" else "embedding", Some(1));
    case Reconcile(w) => ReconcileOk(sys, w);
    case Complete(w) => CompleteOk(sys, w);
  }

  lemma LogLater(log: seq<Memories.Command>, history: seq<Event>, now: nat, later: nat)
    requires LogOk(log, history, now) && now <= later
    ensures LogOk(log, history, later)
  {
  }

  lemma TickOk(sys: System, seconds: nat)
    requires Inv(sys)
    ensures Inv(sys.(now := sys.now + seconds))
  {
    LogLater(sys.store.log, sys.history, sys.now, sys.now + seconds);
  }

  lemma TickStepOk(sys: System, a: Action)
    requires Inv(sys) && a.Tick?
    ensures Inv(Perform(sys, a))
  {
    TickOk(sys, a.seconds);
  }

  lemma ForgettingStepOk(sys: System, a: Action)
    requires Inv(sys) && a.Forgetting?
    ensures Inv(Perform(sys, a))
  {
    ForgettingOk(sys, Memories.Forget(a.org, a.id, a.content, a.container, a.reason, sys.now));
  }

  lemma DeletingStepOk(sys: System, a: Action)
    requires Inv(sys) && a.Deleting?
    ensures Inv(Perform(sys, a))
  {
    DropOk(sys, a.doc);
  }

  lemma OutsideStepOk(sys: System, a: Action)
    requires Inv(sys) && IsOutsideStep(a)
    ensures Inv(Perform(sys, a))
  {
    match a
    case Tick(_) => TickStepOk(sys, a);
    case Upserting(org, input) => UpsertingOk(sys, org, input);
    case Deleting(_) => DeletingStepOk(sys, a);
    case Forgetting(_, _, _, _, _) => ForgettingStepOk(sys, a);
    case Restart => RestartOk(sys);
  }

  lemma PerformOk(sys: System, a: Action)
    requires Inv(sys) && Enabled(sys, a)
    ensures Inv(Perform(sys, a))
  {
    if IsDocumentStep(a) {
      DocumentStepOk(sys, a);
    } else if IsMemoryStep(a) {
      MemoryStepOk(sys, a);
    } else if IsOutsideStep(a) {
      OutsideStepOk(sys, a);
    } else {
      match a
      case ClaimDocument => ClaimDocumentOk(sys);
      case ClaimMemory => ClaimMemoryOk(sys);
      case Abandon(w) => LeavingOk(sys, w);
    }
  }

  /** Every step of the protocol keeps the invariant. */
  lemma StepOk(sys: System, a: Action)
    requires Inv(sys)
    ensures Inv(Step(sys, a))
  {
    if Enabled(sys, a) { PerformOk(sys, a); }
  }

  lemma InitialOk()
    ensures Inv(Initial)
  {
  }

  /** The invariant holds in every state that any interleaving of actions reaches. */
  lemma {:induction false} RunOk(actions: seq<Action>)
    ensures Inv(Run(Initial, actions))
  {
    if actions == [] {
      InitialOk();
    } else {
      RunOk(actions[..|actions| - 1]);
      StepOk(Run(Initial, actions[..|actions| - 1]), actions[|actions| - 1]);
    }
  }
}
