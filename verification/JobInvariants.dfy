/** The invariant of the document and job tables, and the transactions' effect on it. */
module JobInvariants {
  import opened Options
  import opened JobStore
  import Chunking

  /** What the default chunker makes of a document's content. */
  function Chunks(content: string): seq<string> {
    Chunking.ChunkAt(content, Chunking.DEFAULT_CHUNK_SIZE)
  }

  ghost predicate Holds(rows: seq<ChunkRow>, contents: seq<string>) {
    |rows| == |contents| && forall i | 0 <= i < |rows| :: rows[i].content == contents[i]
  }

  /** The stored chunks are exactly the chunks of the current content, and there are some. */
  ghost predicate Indexed(s: Store, d: DocId)
    requires d in s.documents && d in s.chunks
  {
    Holds(s.chunks[d], Chunks(s.documents[d].content)) && s.chunks[d] != []
  }

  ghost predicate Keys(s: Store) {
    && s.chunks.Keys == s.documents.Keys
    && (forall d | d in s.documents :: d < s.nextId)
    && (forall j | j in s.jobs :: j < s.nextId && s.jobs[j].doc in s.documents)
  }

  /** How an active job and the state of its document go together. */
  ghost predicate Coupled(s: Store, kind: JobKind, status: DocumentState, d: DocId)
    requires Keys(s) && d in s.documents
  {
    match kind
    case DocumentJob => s.documents[d].status == status
    case MemoryJob => (status.Queued? || status.Extracting?) && s.documents[d].status.Indexing? && Indexed(s, d)
  }

  ghost predicate JobOk(s: Store, j: JobId)
    requires Keys(s) && j in s.jobs
  {
    var job := s.jobs[j];
    && job.revision <= s.documents[job.doc].revision
    && (Active(job.status) ==>
          job.revision == s.documents[job.doc].revision && Coupled(s, job.kind, job.status, job.doc))
  }

  predicate ActiveFor(jobs: map<JobId, Job>, j: JobId, d: DocId) {
    j in jobs && jobs[j].doc == d && Active(jobs[j].status)
  }

  ghost predicate HasActive(jobs: map<JobId, Job>, d: DocId) {
    exists j :: ActiveFor(jobs, j, d)
  }

  /** A settled document is done or failed; any other has an active job. */
  predicate Settled(status: DocumentState) {
    status.Done? || status.Failed?
  }

  ghost predicate DocOk(s: Store, d: DocId)
    requires Keys(s) && d in s.documents
  {
    && (s.documents[d].status.Done? ==> Indexed(s, d))
    && (HasActive(s.jobs, d) <==> !Settled(s.documents[d].status))
  }

  ghost predicate OneActive(jobs: map<JobId, Job>) {
    forall j, k, d | ActiveFor(jobs, j, d) && ActiveFor(jobs, k, d) :: j == k
  }

  predicate HasId(chunks: map<DocId, seq<ChunkRow>>, d: DocId, i: nat, id: nat) {
    d in chunks && i < |chunks[d]| && chunks[d][i].stableId == id
  }

  /** Stable ids are distinct over all chunk rows of all documents, and below the counter. */
  ghost predicate StableIds(chunks: map<DocId, seq<ChunkRow>>, nextId: nat) {
    && (forall d: DocId, i: nat, id: nat | HasId(chunks, d, i, id) :: id < nextId)
    && (forall d: DocId, i: nat, e: DocId, k: nat, id: nat | HasId(chunks, d, i, id) && HasId(chunks, e, k, id) ::
          d == e && i == k)
  }

  ghost predicate StoreOk(s: Store) {
    && Keys(s)
    && (forall j {:trigger JobOk(s, j)} | j in s.jobs :: JobOk(s, j))
    && (forall d {:trigger DocOk(s, d)} | d in s.documents :: DocOk(s, d))
    && OneActive(s.jobs)
    && StableIds(s.chunks, s.nextId)
  }

  // ---- one job and its document -------------------------------------------------------------------

  /** A job and its document after both rows were rewritten. */
  function Rewrite(s: Store, id: JobId, job: Job, status: DocumentState): Store
    requires job.doc in s.documents
  {
    s.(jobs := s.jobs[id := job], documents := s.documents[job.doc := s.documents[job.doc].(status := status)])
  }

  /** What the new job row and the new document state must satisfy. */
  ghost predicate GoodRewrite(s: Store, id: JobId, job: Job, status: DocumentState) {
    && Keys(s) && id in s.jobs
    && job.doc == s.jobs[id].doc && job.kind == s.jobs[id].kind && job.revision == s.jobs[id].revision
    && (if Active(job.status) then
          match job.kind
          case DocumentJob => status == job.status
          case MemoryJob => (job.status.Queued? || job.status.Extracting?) && status.Indexing? && Indexed(s, job.doc)
        else Settled(status) && (status.Done? ==> Indexed(s, job.doc)))
  }

  lemma RewriteActive(s: Store, id: JobId, job: Job, status: DocumentState, j: JobId, d: DocId)
    requires GoodRewrite(s, id, job, status)
    ensures var r := Rewrite(s, id, job, status);
            ActiveFor(r.jobs, j, d) <==> if j == id then d == job.doc && Active(job.status) else ActiveFor(s.jobs, j, d)
  {
  }

  lemma RewriteJobs(s: Store, id: JobId, job: Job, status: DocumentState, j: JobId)
    requires StoreOk(s) && GoodRewrite(s, id, job, status) && Active(s.jobs[id].status) && j in s.jobs
    ensures JobOk(Rewrite(s, id, job, status), j)
  {
    assert JobOk(s, j) && JobOk(s, id);
    if j != id && s.jobs[j].doc == job.doc {
      assert ActiveFor(s.jobs, id, job.doc) && !ActiveFor(s.jobs, j, job.doc);
    }
  }

  lemma RewriteDocs(s: Store, id: JobId, job: Job, status: DocumentState, d: DocId)
    requires StoreOk(s) && GoodRewrite(s, id, job, status) && Active(s.jobs[id].status) && d in s.documents
    ensures DocOk(Rewrite(s, id, job, status), d)
  {
    var r := Rewrite(s, id, job, status);
    assert DocOk(s, d);
    assert ActiveFor(s.jobs, id, job.doc);
    if HasActive(r.jobs, d) {
      var j :| ActiveFor(r.jobs, j, d);
      RewriteActive(s, id, job, status, j, d);
    }
    if HasActive(s.jobs, d) {
      var j :| ActiveFor(s.jobs, j, d);
      RewriteActive(s, id, job, status, j, d);
      RewriteActive(s, id, job, status, id, d);
    }
  }

  /** Rewriting an active job together with its document keeps the invariant. */
  lemma RewriteOk(s: Store, id: JobId, job: Job, status: DocumentState)
    requires StoreOk(s) && id in s.jobs && Active(s.jobs[id].status) && GoodRewrite(s, id, job, status)
    ensures StoreOk(Rewrite(s, id, job, status))
  {
    var r := Rewrite(s, id, job, status);
    forall j | j in r.jobs ensures JobOk(r, j) { RewriteJobs(s, id, job, status, j); }
    forall d | d in r.documents ensures DocOk(r, d) { RewriteDocs(s, id, job, status, d); }
    forall j, k, d | ActiveFor(r.jobs, j, d) && ActiveFor(r.jobs, k, d) ensures j == k {
      RewriteActive(s, id, job, status, j, d);
      RewriteActive(s, id, job, status, k, d);
      assert ActiveFor(s.jobs, id, job.doc);
    }
  }

  // ---- a new job ----------------------------------------------------------------------------------

  function AddJob(s: Store, job: Job, status: DocumentState): Store
    requires job.doc in s.documents
  {
    SetDocument(QueueJob(s, job), job.doc, job.revision, status)
  }

  lemma AddedKeys(s: Store, job: Job, status: DocumentState)
    requires Keys(s) && Current(s, job.doc, job.revision)
    ensures var r := AddJob(s, job, status);
            && Keys(r) && r.chunks == s.chunks && r.nextId == s.nextId + 1
            && r.jobs == s.jobs[s.nextId := job]
            && r.documents == s.documents[job.doc := s.documents[job.doc].(status := status)]
  {
  }

  lemma AddedActive(s: Store, job: Job, status: DocumentState)
    requires Keys(s) && Active(job.status) && job.doc in s.documents
    ensures forall j, d :: ActiveFor(AddJob(s, job, status).jobs, j, d)
                           <==> (j == s.nextId && d == job.doc) || ActiveFor(s.jobs, j, d)
  {
  }

  lemma AddJobJobs(s: Store, job: Job, status: DocumentState, j: JobId)
    requires StoreOk(s) && Current(s, job.doc, job.revision) && Settled(s.documents[job.doc].status) && j in s.jobs
    ensures Keys(AddJob(s, job, status)) && JobOk(AddJob(s, job, status), j)
  {
    AddedKeys(s, job, status);
    assert JobOk(s, j) && DocOk(s, job.doc);
    assert s.jobs[j].doc == job.doc ==> !ActiveFor(s.jobs, j, job.doc);
  }

  lemma AddJobDocs(s: Store, job: Job, status: DocumentState, d: DocId)
    requires StoreOk(s) && Current(s, job.doc, job.revision) && Active(job.status) && !Settled(status)
        && d in s.documents
    ensures Keys(AddJob(s, job, status)) && DocOk(AddJob(s, job, status), d)
  {
    var r := AddJob(s, job, status);
    AddedKeys(s, job, status);
    AddedActive(s, job, status);
    assert DocOk(s, d);
    assert ActiveFor(r.jobs, s.nextId, job.doc);
    if HasActive(s.jobs, d) {
      var j :| ActiveFor(s.jobs, j, d);
      assert ActiveFor(r.jobs, j, d);
    }
  }

  /** Queueing a job for a settled document keeps the invariant. */
  lemma AddJobOk(s: Store, job: Job, status: DocumentState)
    requires StoreOk(s) && Current(s, job.doc, job.revision) && Settled(s.documents[job.doc].status)
    requires job.status.Queued?
    requires job.kind.DocumentJob? ==> status.Queued?
    requires job.kind.MemoryJob? ==> status.Indexing? && Indexed(s, job.doc)
    ensures StoreOk(AddJob(s, job, status))
  {
    var r, id := AddJob(s, job, status), s.nextId;
    assert DocOk(s, job.doc);
    AddedKeys(s, job, status);
    AddedActive(s, job, status);
    forall j | j in r.jobs ensures JobOk(r, j) {
      if j != id { AddJobJobs(s, job, status, j); }
    }
    forall d | d in r.documents ensures DocOk(r, d) { AddJobDocs(s, job, status, d); }
  }

  // ---- chunks -------------------------------------------------------------------------------------

  lemma SetChunksStable(s: Store, d: DocId, contents: seq<string>)
    requires d in s.chunks && StableIds(s.chunks, s.nextId)
    ensures StableIds(PutChunks(s, d, contents).chunks, PutChunks(s, d, contents).nextId)
  {
    var r := PutChunks(s, d, contents);
    forall e: DocId, i: nat, id: nat | HasId(r.chunks, e, i, id)
      ensures if e == d && id >= s.nextId then id == s.nextId + i else HasId(s.chunks, e, i, id) && id < s.nextId
    {
      if e == d && i < |s.chunks[d]| && s.chunks[d][i].content == contents[i] {
        assert HasId(s.chunks, d, i, id);
      } else if e != d {
        assert HasId(s.chunks, e, i, id);
      }
    }
  }

  /** Replacing the chunks of a document whose document job is active keeps the invariant. */
  lemma SetChunksOk(s: Store, id: JobId, contents: seq<string>)
    requires StoreOk(s) && id in s.jobs && Active(s.jobs[id].status) && s.jobs[id].kind.DocumentJob?
    ensures StoreOk(PutChunks(s, s.jobs[id].doc, contents))
  {
    var doc := s.jobs[id].doc;
    var r := PutChunks(s, doc, contents);
    SetChunksStable(s, doc, contents);
    assert forall j, d :: ActiveFor(r.jobs, j, d) <==> ActiveFor(s.jobs, j, d);
    assert ActiveFor(s.jobs, id, doc) && JobOk(s, id) && DocOk(s, doc);
    forall j | j in r.jobs ensures JobOk(r, j) {
      assert JobOk(s, j);
      if j != id { assert s.jobs[j].doc == doc ==> !ActiveFor(s.jobs, j, doc); }
    }
    forall d | d in r.documents ensures DocOk(r, d) {
      assert DocOk(s, d);
      assert HasActive(r.jobs, d) <==> HasActive(s.jobs, d);
    }
  }

  // ---- handles ------------------------------------------------------------------------------------

  /** A live document handle: its job is in progress at the worker's stage, or its document is gone. */
  ghost predicate OwnsJob(s: Store, h: ClaimedJob, at: DocumentState) {
    InProgress(at) && h.id < s.nextId && h.doc < s.nextId &&
    if h.id in s.jobs then
      && s.jobs[h.id].doc == h.doc && s.jobs[h.id].revision == h.revision && s.jobs[h.id].kind.DocumentJob?
      && s.jobs[h.id].status == at
      && h.doc in s.documents && s.documents[h.doc].content == h.content
    else h.doc !in s.documents
  }

  /** A live memory handle: extracting while its revision is current, failed as stale once it is not. */
  ghost predicate OwnsMemoryJob(s: Store, h: ClaimedMemoryJob) {
    h.id < s.nextId && h.doc < s.nextId &&
    if h.id in s.jobs then
      && s.jobs[h.id].doc == h.doc && s.jobs[h.id].revision == h.revision && s.jobs[h.id].kind.MemoryJob?
      && s.jobs[h.id].attempts == h.attempts
      && h.doc in s.documents && h.revision <= s.documents[h.doc].revision
      && (if Current(s, h.doc, h.revision)
          then s.jobs[h.id].status.Extracting? && s.documents[h.doc].content == h.content
               && s.documents[h.doc].org == h.org
          else s.jobs[h.id].status.Failed?)
    else h.doc !in s.documents
  }

  /** What a transaction on one job leaves alone: every other job row, and all of the documents but their status. */
  ghost predicate Local(s: Store, r: Store, id: JobId) {
    && s.nextId <= r.nextId && r.documents.Keys == s.documents.Keys
    && (forall d | d in s.documents :: r.documents[d] == s.documents[d].(status := r.documents[d].status))
    && (forall j | j < s.nextId && j != id :: j in s.jobs <==> j in r.jobs)
    && (forall j | j in s.jobs && j in r.jobs && j != id :: r.jobs[j] == s.jobs[j])
    && (forall j | j in r.jobs && j >= s.nextId :: r.jobs[j].status.Queued?)
  }

  lemma LocalKeepsOwner(s: Store, r: Store, id: JobId, h: ClaimedJob, at: DocumentState)
    requires Local(s, r, id) && OwnsJob(s, h, at) && h.id != id
    ensures OwnsJob(r, h, at)
  {
  }

  lemma LocalKeepsMemoryOwner(s: Store, r: Store, id: JobId, h: ClaimedMemoryJob)
    requires Local(s, r, id) && OwnsMemoryJob(s, h) && h.id != id
    ensures OwnsMemoryJob(r, h)
  {
  }

  lemma RewriteLocal(s: Store, id: JobId, job: Job, status: DocumentState)
    requires Keys(s) && id < s.nextId && job.doc in s.documents
    ensures Local(s, Rewrite(s, id, job, status), id)
  {
  }

  lemma RewriteOwned(s: Store, h: ClaimedJob, job: Job, status: DocumentState)
    requires h.id < s.nextId && h.doc < s.nextId && h.doc in s.documents && s.documents[h.doc].content == h.content
    requires job.doc == h.doc && job.revision == h.revision && job.kind.DocumentJob? && InProgress(job.status)
    ensures OwnsJob(Rewrite(s, h.id, job, status), h, job.status)
  {
  }

  // ---- document job transactions ------------------------------------------------------------------

  function Claimed(job: Job): Job {
    job.(status := Extracting, attempts := job.attempts + 1)
  }

  lemma ClaimJobShape(s: Store, now: nat)
    requires Keys(s)
    ensures var found := OldestClaimable(s, DocumentJob, now, s.nextId);
            ClaimJob(s, now) ==
              if found.None? then (s, None)
              else
                var id := found.value;
                (Rewrite(s, id, Claimed(s.jobs[id]), Extracting),
                 Some(ClaimedJob(id, s.jobs[id].doc, s.documents[s.jobs[id].doc].content, s.jobs[id].revision)))
  {
  }

  lemma ClaimJobOk(s: Store, now: nat)
    requires StoreOk(s)
    ensures var (r, claimed) := ClaimJob(s, now);
            && StoreOk(r)
            && (claimed.Some? ==>
                  && Local(s, r, claimed.value.id) && OwnsJob(r, claimed.value, Extracting)
                  && claimed.value.id in s.jobs && s.jobs[claimed.value.id].status.Queued?)
            && (claimed.None? ==> r == s)
  {
    var found := OldestClaimable(s, DocumentJob, now, s.nextId);
    ClaimJobShape(s, now);
    if found.Some? {
      var id := found.value;
      RewriteOk(s, id, Claimed(s.jobs[id]), Extracting);
      RewriteLocal(s, id, Claimed(s.jobs[id]), Extracting);
      RewriteOwned(s, ClaimJob(s, now).1.value, Claimed(s.jobs[id]), Extracting);
    }
  }

  /** A handle whose job row exists is current, and so is its document. */
  lemma OwnerIsCurrent(s: Store, h: ClaimedJob, at: DocumentState)
    requires StoreOk(s) && OwnsJob(s, h, at)
    ensures h.id in s.jobs <==> h.doc in s.documents
    ensures h.id in s.jobs ==>
              Current(s, h.doc, h.revision) && HasRow(s, h.id, h.revision) && s.documents[h.doc].status == at
  {
    if h.id in s.jobs { assert JobOk(s, h.id); }
  }

  function MarkedStore(s: Store, h: ClaimedJob, stage: DocumentState): Store
    requires Keys(s)
  {
    if h.id in s.jobs then Rewrite(s, h.id, s.jobs[h.id].(status := stage), stage) else s
  }

  /** Taking the next stage fails exactly when the document is gone. */
  lemma MarkJobStageShape(s: Store, h: ClaimedJob, at: DocumentState, stage: DocumentState)
    requires StoreOk(s) && OwnsJob(s, h, at) && ExpectedStage(stage) == Some(at)
    ensures MarkJobStage(s, h, stage) ==
              (MarkedStore(s, h, stage), if h.doc in s.documents then Ok(()) else Err(StaleRevision))
  {
    OwnerIsCurrent(s, h, at);
  }

  lemma MarkJobStageOk(s: Store, h: ClaimedJob, at: DocumentState, stage: DocumentState)
    requires StoreOk(s) && OwnsJob(s, h, at) && ExpectedStage(stage) == Some(at)
    ensures var r := MarkedStore(s, h, stage);
            StoreOk(r) && Local(s, r, h.id) && (h.doc in s.documents ==> OwnsJob(r, h, stage))
  {
    OwnerIsCurrent(s, h, at);
    if h.id in s.jobs {
      var job := s.jobs[h.id].(status := stage);
      RewriteOk(s, h.id, job, stage);
      RewriteLocal(s, h.id, job, stage);
      RewriteOwned(s, h, job, stage);
    }
  }

  lemma FailJobOk(s: Store, h: ClaimedJob, at: DocumentState)
    requires StoreOk(s) && OwnsJob(s, h, at)
    ensures StoreOk(FailJob(s, h)) && Local(s, FailJob(s, h), h.id)
  {
    OwnerIsCurrent(s, h, at);
    if h.id in s.jobs {
      var job := s.jobs[h.id].(status := Failed);
      assert FailJob(s, h) == Rewrite(s, h.id, job, Failed);
      RewriteOk(s, h.id, job, Failed);
      RewriteLocal(s, h.id, job, Failed);
    }
  }

  /** The tables once the chunks are replaced and the job and document are done. */
  function Published(s: Store, h: ClaimedJob): Store
    requires Keys(s) && h.id in s.jobs && s.jobs[h.id].doc == h.doc
  {
    Rewrite(PutChunks(s, h.doc, Chunks(h.content)), h.id, s.jobs[h.id].(status := Done), Done)
  }

  lemma PublishedOk(s: Store, h: ClaimedJob, at: DocumentState)
    requires StoreOk(s) && OwnsJob(s, h, at) && h.id in s.jobs && Chunks(h.content) != []
    ensures StoreOk(Published(s, h)) && h.doc in Published(s, h).documents && Indexed(Published(s, h), h.doc)
    ensures Local(s, Published(s, h), h.id)
    ensures Published(s, h).documents[h.doc].status.Done?
  {
    var contents := Chunks(h.content);
    var s1 := PutChunks(s, h.doc, contents);
    var done := s.jobs[h.id].(status := Done);
    SetChunksOk(s, h.id, contents);
    assert Indexed(s1, h.doc);
    RewriteOk(s1, h.id, done, Done);
    RewriteLocal(s1, h.id, done, Done);
  }

  lemma SettledIsFree(s: Store, doc: DocId, revision: nat)
    requires StoreOk(s) && doc in s.documents && Settled(s.documents[doc].status)
    ensures !IndexTaken(s.jobs, doc, revision)
  {
    assert IndexTaken(s.jobs, doc, revision) ==> HasActive(s.jobs, doc) by {
      if IndexTaken(s.jobs, doc, revision) {
        var j :| j in s.jobs && s.jobs[j].doc == doc && s.jobs[j].revision == revision && Active(s.jobs[j].status);
        assert ActiveFor(s.jobs, j, doc);
      }
    }
    assert DocOk(s, doc);
  }

  lemma AddedLocal(s: Store, s2: Store, id: JobId, job: Job, status: DocumentState)
    requires (forall j | j in s.jobs :: j < s.nextId) && Local(s, s2, id) && job.doc in s2.documents
        && job.status.Queued?
    ensures Local(s, AddJob(s2, job, status), id)
  {
    var r := AddJob(s2, job, status);
    forall d | d in s.documents ensures r.documents[d] == s.documents[d].(status := r.documents[d].status) {
      assert s2.documents[d] == s.documents[d].(status := s2.documents[d].status);
    }
  }

  lemma PublishedScheduled(s: Store, h: ClaimedJob, s2: Store, now: nat)
    requires Keys(s) && StoreOk(s2) && Local(s, s2, h.id) && Current(s2, h.doc, h.revision)
    requires s2.documents[h.doc].status.Done?
    ensures var r := AddJob(s2, NewJob(h.doc, MemoryJob, h.revision, now), Indexing);
            StoreOk(r) && Local(s, r, h.id)
  {
    var job := NewJob(h.doc, MemoryJob, h.revision, now);
    assert DocOk(s2, h.doc);
    AddedLocal(s, s2, h.id, job, Indexing);
    AddJobOk(s2, job, Indexing);
  }

  /** A live handle's publication: nothing once the document is gone; a memory job is queued when scheduled. */
  ghost function PublishedStore(s: Store, h: ClaimedJob, schedule: bool, now: nat): Store
    requires Keys(s) && (h.id in s.jobs ==> s.jobs[h.id].doc == h.doc)
  {
    if h.id !in s.jobs then s
    else
      var done := Published(s, h);
      if schedule then AddJob(done, NewJob(h.doc, MemoryJob, h.revision, now), Indexing) else done
  }

  lemma PublishFree(s: Store, h: ClaimedJob, at: DocumentState)
    requires StoreOk(s) && OwnsJob(s, h, at) && h.id in s.jobs && Chunks(h.content) != []
    ensures !IndexTaken(FinishJob(PutChunks(s, h.doc, Chunks(h.content)), h).jobs, h.doc, h.revision)
  {
    OwnerIsCurrent(s, h, at);
    PublishedOk(s, h, at);
    SettledIsFree(Published(s, h), h.doc, h.revision);
    assert FinishJob(PutChunks(s, h.doc, Chunks(h.content)), h).jobs == Published(s, h).jobs;
  }

  /** The unique index never rejects the publication; it fails only when the document is gone. */
  lemma PublishShape(s: Store, h: ClaimedJob, at: DocumentState, schedule: bool, now: nat)
    requires StoreOk(s) && OwnsJob(s, h, at) && Chunks(h.content) != []
    ensures PublishJob(s, h, Chunks(h.content), schedule, now) ==
              (PublishedStore(s, h, schedule, now), if h.doc in s.documents then Ok(()) else Err(StaleRevision))
  {
    OwnerIsCurrent(s, h, at);
    if h.id in s.jobs {
      var p := PutChunks(s, h.doc, Chunks(h.content));
      PublishFree(s, h, at);
      FinishedShape(p, h);
      ScheduledLast(FinishJob(p, h), NewJob(h.doc, MemoryJob, h.revision, now), Done, Indexing);
    }
  }

  /** Marking the document done first makes no difference to a scheduled publication. */
  lemma ScheduledLast(s: Store, job: Job, first: DocumentState, last: DocumentState)
    requires job.doc in s.documents
    ensures AddJob(SetDocument(s, job.doc, job.revision, first), job, last)
        == SetDocument(QueueJob(s, job), job.doc, job.revision, last)
  {
    if Current(s, job.doc, job.revision) {
      var d := s.documents[job.doc];
      assert s.documents[job.doc := d.(status := first)][job.doc := d.(status := last)]
          == s.documents[job.doc := d.(status := last)];
    }
  }

  lemma FinishedShape(s: Store, h: ClaimedJob)
    requires Keys(s) && h.id in s.jobs && s.jobs[h.id].doc == h.doc && InProgress(s.jobs[h.id].status)
    requires Current(s, h.doc, h.revision) && HasRow(s, h.id, h.revision)
    ensures SetDocument(FinishJob(s, h), h.doc, h.revision, Done)
        == Rewrite(s, h.id, s.jobs[h.id].(status := Done), Done)
  {
  }

  lemma PublishedAndScheduled(s: Store, h: ClaimedJob, at: DocumentState, now: nat)
    requires StoreOk(s) && OwnsJob(s, h, at) && h.id in s.jobs && Chunks(h.content) != []
    ensures var r := AddJob(Published(s, h), NewJob(h.doc, MemoryJob, h.revision, now), Indexing);
            StoreOk(r) && Local(s, r, h.id)
  {
    PublishedOk(s, h, at);
    PublishedCurrent(s, h, at);
    PublishedScheduled(s, h, Published(s, h), now);
  }

  /** Publishing the document's own chunks keeps the invariant. */
  lemma PublishJobOk(s: Store, h: ClaimedJob, at: DocumentState, schedule: bool, now: nat)
    requires StoreOk(s) && OwnsJob(s, h, at) && Chunks(h.content) != []
    ensures StoreOk(PublishedStore(s, h, schedule, now)) && Local(s, PublishedStore(s, h, schedule, now), h.id)
  {
    if h.id in s.jobs {
      if schedule { PublishedAndScheduled(s, h, at, now); } else { PublishedOk(s, h, at); }
    }
  }

  lemma PublishedCurrent(s: Store, h: ClaimedJob, at: DocumentState)
    requires StoreOk(s) && OwnsJob(s, h, at) && h.id in s.jobs
    ensures Current(Published(s, h), h.doc, h.revision)
  {
    OwnerIsCurrent(s, h, at);
  }
}
