/**
 The document and job tables, and every transaction on them as a function from the old tables to the new ones.
 A failing transaction returns the old tables. Identifiers come from one counter, so they are fresh, and job and
 row order (created_at, rowid) is identifier order because the clock never runs backwards.
 */
module JobStore {
  import opened Options
  import Memories
  import Text

  type DocId = nat
  type JobId = nat
  type Metadata = seq<(string, string)>

  datatype DocumentState = Unknown | Queued | Extracting | Chunking | Embedding | Indexing | Done | Failed

  datatype JobKind = DocumentJob | MemoryJob

  /** `attributes` bundles entity context, task type, file path, metadata filter and dreaming mode. */
  datatype Document = Document(
    org: string, content: string, hash: string, customId: Option<string>, tags: seq<string>, metadata: Metadata,
    attributes: string, status: DocumentState, revision: nat)

  datatype Job = Job(
    doc: DocId, kind: JobKind, status: DocumentState, revision: nat, attempts: nat, availableAt: nat,
    extraction: Option<seq<Memories.Proposal>>, errorKind: Option<string>)

  datatype ChunkRow = ChunkRow(content: string, stableId: nat)

  /** `chunks` lists the rows of each document by ordinal; `log` is what was committed to the memory tables. */
  datatype Store = Store(
    documents: map<DocId, Document>, jobs: map<JobId, Job>, chunks: map<DocId, seq<ChunkRow>>,
    log: seq<Memories.Command>, nextId: nat)

  /** A sanitized upsert request with its content hash; nothing is assumed about the hash. */
  datatype Upsert = Upsert(
    content: string, hash: string, customId: Option<string>, tags: seq<string>, metadata: Metadata, attributes: string)

  datatype ClaimedJob = ClaimedJob(id: JobId, doc: DocId, content: string, revision: nat)

  datatype ClaimedMemoryJob = ClaimedMemoryJob(
    id: JobId, doc: DocId, content: string, revision: nat, org: string, container: string,
    extraction: Option<seq<Memories.Proposal>>, attempts: nat)

  datatype StorageError =
    | StaleRevision
    | InvalidJobStage
    | UniqueIndexViolation
    | UnknownMemorySource
    | InvalidMemory(error: Memories.MemoryError)

  datatype Result<+T> = Ok(value: T) | Err(error: StorageError)

  datatype UpsertResult = UpsertResult(id: DocId, status: DocumentState, enqueued: bool)

  const EmptyStore := Store(map[], map[], map[], [], 0)

  // ---- status machine -----------------------------------------------------------------------------

  predicate InProgress(s: DocumentState) {
    s.Extracting? || s.Chunking? || s.Embedding? || s.Indexing?
  }

  /** The statuses covered by the unique index on active jobs. */
  predicate Active(s: DocumentState) {
    s.Queued? || InProgress(s)
  }

  /** DocumentState::transition */
  predicate Transition(from: DocumentState, to: DocumentState) {
    || (from.Unknown? && to.Queued?) || (from.Failed? && to.Queued?)
    || (from.Queued? && to.Extracting?) || (from.Extracting? && to.Chunking?)
    || (from.Chunking? && to.Embedding?) || (from.Embedding? && to.Indexing?) || (from.Indexing? && to.Done?)
    || (Active(from) && to.Failed?)
  }

  // ---- queries ------------------------------------------------------------------------------------

  /** The document exists at exactly this revision. */
  predicate Current(s: Store, doc: DocId, revision: nat) {
    doc in s.documents && s.documents[doc].revision == revision
  }

  /** The job row exists at exactly this revision. */
  predicate HasRow(s: Store, id: JobId, revision: nat) {
    id in s.jobs && s.jobs[id].revision == revision
  }

  /** Some active job, of either kind, occupies the unique index at (doc, revision). */
  predicate IndexTaken(jobs: map<JobId, Job>, doc: DocId, revision: nat) {
    exists j :: j in jobs && jobs[j].doc == doc && jobs[j].revision == revision && Active(jobs[j].status)
  }

  predicate DocumentActive(s: Store, doc: DocId)
    requires doc in s.documents
  {
    exists j :: j in s.jobs && s.jobs[j].doc == doc && s.jobs[j].revision == s.documents[doc].revision
                && s.jobs[j].kind.DocumentJob? && Active(s.jobs[j].status)
  }

  predicate Claimable(s: Store, id: JobId, kind: JobKind, now: nat) {
    && id in s.jobs && s.jobs[id].kind == kind && s.jobs[id].status.Queued? && s.jobs[id].availableAt <= now
    && Current(s, s.jobs[id].doc, s.jobs[id].revision)
  }

  /** The oldest claimable job below n. */
  function OldestClaimable(s: Store, kind: JobKind, now: nat, n: nat): (r: Option<JobId>)
    ensures r.Some? ==> r.value < n && Claimable(s, r.value, kind, now)
    ensures forall id: JobId | id < n && Claimable(s, id, kind, now) :: r.Some? && r.value <= id
  {
    if n == 0 then None
    else
      var older := OldestClaimable(s, kind, now, n - 1);
      if older.Some? then older else if Claimable(s, n - 1, kind, now) then Some(n - 1) else None
  }

  // ---- document jobs ------------------------------------------------------------------------------

  function SetJob(s: Store, id: JobId, status: DocumentState): Store
    requires id in s.jobs
  {
    s.(jobs := s.jobs[id := s.jobs[id].(status := status)])
  }

  function SetDocument(s: Store, doc: DocId, revision: nat, status: DocumentState): Store {
    if Current(s, doc, revision) then s.(documents := s.documents[doc := s.documents[doc].(status := status)]) else s
  }

  function ClaimJob(s: Store, now: nat): (Store, Option<ClaimedJob>) {
    var found := OldestClaimable(s, DocumentJob, now, s.nextId);
    if found.None? then (s, None)
    else
      var id := found.value;
      var job := s.jobs[id];
      var claimed := s.(jobs := s.jobs[id := job.(status := Extracting, attempts := job.attempts + 1)]);
      (SetDocument(claimed, job.doc, job.revision, Extracting),
       Some(ClaimedJob(id, job.doc, s.documents[job.doc].content, job.revision)))
  }

  /** The stage that must precede a processing stage. */
  function ExpectedStage(stage: DocumentState): Option<DocumentState> {
    match stage
    case Chunking => Some(Extracting)
    case Embedding => Some(Chunking)
    case Indexing => Some(Embedding)
    case _ => None
  }

  function MarkJobStage(s: Store, h: ClaimedJob, stage: DocumentState): (Store, Result<()>) {
    if ExpectedStage(stage).None? then (s, Err(InvalidJobStage))
    else if HasRow(s, h.id, h.revision) && s.jobs[h.id].status == ExpectedStage(stage).value
            && Current(s, h.doc, h.revision)
    then (SetDocument(SetJob(s, h.id, stage), h.doc, h.revision, stage), Ok(()))
    else (s, Err(StaleRevision))
  }

  /** Rows of a republished document: a surviving (ordinal, content) pair keeps its id, any other gets a fresh one. */
  function PublishedRows(before: seq<ChunkRow>, contents: seq<string>, next: nat): (rows: seq<ChunkRow>)
    ensures |rows| == |contents|
    ensures forall i | 0 <= i < |rows| ::
              && rows[i].content == contents[i]
              && rows[i].stableId
                 == if i < |before| && before[i].content == contents[i] then before[i].stableId else next + i
  {
    seq(|contents|, i requires 0 <= i < |contents| =>
      ChunkRow(contents[i], if i < |before| && before[i].content == contents[i] then before[i].stableId else next + i))
  }

  function NewJob(doc: DocId, kind: JobKind, revision: nat, now: nat): Job {
    Job(doc, kind, Queued, revision, 0, now, None, None)
  }

  function QueueJob(s: Store, job: Job): Store {
    s.(jobs := s.jobs[s.nextId := job], nextId := s.nextId + 1)
  }

  function PutChunks(s: Store, doc: DocId, contents: seq<string>): Store {
    var before := if doc in s.chunks then s.chunks[doc] else [];
    s.(chunks := s.chunks[doc := PublishedRows(before, contents, s.nextId)], nextId := s.nextId + |contents|)
  }

  function FinishJob(s: Store, h: ClaimedJob): Store {
    if HasRow(s, h.id, h.revision) && InProgress(s.jobs[h.id].status) then SetJob(s, h.id, Done) else s
  }

  function PublishJob(s: Store, h: ClaimedJob, contents: seq<string>, schedule: bool, now: nat): (Store, Result<()>) {
    var published := FinishJob(PutChunks(s, h.doc, contents), h);
    if !Current(s, h.doc, h.revision) then (s, Err(StaleRevision))
    else if !schedule then (SetDocument(published, h.doc, h.revision, Done), Ok(()))
    else if IndexTaken(published.jobs, h.doc, h.revision) then (s, Err(UniqueIndexViolation))
    else
      (SetDocument(QueueJob(published, NewJob(h.doc, MemoryJob, h.revision, now)), h.doc, h.revision, Indexing), Ok(()))
  }

  /** Has no status guard: it relies on the caller still owning the job. */
  function FailJob(s: Store, h: ClaimedJob): Store {
    SetDocument(if HasRow(s, h.id, h.revision) then SetJob(s, h.id, Failed) else s, h.doc, h.revision, Failed)
  }

  /** Deleting a document cascades to its jobs, chunks and memory sources. */
  function DropDocument(s: Store, doc: DocId, now: nat): Store {
    Store(map d | d in s.documents && d != doc :: s.documents[d],
          map j | j in s.jobs && s.jobs[j].doc != doc :: s.jobs[j],
          map d | d in s.chunks && d != doc :: s.chunks[d],
          s.log + [Memories.Unlink(doc, now)], s.nextId)
  }

  function DeleteEmptyDocument(s: Store, h: ClaimedJob, now: nat): Store {
    if Current(s, h.doc, h.revision) && (s.documents[h.doc].status.Extracting? || s.documents[h.doc].status.Chunking?)
    then DropDocument(s, h.doc, now) else s
  }

  function DeleteDocument(s: Store, doc: DocId, now: nat): Store {
    if doc in s.documents then DropDocument(s, doc, now) else s
  }

  /** What a caller names a document by: a text, and the document whose id it spells, if any. */
  datatype Identifier = Identifier(text: string, id: Option<DocId>)

  predicate Names(d: Document, org: string, identifier: Identifier) {
    d.org == org && d.customId == Some(identifier.text)
  }

  /** The oldest document below n with this custom id. */
  function FindCustomId(s: Store, org: string, identifier: Identifier, n: nat): (r: Option<DocId>)
    ensures r.Some? ==> r.value < n && r.value in s.documents && Names(s.documents[r.value], org, identifier)
    ensures forall d: DocId | d < n && d in s.documents && Names(s.documents[d], org, identifier) ::
              r.Some? && r.value <= d
  {
    if n == 0 then None
    else
      var older := FindCustomId(s, org, identifier, n - 1);
      if older.Some? then older
      else if n - 1 in s.documents && Names(s.documents[n - 1], org, identifier) then Some(n - 1)
      else None
  }

  /** An id of the organization takes precedence over custom ids. */
  function FindIdentified(s: Store, org: string, identifier: Identifier): Option<DocId> {
    if identifier.id.Some? && identifier.id.value in s.documents && s.documents[identifier.id.value].org == org
    then identifier.id else FindCustomId(s, org, identifier, s.nextId)
  }

  /** Deletes the document that the identifier names in the organization, if there is one. */
  function DeleteIdentified(s: Store, org: string, identifier: Identifier, now: nat): (Store, bool) {
    var found := FindIdentified(s, org, identifier);
    if found.Some? then (DeleteDocument(s, found.value, now), true) else (s, false)
  }

  // ---- memory jobs --------------------------------------------------------------------------------

  function ClaimMemoryJob(s: Store, now: nat): (Store, Option<ClaimedMemoryJob>) {
    var found := OldestClaimable(s, MemoryJob, now, s.nextId);
    if found.None? then (s, None)
    else
      var id := found.value;
      var job := s.jobs[id];
      var document := s.documents[job.doc];
      (s.(jobs := s.jobs[id := job.(status := Extracting, attempts := job.attempts + 1)]),
       Some(ClaimedMemoryJob(id, job.doc, document.content, job.revision, document.org,
                             if document.tags == [] then "sm_project_default" else document.tags[0],
                             job.extraction, job.attempts + 1)))
  }

  const STALE_REVISION := Some("stale_revision")

  /** mark_memory_job_stale: fails the row unless it is already terminal. */
  function MarkStale(s: Store, h: ClaimedMemoryJob): Store {
    if HasRow(s, h.id, h.revision) && Active(s.jobs[h.id].status)
    then s.(jobs := s.jobs[h.id := s.jobs[h.id].(status := Failed, errorKind := STALE_REVISION)]) else s
  }

  /** Caches provider output; a stale handle is marked stale, which is committed, and reported. */
  function CacheExtraction(s: Store, h: ClaimedMemoryJob, result: seq<Memories.Proposal>): (Store, Result<()>) {
    if HasRow(s, h.id, h.revision) && s.jobs[h.id].status.Extracting? && Current(s, s.jobs[h.id].doc, h.revision)
    then (s.(jobs := s.jobs[h.id := s.jobs[h.id].(extraction := Some(result))]), Ok(()))
    else (MarkStale(s, h), Err(StaleRevision))
  }

  /** The job row of a completed extraction. */
  function Completed(job: Job): Job {
    job.(status := Done, extraction := None, errorKind := None)
  }

  function CompleteMemoryJob(s: Store, h: ClaimedMemoryJob): (Store, Result<()>) {
    if !Current(s, h.doc, h.revision) then
      (if HasRow(s, h.id, h.revision)
       then s.(jobs := s.jobs[h.id := s.jobs[h.id].(status := Failed, errorKind := STALE_REVISION)]) else s,
       Ok(()))
    else if HasRow(s, h.id, h.revision) && s.jobs[h.id].status.Extracting? then
      (SetDocument(s.(jobs := s.jobs[h.id := Completed(s.jobs[h.id])]), h.doc, h.revision, Done), Ok(()))
    else (s, Err(StaleRevision))
  }

  const MAX_ATTEMPTS: nat := 4

  /** Puts the job back with a delay, or fails it for good. */
  function RetryMemoryJob(s: Store, h: ClaimedMemoryJob, kind: string, delay: Option<nat>, now: nat)
    : (Store, Result<()>)
  {
    if !Current(s, h.doc, h.revision) then (MarkStale(s, h), Ok(()))
    else
      var terminal := delay.None? || h.attempts >= MAX_ATTEMPTS;
      var seconds := if delay.None? then 0 else if delay.value < 1 then 1 else delay.value;
      if !HasRow(s, h.id, h.revision) || !s.jobs[h.id].status.Extracting? then (s, Err(StaleRevision))
      else
        var row := s.jobs[h.id].(status := if terminal then Failed else Queued, errorKind := Some(kind),
                                 availableAt := now + seconds);
        var retried := s.(jobs := s.jobs[h.id := row]);
        (if terminal then SetDocument(retried, h.doc, h.revision, Failed) else retried, Ok(()))
  }

  /** reconcile_memories_for: the revision is checked, and a job completed, only if the caller names them. */
  function ReconcileFor(s: Store, src: Memories.Source, expected: Option<nat>, completion: Option<JobId>,
                        proposals: seq<Memories.Proposal>, now: nat): (Store, Result<()>)
  {
    var failure := Memories.Validate(proposals);
    if failure.Some? then (s, Err(InvalidMemory(failure.value)))
    else if src.doc !in s.documents || s.documents[src.doc].org != src.org then (s, Err(UnknownMemorySource))
    else
      var revision := s.documents[src.doc].revision;
      var published := s.(log := s.log + [Memories.Publish(src, proposals, now)]);
      if expected.Some? && expected.value != revision then (s, Err(StaleRevision))
      else if completion.None? then (published, Ok(()))
      else
        var id := completion.value;
        if HasRow(s, id, revision) && s.jobs[id].doc == src.doc && s.jobs[id].status.Extracting? then
          (SetDocument(published.(jobs := s.jobs[id := Completed(s.jobs[id])]), src.doc, revision, Done), Ok(()))
        else (s, Err(StaleRevision))
  }

  /** Reconciliation as the coordinator calls it. */
  function ReconcileMemories(s: Store, h: ClaimedMemoryJob, proposals: seq<Memories.Proposal>, now: nat)
    : (Store, Result<()>)
  {
    ReconcileFor(s, Memories.Source(h.org, h.doc, h.container), Some(h.revision), Some(h.id), proposals, now)
  }

  // ---- upserts ------------------------------------------------------------------------------------

  /** Map::insert on an insertion-ordered map. */
  function PutEntry(m: Metadata, key: string, value: string): Metadata {
    if m == [] then [(key, value)]
    else if m[0].0 == key then [(key, value)] + m[1..]
    else [m[0]] + PutEntry(m[1..], key, value)
  }

  function MergeMetadata(existing: Metadata, incoming: Metadata): Metadata {
    if incoming == [] then existing
    else
      var (key, value) := incoming[|incoming| - 1];
      PutEntry(MergeMetadata(existing, incoming[..|incoming| - 1]), key, value)
  }

  /** The entries compared for equivalence: neither internal (sm_) nor commonQuestions. */
  function Comparable(m: Metadata): Metadata {
    if m == [] then []
    else (if "sm_" <= m[0].0 || m[0].0 == "commonQuestions" then [] else [m[0]]) + Comparable(m[1..])
  }

  predicate MetadataEquivalent(a: Metadata, b: Metadata) {
    Comparable(a) == Comparable(b)
  }

  /** update_full: rewrites the row, bumps the revision and fails the active memory jobs of older revisions. */
  function UpdateFull(s: Store, doc: DocId, input: Upsert, metadata: Metadata): Store
    requires doc in s.documents
  {
    var revision := s.documents[doc].revision + 1;
    s.(documents := s.documents[doc := Document(
         s.documents[doc].org, input.content, input.hash, input.customId, input.tags, metadata, input.attributes,
         Queued, revision)],
       jobs := map j | j in s.jobs ::
         var job := s.jobs[j];
         if job.doc == doc && job.kind.MemoryJob? && job.revision != revision && Active(job.status)
         then job.(status := Failed, errorKind := STALE_REVISION) else job)
  }

  /** Inserts a document job unless one is active; the unique index may reject the insertion. */
  function EnqueueUnlessActive(s: Store, doc: DocId, now: nat): (Store, Result<bool>)
    requires doc in s.documents
  {
    var revision := s.documents[doc].revision;
    if DocumentActive(s, doc) then (s, Ok(false))
    else if IndexTaken(s.jobs, doc, revision) then (s, Err(UniqueIndexViolation))
    else (QueueJob(s, NewJob(doc, DocumentJob, revision, now)), Ok(true))
  }

  /** Rewrites an existing document and queues it. */
  function Requeue(s: Store, doc: DocId, input: Upsert, now: nat): (Store, Result<UpsertResult>)
    requires doc in s.documents
  {
    var updated := UpdateFull(s, doc, input, MergeMetadata(s.documents[doc].metadata, input.metadata));
    var (queued, result) := EnqueueUnlessActive(updated, doc, now);
    match result
    case Ok(enqueued) => (queued, Ok(UpsertResult(doc, Queued, enqueued)))
    case Err(error) => (s, Err(error))
  }

  function ApplyExisting(s: Store, doc: DocId, input: Upsert, now: nat): (Store, Result<UpsertResult>)
    requires doc in s.documents
  {
    var existing := s.documents[doc];
    var same := Ok(UpsertResult(doc, existing.status, false));
    if DocumentActive(s, doc) then (s, same)
    else if existing.status.Failed? then Requeue(s, doc, input, now)
    else if existing.hash == input.hash then
      if MetadataEquivalent(existing.metadata, input.metadata) then (s, same)
      else if existing.status.Indexing? then Requeue(s, doc, input, now)
      else
        (s.(documents := s.documents[doc := existing.(metadata := MergeMetadata(existing.metadata, input.metadata))]),
         same)
    else Requeue(s, doc, input, now)
  }

  function InsertNew(s: Store, org: string, input: Upsert, now: nat): (Store, Result<UpsertResult>) {
    var doc := s.nextId;
    var inserted := s.(
      documents := s.documents[doc := Document(org, input.content, input.hash, input.customId, input.tags,
                                               input.metadata, input.attributes, Queued, 1)],
      chunks := s.chunks[doc := []], nextId := doc + 1);
    var (queued, result) := EnqueueUnlessActive(inserted, doc, now);
    match result
    case Ok(_) => (queued, Ok(UpsertResult(doc, Queued, true)))
    case Err(error) => (s, Err(error))
  }

  function NonBlankTags(tags: seq<string>): multiset<string> {
    if tags == [] then multiset{}
    else NonBlankTags(tags[1..]) + (if Text.IsBlank(tags[0]) then multiset{} else multiset{tags[0]})
  }

  /** find_custom, or find_duplicate when the request has no custom id. */
  predicate Identifies(d: Document, org: string, input: Upsert) {
    && d.org == org
    && if input.customId.Some? then d.customId == input.customId && d.tags == input.tags
       else d.hash == input.hash && d.status.Done? && NonBlankTags(d.tags) == NonBlankTags(input.tags)
            && MetadataEquivalent(d.metadata, input.metadata)
  }

  /** The oldest document below n that the request identifies. */
  function FindExisting(s: Store, org: string, input: Upsert, n: nat): (r: Option<DocId>)
    ensures r.Some? ==> r.value < n && r.value in s.documents && Identifies(s.documents[r.value], org, input)
    ensures forall d: DocId | d < n && d in s.documents && Identifies(s.documents[d], org, input) ::
              r.Some? && r.value <= d
  {
    if n == 0 then None
    else
      var older := FindExisting(s, org, input, n - 1);
      if older.Some? then older
      else if n - 1 in s.documents && Identifies(s.documents[n - 1], org, input) then Some(n - 1)
      else None
  }

  function UpsertDocument(s: Store, org: string, input: Upsert, now: nat): (Store, Result<UpsertResult>) {
    var existing := FindExisting(s, org, input, s.nextId);
    if existing.Some? then ApplyExisting(s, existing.value, input, now) else InsertNew(s, org, input, now)
  }

  // ---- recovery -----------------------------------------------------------------------------------

  /** First statement of recovery: every job in progress is queued again, available now. */
  function RequeueInProgress(s: Store, now: nat): Store {
    s.(jobs := map j | j in s.jobs ::
         if InProgress(s.jobs[j].status) then s.jobs[j].(status := Queued, availableAt := now) else s.jobs[j])
  }

  /** Second statement: queued memory jobs of other revisions are failed. */
  function FailStaleMemoryJobs(s: Store): Store {
    s.(jobs := map j | j in s.jobs ::
         if s.jobs[j].kind.MemoryJob? && s.jobs[j].status.Queued? && !Current(s, s.jobs[j].doc, s.jobs[j].revision)
         then s.jobs[j].(status := Failed, errorKind := STALE_REVISION) else s.jobs[j])
  }

  predicate HasQueuedJob(s: Store, doc: DocId, kind: JobKind)
    requires doc in s.documents
  {
    exists j :: j in s.jobs && s.jobs[j].doc == doc && s.jobs[j].revision == s.documents[doc].revision
                && s.jobs[j].kind == kind && s.jobs[j].status.Queued?
  }

  /** Third and fourth statements: a document in progress follows its queued job. */
  function ResetDocuments(s: Store, kind: JobKind, status: DocumentState): Store {
    s.(documents := map d | d in s.documents ::
         if HasQueuedJob(s, d, kind) && InProgress(s.documents[d].status)
         then s.documents[d].(status := status) else s.documents[d])
  }

  /** The recovery part of initialize. */
  function Initialize(s: Store, now: nat): Store {
    ResetDocuments(ResetDocuments(FailStaleMemoryJobs(RequeueInProgress(s, now)), DocumentJob, Queued),
                   MemoryJob, Indexing)
  }
}
