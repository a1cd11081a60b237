/** The job store as the program runs it: transactions that update the tables in place and roll back on error. */
module JobStorage {
  import opened Options
  import opened JobStore
  import Memories

  class Storage {
    var documents: map<DocId, Document>
    var jobs: map<JobId, Job>
    var chunks: map<DocId, seq<ChunkRow>>
    var log: seq<Memories.Command>
    var nextId: nat

    function View(): Store
      reads this
    {
      Store(documents, jobs, chunks, log, nextId)
    }

    constructor ()
      ensures View() == EmptyStore
    {
      documents, jobs, chunks, log, nextId := map[], map[], map[], [], 0;
    }

    /** A transaction dropped before its commit. */
    method Rollback(before: Store)
      modifies this
      ensures View() == before
    {
      documents, jobs, chunks, log, nextId := before.documents, before.jobs, before.chunks, before.log, before.nextId;
    }

    /** UPDATE documents SET status WHERE id AND revision, with the number of rows it changed. */
    method UpdateDocumentStatus(doc: DocId, revision: nat, status: DocumentState) returns (updated: nat)
      modifies this`documents
      ensures View() == SetDocument(old(View()), doc, revision, status)
      ensures updated == if Current(old(View()), doc, revision) then 1 else 0
    {
      updated := 0;
      if doc in documents && documents[doc].revision == revision {
        documents := documents[doc := documents[doc].(status := status)];
        updated := 1;
      }
    }

    /** The first row of the claim query. */
    method FindClaimable(kind: JobKind, now: nat) returns (found: Option<JobId>)
      ensures found == OldestClaimable(View(), kind, now, nextId)
    {
      var id := 0;
      while id < nextId
        invariant 0 <= id <= nextId
        invariant OldestClaimable(View(), kind, now, id) == None
      {
        if id in jobs && jobs[id].kind == kind && jobs[id].status == Queued && jobs[id].availableAt <= now
           && jobs[id].doc in documents && documents[jobs[id].doc].revision == jobs[id].revision
        {
          Oldest(View(), kind, now, id, nextId);
          return Some(id);
        }
        id := id + 1;
      }
      return None;
    }

    // ---- document jobs ----------------------------------------------------------------------------

    method ClaimJob(now: nat) returns (claimed: Option<ClaimedJob>)
      modifies this
      ensures (View(), claimed) == JobStore.ClaimJob(old(View()), now)
    {
      var found := FindClaimable(DocumentJob, now);
      if found.None? { return None; }
      var id := found.value;
      var job := jobs[id];
      claimed := Some(ClaimedJob(id, job.doc, documents[job.doc].content, job.revision));
      jobs := jobs[id := job.(status := Extracting, attempts := job.attempts + 1)];
      var _ := UpdateDocumentStatus(job.doc, job.revision, Extracting);
    }

    method MarkJobStage(h: ClaimedJob, stage: DocumentState) returns (result: Result<()>)
      modifies this
      ensures (View(), result) == JobStore.MarkJobStage(old(View()), h, stage)
    {
      var expected;
      match stage {
        case Chunking => expected := Extracting;
        case Embedding => expected := Chunking;
        case Indexing => expected := Embedding;
        case _ => return Err(InvalidJobStage);
      }
      var undo := Store(documents, jobs, chunks, log, nextId);
      var rows := 0;
      if h.id in jobs && jobs[h.id].revision == h.revision && jobs[h.id].status == expected {
        jobs := jobs[h.id := jobs[h.id].(status := stage)];
        rows := 1;
      }
      var updated := UpdateDocumentStatus(h.doc, h.revision, stage);
      if rows != 1 || updated != 1 {
        Rollback(undo);
        return Err(StaleRevision);
      }
      return Ok(());
    }

    /** The stable ids in use, by ordinal and content. */
    method ExistingIds(rows: seq<ChunkRow>) returns (existing: map<(nat, string), nat>)
      ensures forall k: nat, c: string :: (k, c) in existing <==> k < |rows| && rows[k].content == c
      ensures forall k: nat | k < |rows| :: existing[(k, rows[k].content)] == rows[k].stableId
    {
      existing := map[];
      for i: nat := 0 to |rows|
        invariant forall k: nat, c: string :: (k, c) in existing <==> k < i && rows[k].content == c
        invariant forall k: nat | k < i :: existing[(k, rows[k].content)] == rows[k].stableId
      {
        existing := existing[(i, rows[i].content) := rows[i].stableId];
      }
    }

    /** Replaces the chunk rows: a row whose ordinal and content survive takes its id out of the existing ones. */
    method ReplaceChunks(doc: DocId, contents: seq<string>)
      modifies this`chunks, this`nextId
      ensures View() == PutChunks(old(View()), doc, contents)
    {
      var before := if doc in chunks then chunks[doc] else [];
      var existing := ExistingIds(before);
      var rows: seq<ChunkRow> := [];
      for ordinal: nat := 0 to |contents|
        invariant |rows| == ordinal
        invariant forall k: nat, c: string | k >= ordinal ::
                    (k, c) in existing <==> k < |before| && before[k].content == c
        invariant forall k: nat | ordinal <= k < |before| :: existing[(k, before[k].content)] == before[k].stableId
        invariant forall i | 0 <= i < ordinal :: rows[i] == PublishedRows(before, contents, nextId)[i]
      {
        var key: (nat, string) := (ordinal, contents[ordinal]);
        var stableId := nextId + ordinal;
        if key in existing {
          stableId := existing[key];
          existing := map k | k in existing && k != key :: existing[k];
        }
        rows := rows + [ChunkRow(contents[ordinal], stableId)];
      }
      assert rows == PublishedRows(before, contents, nextId);
      chunks := chunks[doc := rows];
      nextId := nextId + |contents|;
    }

    method PublishJob(h: ClaimedJob, contents: seq<string>, schedule: bool, now: nat) returns (result: Result<()>)
      modifies this
      ensures (View(), result) == JobStore.PublishJob(old(View()), h, contents, schedule, now)
    {
      if h.doc !in documents || documents[h.doc].revision != h.revision { return Err(StaleRevision); }
      var undo := Store(documents, jobs, chunks, log, nextId);
      ReplaceChunks(h.doc, contents);
      if h.id in jobs && jobs[h.id].revision == h.revision && InProgress(jobs[h.id].status) {
        jobs := jobs[h.id := jobs[h.id].(status := Done)];
      }
      if schedule {
        if IndexTaken(jobs, h.doc, h.revision) {
          Rollback(undo);
          return Err(UniqueIndexViolation);
        }
        jobs, nextId := jobs[nextId := NewJob(h.doc, MemoryJob, h.revision, now)], nextId + 1;
        var _ := UpdateDocumentStatus(h.doc, h.revision, Indexing);
      } else {
        var _ := UpdateDocumentStatus(h.doc, h.revision, Done);
      }
      return Ok(());
    }

    method FailJob(h: ClaimedJob)
      modifies this
      ensures View() == JobStore.FailJob(old(View()), h)
    {
      if h.id in jobs && jobs[h.id].revision == h.revision {
        jobs := jobs[h.id := jobs[h.id].(status := Failed)];
      }
      var _ := UpdateDocumentStatus(h.doc, h.revision, Failed);
    }

    /** DELETE FROM documents, with the cascades to jobs, chunks and memory sources. */
    method DeleteRow(doc: DocId, now: nat)
      modifies this
      ensures View() == DropDocument(old(View()), doc, now)
    {
      documents := map d | d in documents && d != doc :: documents[d];
      jobs := map j | j in jobs && jobs[j].doc != doc :: jobs[j];
      chunks := map d | d in chunks && d != doc :: chunks[d];
      log := log + [Memories.Unlink(doc, now)];
    }

    method DeleteEmptyDocument(h: ClaimedJob, now: nat)
      modifies this
      ensures View() == JobStore.DeleteEmptyDocument(old(View()), h, now)
    {
      if h.doc in documents && documents[h.doc].revision == h.revision
         && (documents[h.doc].status == Extracting || documents[h.doc].status == Chunking)
      {
        DeleteRow(h.doc, now);
      }
    }

    method DeleteDocument(org: string, identifier: Identifier, now: nat) returns (deleted: bool)
      modifies this
      ensures (View(), deleted) == DeleteIdentified(old(View()), org, identifier, now)
    {
      var found := FindDocumentByName(org, identifier);
      if found.None? { return false; }
      DeleteRow(found.value, now);
      return true;
    }

    /** The first row of the lookup, which prefers the id to custom ids. */
    method FindDocumentByName(org: string, identifier: Identifier) returns (found: Option<DocId>)
      ensures found == FindIdentified(View(), org, identifier)
      ensures found.Some? ==> found.value in documents
    {
      if identifier.id.Some? && identifier.id.value in documents && documents[identifier.id.value].org == org {
        return identifier.id;
      }
      var doc := 0;
      while doc < nextId
        invariant 0 <= doc <= nextId
        invariant FindCustomId(View(), org, identifier, doc) == None
      {
        if doc in documents && documents[doc].org == org && documents[doc].customId == Some(identifier.text) {
          OldestNamed(View(), org, identifier, doc, nextId);
          return Some(doc);
        }
        doc := doc + 1;
      }
      return None;
    }

    // ---- memory jobs ------------------------------------------------------------------------------

    method ClaimMemoryJob(now: nat) returns (claimed: Option<ClaimedMemoryJob>)
      modifies this
      ensures (View(), claimed) == JobStore.ClaimMemoryJob(old(View()), now)
    {
      var found := FindClaimable(MemoryJob, now);
      if found.None? { return None; }
      var id := found.value;
      var job := jobs[id];
      var document := documents[job.doc];
      var container := if document.tags == [] then "sm_project_default" else document.tags[0];
      jobs := jobs[id := job.(status := Extracting, attempts := job.attempts + 1)];
      return Some(ClaimedMemoryJob(id, job.doc, document.content, job.revision, document.org, container, job.extraction,
                                   job.attempts + 1));
    }

    method MarkMemoryJobStale(h: ClaimedMemoryJob)
      modifies this`jobs
      ensures View() == MarkStale(old(View()), h)
    {
      if h.id in jobs && jobs[h.id].revision == h.revision && Active(jobs[h.id].status) {
        jobs := jobs[h.id := jobs[h.id].(status := Failed, errorKind := STALE_REVISION)];
      }
    }

    method CacheExtraction(h: ClaimedMemoryJob, extracted: seq<Memories.Proposal>) returns (result: Result<()>)
      modifies this
      ensures (View(), result) == JobStore.CacheExtraction(old(View()), h, extracted)
    {
      if h.id in jobs && jobs[h.id].revision == h.revision && jobs[h.id].status == Extracting
         && jobs[h.id].doc in documents && documents[jobs[h.id].doc].revision == h.revision
      {
        jobs := jobs[h.id := jobs[h.id].(extraction := Some(extracted))];
        return Ok(());
      }
      MarkMemoryJobStale(h);
      return Err(StaleRevision);
    }

    /** UPDATE jobs SET status='done' WHERE the job is extracting at this revision, with the number of rows it
        changed. */
    method FinishExtraction(id: JobId, revision: nat) returns (updated: nat)
      modifies this`jobs
      ensures updated == if HasRow(old(View()), id, revision) && old(jobs)[id].status.Extracting? then 1 else 0
      ensures jobs == if updated == 1 then old(jobs)[id := Completed(old(jobs)[id])] else old(jobs)
    {
      updated := 0;
      if id in jobs && jobs[id].revision == revision && jobs[id].status == Extracting {
        jobs := jobs[id := jobs[id].(status := Done, extraction := None, errorKind := None)];
        updated := 1;
      }
    }

    method CompleteMemoryJob(h: ClaimedMemoryJob) returns (result: Result<()>)
      modifies this
      ensures (View(), result) == JobStore.CompleteMemoryJob(old(View()), h)
    {
      if h.doc !in documents || documents[h.doc].revision != h.revision {
        if h.id in jobs && jobs[h.id].revision == h.revision {
          jobs := jobs[h.id := jobs[h.id].(status := Failed, errorKind := STALE_REVISION)];
        }
        return Ok(());
      }
      var undo := Store(documents, jobs, chunks, log, nextId);
      var rows := FinishExtraction(h.id, h.revision);
      var updated := UpdateDocumentStatus(h.doc, h.revision, Done);
      if rows != 1 || updated != 1 {
        Rollback(undo);
        return Err(StaleRevision);
      }
      return Ok(());
    }

    method RetryMemoryJob(h: ClaimedMemoryJob, kind: string, delay: Option<nat>, now: nat) returns (result: Result<()>)
      modifies this
      ensures (View(), result) == JobStore.RetryMemoryJob(old(View()), h, kind, delay, now)
    {
      if h.doc !in documents || documents[h.doc].revision != h.revision {
        MarkMemoryJobStale(h);
        return Ok(());
      }
      var terminal := delay.None? || h.attempts >= MAX_ATTEMPTS;
      var seconds := if delay.None? then 0 else if delay.value < 1 then 1 else delay.value;
      if h.id !in jobs || jobs[h.id].revision != h.revision || jobs[h.id].status != Extracting {
        return Err(StaleRevision);
      }
      jobs := jobs[h.id := jobs[h.id].(status := if terminal then Failed else Queued, errorKind := Some(kind),
                                       availableAt := now + seconds)];
      if terminal { var _ := UpdateDocumentStatus(h.doc, h.revision, Failed); }
      return Ok(());
    }

    /** Publishes the batch and only then completes the job, if any; a job that cannot be completed undoes the batch. */
    method ReconcileMemories(src: Memories.Source, expected: Option<nat>, completion: Option<JobId>,
                             proposals: seq<Memories.Proposal>, now: nat) returns (result: Result<()>)
      modifies this
      ensures (View(), result) == ReconcileFor(old(View()), src, expected, completion, proposals, now)
    {
      var failure := Memories.Validate(proposals);
      if failure.Some? { return Err(InvalidMemory(failure.value)); }
      if src.doc !in documents || documents[src.doc].org != src.org { return Err(UnknownMemorySource); }
      var revision := documents[src.doc].revision;
      if expected.Some? && expected.value != revision { return Err(StaleRevision); }
      var undo := Store(documents, jobs, chunks, log, nextId);
      log := log + [Memories.Publish(src, proposals, now)];
      if completion.Some? {
        var rows := 0;
        if completion.value in jobs && jobs[completion.value].doc == src.doc {
          rows := FinishExtraction(completion.value, revision);
        }
        var updated := UpdateDocumentStatus(src.doc, revision, Done);
        if rows != 1 || updated != 1 {
          Rollback(undo);
          return Err(StaleRevision);
        }
      }
      return Ok(());
    }

    // ---- upserts ----------------------------------------------------------------------------------

    method UpdateFull(doc: DocId, input: Upsert, metadata: Metadata)
      requires doc in documents
      modifies this
      ensures View() == JobStore.UpdateFull(old(View()), doc, input, metadata)
    {
      var revision := documents[doc].revision + 1;
      documents := documents[doc := Document(documents[doc].org, input.content, input.hash, input.customId, input.tags,
                                             metadata, input.attributes, Queued, revision)];
      jobs := map j | j in jobs ::
        var job := jobs[j];
        if job.doc == doc && job.kind.MemoryJob? && job.revision != revision && Active(job.status)
        then job.(status := Failed, errorKind := STALE_REVISION) else job;
    }

    method EnqueueUnlessActive(doc: DocId, now: nat) returns (result: Result<bool>)
      requires doc in documents
      modifies this
      ensures (View(), result) == JobStore.EnqueueUnlessActive(old(View()), doc, now)
    {
      if DocumentActive(View(), doc) { return Ok(false); }
      var revision := documents[doc].revision;
      if IndexTaken(jobs, doc, revision) { return Err(UniqueIndexViolation); }
      jobs, nextId := jobs[nextId := NewJob(doc, DocumentJob, revision, now)], nextId + 1;
      return Ok(true);
    }

    method Requeue(doc: DocId, input: Upsert, now: nat) returns (result: Result<UpsertResult>)
      requires doc in documents
      modifies this
      ensures (View(), result) == JobStore.Requeue(old(View()), doc, input, now)
    {
      var undo := Store(documents, jobs, chunks, log, nextId);
      UpdateFull(doc, input, MergeMetadata(documents[doc].metadata, input.metadata));
      var queued := EnqueueUnlessActive(doc, now);
      match queued
      case Ok(enqueued) => return Ok(UpsertResult(doc, Queued, enqueued));
      case Err(error) =>
        Rollback(undo);
        return Err(error);
    }

    method ApplyExisting(doc: DocId, input: Upsert, now: nat) returns (result: Result<UpsertResult>)
      requires doc in documents
      modifies this
      ensures (View(), result) == JobStore.ApplyExisting(old(View()), doc, input, now)
    {
      var existing := documents[doc];
      var same := Ok(UpsertResult(doc, existing.status, false));
      if DocumentActive(View(), doc) { return same; }
      if existing.status == Failed {
        result := Requeue(doc, input, now);
        return;
      }
      if existing.hash == input.hash {
        if MetadataEquivalent(existing.metadata, input.metadata) { return same; }
        if existing.status == Indexing {
          result := Requeue(doc, input, now);
          return;
        }
        documents := documents[doc := existing.(metadata := MergeMetadata(existing.metadata, input.metadata))];
        return same;
      }
      result := Requeue(doc, input, now);
    }

    method InsertNew(org: string, input: Upsert, now: nat) returns (result: Result<UpsertResult>)
      modifies this
      ensures (View(), result) == JobStore.InsertNew(old(View()), org, input, now)
    {
      var undo := Store(documents, jobs, chunks, log, nextId);
      var doc := nextId;
      documents := documents[doc := Document(org, input.content, input.hash, input.customId, input.tags, input.metadata,
                                             input.attributes, Queued, 1)];
      chunks, nextId := chunks[doc := []], doc + 1;
      var queued := EnqueueUnlessActive(doc, now);
      match queued
      case Ok(_) => return Ok(UpsertResult(doc, Queued, true));
      case Err(error) =>
        Rollback(undo);
        return Err(error);
    }

    /** The first row find_custom or find_duplicate accepts. */
    method FindDocument(org: string, input: Upsert) returns (found: Option<DocId>)
      ensures found == FindExisting(View(), org, input, nextId)
    {
      var doc := 0;
      while doc < nextId
        invariant 0 <= doc <= nextId
        invariant FindExisting(View(), org, input, doc) == None
      {
        if doc in documents && Identifies(documents[doc], org, input) {
          OldestDocument(View(), org, input, doc, nextId);
          return Some(doc);
        }
        doc := doc + 1;
      }
      return None;
    }

    method UpsertDocument(org: string, input: Upsert, now: nat) returns (result: Result<UpsertResult>)
      modifies this
      ensures (View(), result) == JobStore.UpsertDocument(old(View()), org, input, now)
    {
      var existing := FindDocument(org, input);
      if existing.Some? {
        result := ApplyExisting(existing.value, input, now);
      } else {
        result := InsertNew(org, input, now);
      }
    }

    // ---- recovery ---------------------------------------------------------------------------------

    /** The four recovery statements of initialize, in order. */
    method Initialize(now: nat)
      modifies this
      ensures View() == JobStore.Initialize(old(View()), now)
    {
      RequeueWork(now);
      FailStaleWork();
      ResetStatus(DocumentJob, Queued);
      ResetStatus(MemoryJob, Indexing);
    }

    method RequeueWork(now: nat)
      modifies this`jobs
      ensures View() == RequeueInProgress(old(View()), now)
    {
      jobs := map j | j in jobs ::
        if InProgress(jobs[j].status) then jobs[j].(status := Queued, availableAt := now) else jobs[j];
    }

    method FailStaleWork()
      modifies this`jobs
      ensures View() == FailStaleMemoryJobs(old(View()))
    {
      jobs := map j | j in jobs ::
        if jobs[j].kind.MemoryJob? && jobs[j].status.Queued?
           && !(jobs[j].doc in documents && documents[jobs[j].doc].revision == jobs[j].revision)
        then jobs[j].(status := Failed, errorKind := STALE_REVISION) else jobs[j];
    }

    method ResetStatus(kind: JobKind, status: DocumentState)
      modifies this`documents
      ensures View() == ResetDocuments(old(View()), kind, status)
    {
      documents := map d | d in documents ::
        if HasQueuedJob(View(), d, kind) && InProgress(documents[d].status)
        then documents[d].(status := status) else documents[d];
    }
  }

  lemma Oldest(s: Store, kind: JobKind, now: nat, id: JobId, n: nat)
    requires id < n && Claimable(s, id, kind, now) && OldestClaimable(s, kind, now, id) == None
    ensures OldestClaimable(s, kind, now, n) == Some(id)
    decreases n
  {
    if id < n - 1 { Oldest(s, kind, now, id, n - 1); }
  }

  lemma OldestNamed(s: Store, org: string, identifier: Identifier, doc: DocId, n: nat)
    requires doc < n && doc in s.documents && Names(s.documents[doc], org, identifier)
    requires FindCustomId(s, org, identifier, doc) == None
    ensures FindCustomId(s, org, identifier, n) == Some(doc)
    decreases n
  {
    if doc < n - 1 { OldestNamed(s, org, identifier, doc, n - 1); }
  }

  lemma OldestDocument(s: Store, org: string, input: Upsert, doc: DocId, n: nat)
    requires doc < n && doc in s.documents && Identifies(s.documents[doc], org, input)
    requires FindExisting(s, org, input, doc) == None
    ensures FindExisting(s, org, input, n) == Some(doc)
    decreases n
  {
    if doc < n - 1 { OldestDocument(s, org, input, doc, n - 1); }
  }
}
