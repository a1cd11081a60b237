/** Upserts and deletions keep the invariant, and leave every handle live or knowably stale. */
module JobUpserts {
  import opened Options
  import opened JobStore
  import opened JobInvariants

  // ---- deletion -----------------------------------------------------------------------------------

  lemma DropDocumentOk(s: Store, doc: DocId, now: nat)
    requires StoreOk(s)
    ensures StoreOk(DropDocument(s, doc, now))
  {
    var r := DropDocument(s, doc, now);
    assert forall j, d :: ActiveFor(r.jobs, j, d) <==> d != doc && ActiveFor(s.jobs, j, d);
    forall j | j in r.jobs ensures JobOk(r, j) { assert JobOk(s, j); }
    forall d | d in r.documents ensures DocOk(r, d) {
      assert DocOk(s, d);
      assert HasActive(r.jobs, d) <==> HasActive(s.jobs, d);
    }
    assert forall d: DocId, i: nat, id: nat | HasId(r.chunks, d, i, id) :: HasId(s.chunks, d, i, id);
  }

  lemma DropKeepsOwner(s: Store, doc: DocId, now: nat, h: ClaimedJob, at: DocumentState)
    requires OwnsJob(s, h, at)
    ensures OwnsJob(DropDocument(s, doc, now), h, at)
  {
  }

  lemma DropKeepsMemoryOwner(s: Store, doc: DocId, now: nat, h: ClaimedMemoryJob)
    requires OwnsMemoryJob(s, h)
    ensures OwnsMemoryJob(DropDocument(s, doc, now), h)
  {
  }

  /** Deletion by id or custom id removes at most a document that the identifier names within the organization, and
      never touches another one, its jobs or its chunks. */
  lemma DeletesOnlyNamed(s: Store, org: string, identifier: Identifier, now: nat, d: DocId)
    requires Keys(s) && d in s.documents
    ensures var (r, found) := DeleteIdentified(s, org, identifier, now);
            var doc := s.documents[d];
            && (d !in r.documents ==>
                  doc.org == org && (identifier.id == Some(d) || doc.customId == Some(identifier.text)))
            && (d in r.documents ==>
                  && r.documents[d] == s.documents[d] && d in r.chunks && r.chunks[d] == s.chunks[d]
                  && (forall j | j in s.jobs && s.jobs[j].doc == d :: j in r.jobs && r.jobs[j] == s.jobs[j]))
            && (doc.org == org && identifier.id == Some(d) ==> d !in r.documents)
            && (doc.org == org && doc.customId == Some(identifier.text) ==> found)
            && (!found ==> r == s)
  {
  }

  // ---- rewriting a document -----------------------------------------------------------------------

  /** The tables after update_full, had the document been left failed. */
  function Rewritten(s: Store, doc: DocId, input: Upsert): Store
    requires doc in s.documents
  {
    SetDocument(UpdateFull(s, doc, input, MergeMetadata(s.documents[doc].metadata, input.metadata)),
                doc, s.documents[doc].revision + 1, Failed)
  }

  /** A document's active job is its document job, or fails when the document is rewritten. */
  lemma RewrittenActive(s: Store, doc: DocId, input: Upsert, j: JobId, d: DocId)
    requires StoreOk(s) && doc in s.documents && !DocumentActive(s, doc)
    ensures ActiveFor(Rewritten(s, doc, input).jobs, j, d) <==> d != doc && ActiveFor(s.jobs, j, d)
  {
    if ActiveFor(s.jobs, j, doc) {
      assert JobOk(s, j);
    }
  }

  lemma RewrittenJob(s: Store, doc: DocId, input: Upsert, j: JobId)
    requires StoreOk(s) && doc in s.documents && !DocumentActive(s, doc) && j in s.jobs
    ensures Keys(Rewritten(s, doc, input)) && JobOk(Rewritten(s, doc, input), j)
  {
    assert JobOk(s, j);
    RewrittenActive(s, doc, input, j, doc);
  }

  lemma RewrittenOk(s: Store, doc: DocId, input: Upsert)
    requires StoreOk(s) && doc in s.documents && !DocumentActive(s, doc)
    ensures StoreOk(Rewritten(s, doc, input))
  {
    var r := Rewritten(s, doc, input);
    forall j | j in r.jobs ensures JobOk(r, j) { RewrittenJob(s, doc, input, j); }
    forall d | d in r.documents ensures DocOk(r, d) {
      assert DocOk(s, d);
      if HasActive(r.jobs, d) {
        var j :| ActiveFor(r.jobs, j, d);
        RewrittenActive(s, doc, input, j, d);
      }
      if d != doc && HasActive(s.jobs, d) {
        var j :| ActiveFor(s.jobs, j, d);
        RewrittenActive(s, doc, input, j, d);
      }
    }
    forall j, k, d | ActiveFor(r.jobs, j, d) && ActiveFor(r.jobs, k, d) ensures j == k {
      RewrittenActive(s, doc, input, j, d);
      RewrittenActive(s, doc, input, k, d);
    }
  }

  /** Requeueing: the rewritten document with a queued job, never rejected by the unique index. */
  function Reissued(s: Store, doc: DocId, input: Upsert, now: nat): Store
    requires doc in s.documents
  {
    AddJob(Rewritten(s, doc, input), NewJob(doc, DocumentJob, s.documents[doc].revision + 1, now), Queued)
  }

  /** Queueing a job for a document without an active one. */
  lemma EnqueueShape(u: Store, doc: DocId, now: nat)
    requires doc in u.documents && !HasActive(u.jobs, doc)
    ensures EnqueueUnlessActive(u, doc, now)
            == (QueueJob(u, NewJob(doc, DocumentJob, u.documents[doc].revision, now)), Ok(true))
  {
    if IndexTaken(u.jobs, doc, u.documents[doc].revision) {
      var j :| j in u.jobs && u.jobs[j].doc == doc && u.jobs[j].revision == u.documents[doc].revision
          && Active(u.jobs[j].status);
      assert ActiveFor(u.jobs, j, doc);
    }
    assert DocumentActive(u, doc) ==> IndexTaken(u.jobs, doc, u.documents[doc].revision);
  }

  lemma RequeueShape(s: Store, doc: DocId, input: Upsert, now: nat)
    requires StoreOk(s) && doc in s.documents && !DocumentActive(s, doc)
    ensures Requeue(s, doc, input, now) == (Reissued(s, doc, input, now), Ok(UpsertResult(doc, Queued, true)))
  {
    var u := UpdateFull(s, doc, input, MergeMetadata(s.documents[doc].metadata, input.metadata));
    var job := NewJob(doc, DocumentJob, s.documents[doc].revision + 1, now);
    forall j ensures !ActiveFor(u.jobs, j, doc) { RewrittenActive(s, doc, input, j, doc); }
    EnqueueShape(u, doc, now);
    ScheduledLast(u, job, Failed, Queued);
    assert QueueJob(u, job).documents == SetDocument(QueueJob(u, job), doc, job.revision, Queued).documents;
  }

  lemma ReissuedOk(s: Store, doc: DocId, input: Upsert, now: nat)
    requires StoreOk(s) && doc in s.documents && !DocumentActive(s, doc)
    ensures StoreOk(Reissued(s, doc, input, now))
  {
    RewrittenOk(s, doc, input);
    AddJobOk(Rewritten(s, doc, input), NewJob(doc, DocumentJob, s.documents[doc].revision + 1, now), Queued);
  }

  // ---- inserting a document -----------------------------------------------------------------------

  /** The tables with a new document, had it been inserted failed. */
  function Inserted(s: Store, org: string, input: Upsert): Store {
    s.(documents := s.documents[s.nextId := Document(org, input.content, input.hash, input.customId, input.tags,
                                                     input.metadata, input.attributes, Failed, 1)],
       chunks := s.chunks[s.nextId := []], nextId := s.nextId + 1)
  }

  lemma InsertedOk(s: Store, org: string, input: Upsert)
    requires StoreOk(s)
    ensures StoreOk(Inserted(s, org, input))
  {
    var r := Inserted(s, org, input);
    assert forall j, d :: ActiveFor(r.jobs, j, d) <==> ActiveFor(s.jobs, j, d);
    forall j | j in r.jobs ensures JobOk(r, j) { assert JobOk(s, j); }
    forall d | d in r.documents ensures DocOk(r, d) {
      assert d != s.nextId ==> DocOk(s, d);
      assert HasActive(r.jobs, d) <==> HasActive(s.jobs, d);
    }
    assert forall d: DocId, i: nat, id: nat | HasId(r.chunks, d, i, id) :: HasId(s.chunks, d, i, id);
  }

  function Created(s: Store, org: string, input: Upsert, now: nat): Store {
    AddJob(Inserted(s, org, input), NewJob(s.nextId, DocumentJob, 1, now), Queued)
  }

  lemma InsertShape(s: Store, org: string, input: Upsert, now: nat)
    requires StoreOk(s)
    ensures InsertNew(s, org, input, now) == (Created(s, org, input, now), Ok(UpsertResult(s.nextId, Queued, true)))
  {
    var doc := s.nextId;
    var u := s.(documents := s.documents[doc := Document(org, input.content, input.hash, input.customId, input.tags,
                                                         input.metadata, input.attributes, Queued, 1)],
                chunks := s.chunks[doc := []], nextId := doc + 1);
    var job := NewJob(doc, DocumentJob, 1, now);
    assert !HasActive(u.jobs, doc);
    EnqueueShape(u, doc, now);
    ScheduledLast(u, job, Failed, Queued);
    assert SetDocument(u, doc, 1, Failed).documents == Inserted(s, org, input).documents;
    assert QueueJob(u, job).documents == SetDocument(QueueJob(u, job), doc, job.revision, Queued).documents;
  }

  lemma CreatedOk(s: Store, org: string, input: Upsert, now: nat)
    requires StoreOk(s)
    ensures StoreOk(Created(s, org, input, now))
  {
    InsertedOk(s, org, input);
    AddJobOk(Inserted(s, org, input), NewJob(s.nextId, DocumentJob, 1, now), Queued);
  }

  // ---- new metadata only --------------------------------------------------------------------------

  function Retagged(s: Store, doc: DocId, metadata: Metadata): Store
    requires doc in s.documents
  {
    s.(documents := s.documents[doc := s.documents[doc].(metadata := metadata)])
  }

  lemma RetaggedOk(s: Store, doc: DocId, metadata: Metadata)
    requires StoreOk(s) && doc in s.documents
    ensures StoreOk(Retagged(s, doc, metadata))
  {
    var r := Retagged(s, doc, metadata);
    assert forall j, d :: ActiveFor(r.jobs, j, d) <==> ActiveFor(s.jobs, j, d);
    forall j | j in r.jobs ensures JobOk(r, j) { assert JobOk(s, j); }
    forall d | d in r.documents ensures DocOk(r, d) {
      assert DocOk(s, d);
      assert HasActive(r.jobs, d) <==> HasActive(s.jobs, d);
    }
  }

  // ---- the whole upsert ---------------------------------------------------------------------------

  /** The four things an upsert can do. */
  datatype Outcome = Nothing | Retag(doc: DocId, metadata: Metadata) | Rewriting(doc: DocId) | Creation

  function OutcomeOf(s: Store, org: string, input: Upsert): (o: Outcome)
    ensures o.Retag? || o.Rewriting? ==> o.doc in s.documents
    ensures o.Rewriting? ==> !DocumentActive(s, o.doc)
  {
    var existing := FindExisting(s, org, input, s.nextId);
    if existing.None? then Creation
    else
      var doc := existing.value;
      var document := s.documents[doc];
      if DocumentActive(s, doc) then Nothing
      else if document.status.Failed? || document.hash != input.hash then Rewriting(doc)
      else if MetadataEquivalent(document.metadata, input.metadata) then Nothing
      else if document.status.Indexing? then Rewriting(doc)
      else Retag(doc, MergeMetadata(document.metadata, input.metadata))
  }

  function Upserted(s: Store, org: string, input: Upsert, now: nat): Store {
    match OutcomeOf(s, org, input)
    case Nothing => s
    case Retag(doc, metadata) => Retagged(s, doc, metadata)
    case Rewriting(doc) => Reissued(s, doc, input, now)
    case Creation => Created(s, org, input, now)
  }

  /** An upsert never fails: the unique index never rejects the job it queues. */
  lemma UpsertShape(s: Store, org: string, input: Upsert, now: nat)
    requires StoreOk(s)
    ensures UpsertDocument(s, org, input, now).0 == Upserted(s, org, input, now)
    ensures UpsertDocument(s, org, input, now).1.Ok?
  {
    match OutcomeOf(s, org, input)
    case Rewriting(doc) => RequeueShape(s, doc, input, now);
    case Creation => InsertShape(s, org, input, now);
    case _ =>
  }

  lemma UpsertDocumentOk(s: Store, org: string, input: Upsert, now: nat)
    requires StoreOk(s)
    ensures StoreOk(Upserted(s, org, input, now))
  {
    match OutcomeOf(s, org, input)
    case Nothing =>
    case Retag(doc, metadata) => RetaggedOk(s, doc, metadata);
    case Rewriting(doc) => ReissuedOk(s, doc, input, now);
    case Creation => CreatedOk(s, org, input, now);
  }

  // ---- handles ------------------------------------------------------------------------------------

  lemma ReissuedKeepsMemoryOwner(s: Store, doc: DocId, input: Upsert, now: nat, h: ClaimedMemoryJob)
    requires StoreOk(s) && OwnsMemoryJob(s, h) && doc in s.documents
    ensures OwnsMemoryJob(Reissued(s, doc, input, now), h)
  {
    if h.id in s.jobs { assert JobOk(s, h.id); }
  }

  lemma CreatedKeepsMemoryOwner(s: Store, org: string, input: Upsert, now: nat, h: ClaimedMemoryJob)
    requires Keys(s) && OwnsMemoryJob(s, h)
    ensures OwnsMemoryJob(Created(s, org, input, now), h)
  {
  }

  lemma ReissuedKeepsOwner(s: Store, doc: DocId, input: Upsert, now: nat, h: ClaimedJob, at: DocumentState)
    requires Keys(s) && OwnsJob(s, h, at) && doc in s.documents && doc != h.doc
    ensures OwnsJob(Reissued(s, doc, input, now), h, at)
  {
  }

  lemma CreatedKeepsOwner(s: Store, org: string, input: Upsert, now: nat, h: ClaimedJob, at: DocumentState)
    requires Keys(s) && OwnsJob(s, h, at)
    ensures OwnsJob(Created(s, org, input, now), h, at)
  {
  }

  /** A document job in progress shields its document from upserts. */
  lemma UpsertKeepsOwner(s: Store, org: string, input: Upsert, now: nat, h: ClaimedJob, at: DocumentState)
    requires StoreOk(s) && OwnsJob(s, h, at)
    ensures OwnsJob(Upserted(s, org, input, now), h, at)
  {
    if h.id in s.jobs {
      assert JobOk(s, h.id);
      assert DocumentActive(s, h.doc);
    }
    match OutcomeOf(s, org, input)
    case Rewriting(doc) => ReissuedKeepsOwner(s, doc, input, now, h, at);
    case Creation => CreatedKeepsOwner(s, org, input, now, h, at);
    case _ =>
  }

  /** A memory handle of a rewritten document becomes stale, and its job is failed. */
  lemma UpsertKeepsMemoryOwner(s: Store, org: string, input: Upsert, now: nat, h: ClaimedMemoryJob)
    requires StoreOk(s) && OwnsMemoryJob(s, h)
    ensures OwnsMemoryJob(Upserted(s, org, input, now), h)
  {
    match OutcomeOf(s, org, input)
    case Rewriting(doc) => ReissuedKeepsMemoryOwner(s, doc, input, now, h);
    case Creation => CreatedKeepsMemoryOwner(s, org, input, now, h);
    case _ =>
  }
}
