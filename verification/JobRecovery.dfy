/** What start-up recovery does to the tables a crash may leave behind. */
module JobRecovery {
  import opened Options
  import opened JobStore
  import opened JobInvariants

  /** Recovery of a table in which every job in progress is current. */
  function Recovered(s: Store, now: nat): Store {
    ResetDocuments(RequeueInProgress(s, now), DocumentJob, Queued)
  }

  lemma NothingIsStale(s: Store, now: nat)
    requires StoreOk(s)
    ensures FailStaleMemoryJobs(RequeueInProgress(s, now)) == RequeueInProgress(s, now)
  {
    var r := RequeueInProgress(s, now);
    forall j | j in s.jobs
      ensures !(r.jobs[j].kind.MemoryJob? && r.jobs[j].status.Queued? && !Current(r, r.jobs[j].doc, r.jobs[j].revision))
    {
      assert JobOk(s, j);
    }
    assert FailStaleMemoryJobs(r).jobs == r.jobs;
  }

  /** The document of an active memory job is indexing already. */
  lemma MemoryDocumentsStay(s: Store, now: nat)
    requires StoreOk(s)
    ensures ResetDocuments(Recovered(s, now), MemoryJob, Indexing) == Recovered(s, now)
  {
    var r := Recovered(s, now);
    forall d | d in r.documents && HasQueuedJob(r, d, MemoryJob) ensures r.documents[d].status.Indexing? {
      var j :| j in r.jobs && r.jobs[j].doc == d && r.jobs[j].kind.MemoryJob? && r.jobs[j].status.Queued?;
      assert JobOk(s, j) && ActiveFor(s.jobs, j, d);
      if HasQueuedJob(RequeueInProgress(s, now), d, DocumentJob) {
        var k :| k in r.jobs && r.jobs[k].doc == d && r.jobs[k].kind.DocumentJob? && r.jobs[k].status.Queued?;
        assert ActiveFor(s.jobs, k, d);
      }
    }
    assert ResetDocuments(r, MemoryJob, Indexing).documents == r.documents;
  }

  /** On every reachable table, recovery queues the jobs in progress and their documents, and nothing else. */
  lemma InitializeShape(s: Store, now: nat)
    requires StoreOk(s)
    ensures Initialize(s, now) == Recovered(s, now)
  {
    NothingIsStale(s, now);
    MemoryDocumentsStay(s, now);
  }

  /** Exactly the documents with an active document job are queued; any other keeps its status. */
  lemma RecoveredDocument(s: Store, now: nat, d: DocId)
    requires StoreOk(s) && d in s.documents
    ensures var status := Recovered(s, now).documents[d].status;
            if exists j :: ActiveFor(s.jobs, j, d) && s.jobs[j].kind.DocumentJob? then status.Queued?
            else status == s.documents[d].status
    ensures Recovered(s, now).documents[d] == s.documents[d].(status := Recovered(s, now).documents[d].status)
  {
    var r := RequeueInProgress(s, now);
    if j :| ActiveFor(s.jobs, j, d) && s.jobs[j].kind.DocumentJob? {
      assert JobOk(s, j);
      assert r.jobs[j].status.Queued?;
      assert HasQueuedJob(r, d, DocumentJob);
    }
    assert HasQueuedJob(r, d, DocumentJob) ==> exists j :: ActiveFor(s.jobs, j, d) && s.jobs[j].kind.DocumentJob? by {
      if k :| k in r.jobs && r.jobs[k].doc == d && r.jobs[k].kind.DocumentJob? && r.jobs[k].status.Queued? {
        assert ActiveFor(s.jobs, k, d);
      }
    }
  }

  lemma RecoveredKeys(s: Store, now: nat)
    requires Keys(s)
    ensures Keys(Recovered(s, now)) && Recovered(s, now).chunks == s.chunks && Recovered(s, now).nextId == s.nextId
    ensures Recovered(s, now).jobs.Keys == s.jobs.Keys && Recovered(s, now).documents.Keys == s.documents.Keys
  {
  }

  lemma RecoveredJob(s: Store, now: nat, j: JobId)
    requires StoreOk(s) && j in s.jobs
    ensures Keys(Recovered(s, now)) && JobOk(Recovered(s, now), j)
  {
    assert JobOk(s, j);
    RecoveredKeys(s, now);
    var doc := s.jobs[j].doc;
    RecoveredDocument(s, now, doc);
    if Active(s.jobs[j].status) {
      assert ActiveFor(s.jobs, j, doc);
    }
  }

  lemma RecoveredActive(s: Store, now: nat)
    ensures forall j, d :: ActiveFor(Recovered(s, now).jobs, j, d) <==> ActiveFor(s.jobs, j, d)
  {
  }

  lemma RecoveredHasActive(s: Store, now: nat, d: DocId)
    ensures HasActive(Recovered(s, now).jobs, d) <==> HasActive(s.jobs, d)
  {
    RecoveredActive(s, now);
  }

  /** Recovery settles no document and unsettles none. */
  lemma RecoveredSettled(s: Store, now: nat, d: DocId)
    requires StoreOk(s) && d in s.documents
    ensures d in Recovered(s, now).documents
    ensures Settled(Recovered(s, now).documents[d].status) <==> Settled(s.documents[d].status)
  {
    assert DocOk(s, d);
    RecoveredDocument(s, now, d);
    if j :| ActiveFor(s.jobs, j, d) && s.jobs[j].kind.DocumentJob? { assert HasActive(s.jobs, d); }
  }

  lemma RecoveredDocOk(s: Store, now: nat, d: DocId)
    requires StoreOk(s) && d in s.documents
    ensures Keys(Recovered(s, now)) && DocOk(Recovered(s, now), d)
  {
    assert DocOk(s, d);
    RecoveredKeys(s, now);
    RecoveredDocument(s, now, d);
    RecoveredSettled(s, now, d);
    RecoveredHasActive(s, now, d);
  }

  lemma RecoveredOk(s: Store, now: nat)
    requires StoreOk(s)
    ensures StoreOk(Recovered(s, now))
  {
    var r := Recovered(s, now);
    RecoveredKeys(s, now);
    forall j | j in r.jobs ensures JobOk(r, j) { RecoveredJob(s, now, j); }
    forall d | d in r.documents ensures DocOk(r, d) { RecoveredDocOk(s, now, d); }
    RecoveredOne(s, now);
  }

  lemma RecoveredOne(s: Store, now: nat)
    requires OneActive(s.jobs)
    ensures OneActive(Recovered(s, now).jobs)
  {
    RecoveredActive(s, now);
  }

  /** What recovery makes of one job row. */
  ghost predicate RecoveredRow(before: Job, after: Job, now: nat) {
    if Active(before.status) then
      after == before.(status := Queued, availableAt := if before.status.Queued? then before.availableAt else now)
    else after == before
  }

  lemma RecoveredRows(s: Store, now: nat)
    ensures var r := Recovered(s, now);
            && r.jobs.Keys == s.jobs.Keys && (forall j | j in s.jobs :: RecoveredRow(s.jobs[j], r.jobs[j], now))
            && r.chunks == s.chunks && r.log == s.log && r.nextId == s.nextId && r.documents.Keys == s.documents.Keys
            && (forall d | d in s.documents :: r.documents[d] == s.documents[d].(status := r.documents[d].status))
  {
  }

  lemma RecoveredClaimable(s: Store, now: nat, j: JobId, t: nat)
    requires StoreOk(s) && j in s.jobs && Active(s.jobs[j].status) && t >= now && t >= s.jobs[j].availableAt
    ensures Claimable(Recovered(s, now), j, s.jobs[j].kind, t)
  {
    assert JobOk(s, j);
    RecoveredDocument(s, now, s.jobs[j].doc);
  }

  /**
   Recovery re-establishes the invariant; it queues every active job, which is current and so claimable once its time
   comes; it changes no settled job and keeps cached extractions, attempts, contents, chunks and memories.
   */
  lemma InitializeRecovers(s: Store, now: nat)
    requires StoreOk(s)
    ensures StoreOk(Initialize(s, now))
    ensures Initialize(s, now).jobs.Keys == s.jobs.Keys
    ensures forall j | j in s.jobs :: RecoveredRow(s.jobs[j], Initialize(s, now).jobs[j], now)
    ensures forall j, t: nat | j in s.jobs && Active(s.jobs[j].status) && t >= now && t >= s.jobs[j].availableAt ::
              Claimable(Initialize(s, now), j, s.jobs[j].kind, t)
    ensures Initialize(s, now).chunks == s.chunks && Initialize(s, now).log == s.log
        && Initialize(s, now).nextId == s.nextId
    ensures Initialize(s, now).documents.Keys == s.documents.Keys
    ensures forall d | d in s.documents ::
              Initialize(s, now).documents[d] == s.documents[d].(status := Initialize(s, now).documents[d].status)
  {
    InitializeShape(s, now);
    RecoveredOk(s, now);
    RecoveredRows(s, now);
    forall j, t: nat | j in s.jobs && Active(s.jobs[j].status) && t >= now && t >= s.jobs[j].availableAt
      ensures Claimable(Recovered(s, now), j, s.jobs[j].kind, t)
    {
      RecoveredClaimable(s, now, j, t);
    }
  }

  /** A document with a queued document job is queued. */
  lemma NothingToReset(s: Store)
    requires StoreOk(s)
    ensures ResetDocuments(s, DocumentJob, Queued) == s
  {
    forall d | d in s.documents && HasQueuedJob(s, d, DocumentJob) ensures s.documents[d].status.Queued? {
      var j :| j in s.jobs && s.jobs[j].doc == d && s.jobs[j].kind.DocumentJob? && s.jobs[j].status.Queued?;
      assert JobOk(s, j);
    }
    assert ResetDocuments(s, DocumentJob, Queued).documents == s.documents;
  }

  lemma NothingInProgress(s: Store, now: nat, later: nat)
    ensures RequeueInProgress(Recovered(s, now), later) == Recovered(s, now)
  {
    assert RequeueInProgress(Recovered(s, now), later).jobs == Recovered(s, now).jobs;
  }

  /** Recovering again, at any later time, changes nothing. */
  lemma InitializeIdempotent(s: Store, now: nat, later: nat)
    requires StoreOk(s)
    ensures Initialize(Initialize(s, now), later) == Initialize(s, now)
  {
    InitializeShape(s, now);
    RecoveredOk(s, now);
    InitializeShape(Recovered(s, now), later);
    NothingInProgress(s, now, later);
    NothingToReset(Recovered(s, now));
  }
}
