/** What the protocol guarantees in every reachable state, spelled out from the invariant. */
module JobTheorems {
  import opened Options
  import opened JobStore
  import opened JobInvariants
  import opened JobTransactions
  import opened JobUpserts
  import opened JobRecovery
  import opened JobProtocol
  import JobSafety
  import Memories
  import MemoryInvariants
  import ChunkingCoverage
  import Text

  /** Every active job has its document's current revision, every document at most one, and the statuses agree. */
  lemma ActiveJobsAreCurrent(actions: seq<Action>)
    ensures var s := Run(Initial, actions).store;
            && (forall j | j in s.jobs && Active(s.jobs[j].status) ::
                  && Current(s, s.jobs[j].doc, s.jobs[j].revision)
                  && s.documents[s.jobs[j].doc].status
                     == (if s.jobs[j].kind.DocumentJob? then s.jobs[j].status else Indexing))
            && (forall j, k | j in s.jobs && k in s.jobs && Active(s.jobs[j].status) && Active(s.jobs[k].status)
                              && s.jobs[j].doc == s.jobs[k].doc :: j == k)
            && (forall d | d in s.documents ::
                  (s.documents[d].status.Done? || s.documents[d].status.Failed?)
                  <==> !exists j :: j in s.jobs && s.jobs[j].doc == d && Active(s.jobs[j].status))
  {
    JobSafety.RunOk(actions);
    var s := Run(Initial, actions).store;
    forall j | j in s.jobs && Active(s.jobs[j].status)
      ensures Current(s, s.jobs[j].doc, s.jobs[j].revision)
      ensures s.documents[s.jobs[j].doc].status == (if s.jobs[j].kind.DocumentJob? then s.jobs[j].status else Indexing)
    {
      assert JobOk(s, j);
    }
    forall j, k | j in s.jobs && k in s.jobs && Active(s.jobs[j].status) && Active(s.jobs[k].status)
                  && s.jobs[j].doc == s.jobs[k].doc
      ensures j == k
    {
      assert ActiveFor(s.jobs, j, s.jobs[j].doc) && ActiveFor(s.jobs, k, s.jobs[j].doc);
    }
    forall d | d in s.documents
      ensures (s.documents[d].status.Done? || s.documents[d].status.Failed?)
              <==> !exists j :: j in s.jobs && s.jobs[j].doc == d && Active(s.jobs[j].status)
    {
      assert DocOk(s, d);
      assert HasActive(s.jobs, d) <==> exists j :: j in s.jobs && s.jobs[j].doc == d && Active(s.jobs[j].status) by {
        if HasActive(s.jobs, d) {
          var j :| ActiveFor(s.jobs, j, d);
        }
        if j :| j in s.jobs && s.jobs[j].doc == d && Active(s.jobs[j].status) {
          assert ActiveFor(s.jobs, j, d);
        }
      }
    }
  }

  /** The unique index on active jobs never rejects what the protocol inserts: upserts, publications, scheduled
      extractions. */
  lemma IndexNeverRejects(actions: seq<Action>, org: string, input: Upsert, w: nat, schedule: bool)
    ensures var sys := Run(Initial, actions);
            && UpsertDocument(sys.store, org, input, sys.now).1.Ok?
            && (Enabled(sys, PublishPlain(w)) || Enabled(sys, PublishEmbedded(w, schedule)) ==>
                  var h := sys.workers[w].job;
                  PublishJob(sys.store, h, Chunks(h.content), schedule, sys.now).1
                  == if h.doc in sys.store.documents then Ok(()) else Err(StaleRevision))
  {
    JobSafety.RunOk(actions);
    var sys := Run(Initial, actions);
    UpsertShape(sys.store, org, input, sys.now);
    if Enabled(sys, PublishPlain(w)) || Enabled(sys, PublishEmbedded(w, schedule)) {
      assert JobSafety.Owns(sys.store, sys.workers[w]);
      PublishShape(sys.store, sys.workers[w].job, sys.workers[w].at, schedule, sys.now);
    }
  }

  /** No two live handles name the same job, and nobody else can claim a job that is being worked on. */
  lemma MutualExclusion(actions: seq<Action>, v: nat, w: nat)
    requires v in Run(Initial, actions).workers && w in Run(Initial, actions).workers && v != w
    ensures var sys := Run(Initial, actions);
            && JobSafety.JobOf(sys.workers[v]) != JobSafety.JobOf(sys.workers[w])
            && !Claimable(sys.store, JobSafety.JobOf(sys.workers[v]), DocumentJob, sys.now)
            && !Claimable(sys.store, JobSafety.JobOf(sys.workers[v]), MemoryJob, sys.now)
  {
    JobSafety.RunOk(actions);
    assert JobSafety.Owns(Run(Initial, actions).store, Run(Initial, actions).workers[v]);
  }

  /** Only done documents are searched, and their chunks are exactly the chunks of their current content; all ids
      differ. */
  lemma SearchedChunksAgree(actions: seq<Action>)
    ensures var s := Run(Initial, actions).store;
            && (forall d | d in s.documents && s.documents[d].status.Done? ::
                  && d in s.chunks && |s.chunks[d]| == |Chunks(s.documents[d].content)| > 0
                  && forall i | 0 <= i < |s.chunks[d]| :: s.chunks[d][i].content == Chunks(s.documents[d].content)[i])
            && (forall d, e, i, k | d in s.chunks && e in s.chunks && 0 <= i < |s.chunks[d]| && 0 <= k < |s.chunks[e]|
                                    && s.chunks[d][i].stableId == s.chunks[e][k].stableId :: d == e && i == k)
  {
    JobSafety.RunOk(actions);
    var s := Run(Initial, actions).store;
    forall d | d in s.documents && s.documents[d].status.Done? ensures Indexed(s, d) {
      assert DocOk(s, d);
    }
    forall d, e, i, k | d in s.chunks && e in s.chunks && 0 <= i < |s.chunks[d]| && 0 <= k < |s.chunks[e]|
                        && s.chunks[d][i].stableId == s.chunks[e][k].stableId
      ensures d == e && i == k
    {
      assert HasId(s.chunks, d, i, s.chunks[d][i].stableId) && HasId(s.chunks, e, k, s.chunks[d][i].stableId);
    }
  }

  /** Republishing keeps the id of each surviving (ordinal, content) pair; every other id is new. */
  lemma StableIdsSurvive(s: Store, h: ClaimedJob, contents: seq<string>, schedule: bool, now: nat, i: nat)
    requires Keys(s) && StableIds(s.chunks, s.nextId)
    requires PublishJob(s, h, contents, schedule, now).1.Ok? && i < |contents|
    ensures var r := PublishJob(s, h, contents, schedule, now).0;
            && h.doc in s.chunks && h.doc in r.chunks && |r.chunks[h.doc]| == |contents|
            && r.chunks[h.doc][i].content == contents[i]
            && (if i < |s.chunks[h.doc]| && s.chunks[h.doc][i].content == contents[i]
                then r.chunks[h.doc][i].stableId == s.chunks[h.doc][i].stableId
                else forall d: DocId, k: nat :: !HasId(s.chunks, d, k, r.chunks[h.doc][i].stableId))
            && (forall d | d in s.chunks && d != h.doc :: d in r.chunks && r.chunks[d] == s.chunks[d])
  {
  }

  /** Each memory job has a provider's answer accepted at most once, is finished at most once, exactly if its row is
      done, and is requeued at most three times over its life; the memory tables received exactly the committed
      batches, in order. */
  lemma CommitsExactlyOnce(actions: seq<Action>, j: JobId)
    ensures var sys := Run(Initial, actions);
            && JobSafety.Finishes(sys.history, j) <= 1
            && JobSafety.Requeues(sys.history, j) <= 3
            && JobSafety.Caches(sys.history, j) <= 1
            && (j in sys.store.jobs ==>
                  (JobSafety.Finishes(sys.history, j) == 1
                   <==> sys.store.jobs[j].kind.MemoryJob? && sys.store.jobs[j].status.Done?))
            && JobSafety.Publications(sys.store.log) == JobSafety.Batches(sys.history)
  {
    JobSafety.RunOk(actions);
    assert JobSafety.JobHistory(Run(Initial, actions).store, Run(Initial, actions).history, j);
  }

  /** A worker that has an extraction in hand, or was done with an empty one, has it from its current job's row. */
  lemma ExtractionInHand(sys: System, w: nat)
    requires JobSafety.Inv(sys) && IsMemoryWorker(sys, w)
    requires Current(sys.store, sys.workers[w].task.doc, sys.workers[w].task.revision)
    ensures var s, h, phase := sys.store, sys.workers[w].task, sys.workers[w].phase;
            && h.id in s.jobs && h.doc in s.documents && h.org == s.documents[h.doc].org && !phase.Rejected?
            && (phase.Extracted? ==> s.jobs[h.id].extraction == Some(phase.candidates))
  {
    assert JobSafety.Owns(sys.store, sys.workers[w]);
  }

  lemma ReconcileStore(sys: System, w: nat)
    requires Enabled(sys, Reconcile(w))
    ensures Step(sys, Reconcile(w)).store
            == ReconcileMemories(sys.store, sys.workers[w].task, sys.workers[w].phase.candidates, sys.now).0
  {
  }

  lemma CommitsInHand(sys: System, w: nat)
    requires JobSafety.Inv(sys) && IsMemoryWorker(sys, w) && sys.workers[w].phase.Extracted?
    ensures var h, candidates := sys.workers[w].task, sys.workers[w].phase.candidates;
            var r := ReconcileMemories(sys.store, h, candidates, sys.now).0;
            r != sys.store ==>
              && Current(sys.store, h.doc, h.revision)
              && r.log == sys.store.log
                          + [Memories.Publish(Memories.Source(h.org, h.doc, h.container), candidates, sys.now)]
  {
    assert JobSafety.Owns(sys.store, sys.workers[w]);
    ReconcileMemoriesOk(sys.store, sys.workers[w].task, sys.workers[w].phase.candidates, sys.now);
  }

  /** What a worker commits is what the provider's accepted answer for its job was, under the organization of the job's
      document. */
  lemma ExtractionIsCommitted(actions: seq<Action>, w: nat)
    requires var sys := Run(Initial, actions); Enabled(sys, Reconcile(w)) && Step(sys, Reconcile(w)).store != sys.store
    ensures var sys := Run(Initial, actions);
            var s, h := sys.store, sys.workers[w].task;
            && h.id in s.jobs && s.jobs[h.id].extraction.Some? && h.doc in s.documents
            && Step(sys, Reconcile(w)).store.log == s.log + [Memories.Publish(
                 Memories.Source(s.documents[h.doc].org, h.doc, h.container), s.jobs[h.id].extraction.value, sys.now)]
  {
    JobSafety.RunOk(actions);
    ReconcileStore(Run(Initial, actions), w);
    CommitsInHand(Run(Initial, actions), w);
    ExtractionInHand(Run(Initial, actions), w);
  }

  /** A current job is finished without a commit only when its extraction is empty. */
  lemma OnlyEmptyExtractionsVanish(actions: seq<Action>, w: nat)
    requires var sys := Run(Initial, actions);
             Enabled(sys, Complete(w)) && Current(sys.store, sys.workers[w].task.doc, sys.workers[w].task.revision)
    ensures var s, h := Run(Initial, actions).store, Run(Initial, actions).workers[w].task;
            h.id in s.jobs && s.jobs[h.id].extraction == Some([])
  {
    JobSafety.RunOk(actions);
    ExtractionInHand(Run(Initial, actions), w);
  }

  ghost predicate Stay(s: Store, r: Store) {
    s.documents.Keys <= r.documents.Keys
  }

  lemma UpsertKeepsDocuments(s: Store, org: string, input: Upsert, now: nat)
    ensures Stay(s, UpsertDocument(s, org, input, now).0)
  {
  }

  lemma DocumentJobKeepsDocuments(s: Store, h: ClaimedJob, stage: DocumentState, contents: seq<string>, schedule: bool,
                                  now: nat)
    ensures Stay(s, ClaimJob(s, now).0) && Stay(s, MarkJobStage(s, h, stage).0) && Stay(s, FailJob(s, h))
    ensures Stay(s, PublishJob(s, h, contents, schedule, now).0)
  {
  }

  lemma MemoryJobKeepsDocuments(s: Store, h: ClaimedMemoryJob, ps: seq<Memories.Proposal>, kind: string,
                                delay: Option<nat>, now: nat)
    ensures Stay(s, ClaimMemoryJob(s, now).0) && Stay(s, CacheExtraction(s, h, ps).0)
    ensures Stay(s, CompleteMemoryJob(s, h).0) && Stay(s, RetryMemoryJob(s, h, kind, delay, now).0)
    ensures Stay(s, ReconcileMemories(s, h, ps, now).0)
  {
  }

  lemma DocumentStepStays(sys: System, a: Action)
    requires Enabled(sys, a) && IsDocumentStep(a) && !a.DeleteEmpty?
    ensures Stay(sys.store, Perform(sys, a).store)
  {
    var h := sys.workers[a.w].job;
    match a
    case Advance(w) => DocumentJobKeepsDocuments(sys.store, h, NextStage(sys.workers[w].at), [], false, sys.now);
    case PublishPlain(w) => DocumentJobKeepsDocuments(sys.store, h, Done, Chunks(h.content), false, sys.now);
    case PublishEmbedded(w, schedule) =>
      DocumentJobKeepsDocuments(sys.store, h, Done, Prepared(Chunks(h.content)), schedule, sys.now);
    case FailDocument(w) => DocumentJobKeepsDocuments(sys.store, h, Done, [], false, sys.now);
  }

  lemma RetryStays(sys: System, w: nat, kind: string, delay: Option<nat>)
    requires IsMemoryWorker(sys, w)
    ensures Stay(sys.store, RetryStep(sys, w, kind, delay).store)
  {
    MemoryJobKeepsDocuments(sys.store, sys.workers[w].task, [], kind, delay, sys.now);
  }

  lemma MemoryStepStays(sys: System, a: Action)
    requires Enabled(sys, a) && IsMemoryStep(a)
    ensures Stay(sys.store, Perform(sys, a).store)
  {
    var h := sys.workers[a.w].task;
    match a
    case ReuseExtraction(w) =>
    case Extract(w, candidates) => MemoryJobKeepsDocuments(sys.store, h, candidates, "", None, sys.now);
    case ProviderFailure(w, failure) => RetryStays(sys, w, FailureName(failure), RetryDelay(failure, h.attempts));
    case InternalFailure(w) =>
      RetryStays(sys, w, if sys.workers[w].phase.Failing? then "reconciliation" else "embedding", Some(1));
    case Reconcile(w) =>
      MemoryJobKeepsDocuments(sys.store, h, sys.workers[w].phase.candidates, "", None, sys.now);
    case Complete(w) => MemoryJobKeepsDocuments(sys.store, h, [], "", None, sys.now);
  }

  /** No action but a deletion takes a document out of the table. */
  lemma DocumentsStay(sys: System, a: Action)
    requires Enabled(sys, a) && !a.Deleting? && !a.DeleteEmpty?
    ensures Stay(sys.store, Perform(sys, a).store)
  {
    if IsDocumentStep(a) {
      DocumentStepStays(sys, a);
    } else if IsMemoryStep(a) {
      MemoryStepStays(sys, a);
    } else {
      match a
      case Upserting(org, input) => UpsertKeepsDocuments(sys.store, org, input, sys.now);
      case ClaimDocument => DocumentJobKeepsDocuments(sys.store, ClaimedJob(0, 0, "", 0), Done, [], false, sys.now);
      case ClaimMemory =>
        MemoryJobKeepsDocuments(sys.store, ClaimedMemoryJob(0, 0, "", 0, "", "", None, 0), [], "", None, sys.now);
      case _ =>
    }
  }

  /** A document disappears only when a user deletes it, or when a worker finds nothing legible in its content. */
  lemma OnlyBlankDocumentsVanish(actions: seq<Action>, a: Action, d: DocId)
    requires d in Run(Initial, actions).store.documents && d !in Step(Run(Initial, actions), a).store.documents
    ensures a == Deleting(d)
            || (a.DeleteEmpty? && forall c | c in Run(Initial, actions).store.documents[d].content ::
                  Text.IsWhitespace(c) || ChunkingCoverage.Dropped(c))
  {
    var sys := Run(Initial, actions);
    if !a.Deleting? && !a.DeleteEmpty? { DocumentsStay(sys, a); }
    if a.DeleteEmpty? {
      JobSafety.RunOk(actions);
      assert JobSafety.Owns(sys.store, sys.workers[a.w]);
      ChunkingCoverage.ChunkTextSound(sys.store.documents[d].content, None);
    }
  }

  /** The memory tables the protocol builds satisfy the invariant of the memory graph, for every normalization. */
  lemma MemoriesStayConsistent(norm: Memories.Normalizer, actions: seq<Action>)
    ensures var sys := Run(Initial, actions);
            MemoryInvariants.Inv(norm, Memories.ApplyAll(norm, Memories.EmptyTables, sys.store.log), sys.now)
  {
    JobSafety.RunOk(actions);
    MemoryInvariants.RunKeepsInv(norm, Run(Initial, actions).store.log, Run(Initial, actions).now);
  }

  /** Restarting again changes nothing. */
  lemma RestartOnce(sys: System)
    requires StoreOk(sys.store)
    ensures Step(Step(sys, Restart), Restart) == Step(sys, Restart)
  {
    InitializeIdempotent(sys.store, sys.now, sys.now);
  }

  /** A restart in any reachable state re-establishes everything, leaves no work in progress, and once is enough. */
  lemma RestartRecovers(sys: System)
    requires JobSafety.Inv(sys)
    ensures JobSafety.Inv(Step(sys, Restart)) && Step(sys, Restart).workers == map[]
    ensures forall j | j in Step(sys, Restart).store.jobs :: !InProgress(Step(sys, Restart).store.jobs[j].status)
    ensures Step(Step(sys, Restart), Restart) == Step(sys, Restart)
  {
    JobSafety.StepOk(sys, Restart);
    InitializeShape(sys.store, sys.now);
    RestartOnce(sys);
  }
}
