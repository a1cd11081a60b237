/** Nothing gets stuck: when the coordinators have nothing left to do, every document is done or failed. */
module JobLiveness {
  import opened Options
  import opened JobStore
  import opened JobInvariants
  import opened JobTransactions
  import opened JobProtocol
  import JobOwnership
  import JobProgress
  import JobSafety
  import JobTheorems

  /** What a worker does next when nothing fails. */
  function NextAction(sys: System, w: nat): Action
    requires w in sys.workers
  {
    match sys.workers[w]
    case DocumentWorker(h, at) =>
      if at.Indexing? then PublishEmbedded(w, true)
      else if at.Chunking? && Chunks(h.content) == [] then DeleteEmpty(w)
      else Advance(w)
    case MemoryWorker(h, Fresh) => if h.extraction.Some? then ReuseExtraction(w) else Extract(w, [])
    case MemoryWorker(h, Extracted(candidates)) => if candidates == [] then Complete(w) else Reconcile(w)
    case MemoryWorker(h, Failing) => InternalFailure(w)
    case MemoryWorker(h, Rejected) => Complete(w)
  }

  /** Every worker always has a step to take, and taking it uses up work. */
  lemma WorkersAreNeverStuck(sys: System, w: nat)
    requires JobSafety.Inv(sys) && w in sys.workers
    ensures Enabled(sys, NextAction(sys, w)) && !NextAction(sys, w).Abandon?
    ensures JobProgress.Measure(Step(sys, NextAction(sys, w))) < JobProgress.Measure(sys)
  {
    assert JobSafety.Owns(sys.store, sys.workers[w]);
    var a := NextAction(sys, w);
    if sys.workers[w].DocumentWorker? {
      JobProgress.DocumentStepPays(sys, a);
    } else {
      JobProgress.MemoryStepPays(sys, a);
    }
  }

  /** A claimable job is claimed. */
  lemma ClaimableIsClaimed(sys: System, j: JobId)
    requires JobSafety.Inv(sys)
    requires Claimable(sys.store, j, DocumentJob, sys.now) || Claimable(sys.store, j, MemoryJob, sys.now)
    ensures Step(sys, ClaimDocument) != sys || Step(sys, ClaimMemory) != sys
  {
    var s := sys.store;
    ClaimJobShape(s, sys.now);
    ClaimMemoryJobShape(s, sys.now);
    if Claimable(s, j, DocumentJob, sys.now) {
      assert ClaimJob(s, sys.now).1.Some?;
      assert Step(sys, ClaimDocument).nextWorker == sys.nextWorker + 1;
    } else {
      assert ClaimMemoryJob(s, sys.now).1.Some?;
      assert Step(sys, ClaimMemory).nextWorker == sys.nextWorker + 1;
    }
  }

  /** No coordinator step but abandoning does anything. */
  ghost predicate Quiescent(sys: System) {
    forall a | JobProgress.IsWorkerStep(a) && !a.Abandon? :: Step(sys, a) == sys
  }

  lemma QuiescentHasNoWorker(sys: System, w: nat)
    requires JobSafety.Inv(sys) && Quiescent(sys)
    ensures w !in sys.workers
  {
    if w in sys.workers {
      var a := NextAction(sys, w);
      assert JobProgress.IsWorkerStep(a) && !a.Abandon?;
      assert Step(sys, a) == sys;
      WorkersAreNeverStuck(sys, w);
    }
  }

  lemma QuiescentHasNothingClaimable(sys: System, j: JobId)
    requires JobSafety.Inv(sys) && Quiescent(sys)
    ensures !Claimable(sys.store, j, DocumentJob, sys.now) && !Claimable(sys.store, j, MemoryJob, sys.now)
  {
    assert Step(sys, ClaimDocument) == sys && Step(sys, ClaimMemory) == sys;
    if Claimable(sys.store, j, DocumentJob, sys.now) || Claimable(sys.store, j, MemoryJob, sys.now) {
      ClaimableIsClaimed(sys, j);
    }
  }

  lemma NoJobsMeansSettled(s: Store, d: DocId)
    requires StoreOk(s) && d in s.documents && forall j | j in s.jobs :: !Active(s.jobs[j].status)
    ensures Settled(s.documents[d].status)
  {
    assert DocOk(s, d);
  }

  lemma QuiescentHasNoActiveJob(sys: System, j: JobId)
    requires JobSafety.Inv(sys) && JobOwnership.Attended(sys) && Quiescent(sys) && j in sys.store.jobs
    requires sys.store.jobs[j].status.Queued? ==> sys.store.jobs[j].availableAt <= sys.now
    ensures !Active(sys.store.jobs[j].status)
  {
    assert JobOk(sys.store, j);
    QuiescentHasNothingClaimable(sys, j);
    if JobOwnership.HasWorker(sys.workers, j) {
      var w :| w in sys.workers && JobSafety.JobOf(sys.workers[w]) == j;
      QuiescentHasNoWorker(sys, w);
    }
  }

  /** Every queued job's time has come. */
  ghost predicate NoDelayPending(sys: System) {
    forall j | j in sys.store.jobs && sys.store.jobs[j].status.Queued? :: sys.store.jobs[j].availableAt <= sys.now
  }

  /** In a quiescent state whose jobs are attended and whose retry delays have passed, every document is done or
      failed. */
  lemma QuiescentMeansSettled(sys: System, d: DocId)
    requires JobSafety.Inv(sys) && JobOwnership.Attended(sys) && Quiescent(sys) && d in sys.store.documents
    requires NoDelayPending(sys)
    ensures Settled(sys.store.documents[d].status)
  {
    forall j | j in sys.store.jobs ensures !Active(sys.store.jobs[j].status) {
      QuiescentHasNoActiveJob(sys, j);
    }
    NoJobsMeansSettled(sys.store, d);
  }

  lemma {:induction false} RunFirst(sys: System, a: Action, rest: seq<Action>)
    ensures Run(sys, [a] + rest) == Run(Step(sys, a), rest)
  {
    if rest == [] {
      assert [a] + rest == [a];
      assert [a][..0] == [];
    } else {
      assert ([a] + rest)[..|[a] + rest| - 1] == [a] + rest[..|rest| - 1];
      RunFirst(sys, a, rest[..|rest| - 1]);
    }
  }

  /** A state that is not quiescent has a step that uses up work. */
  lemma EffectiveStep(sys: System) returns (a: Action)
    requires JobSafety.Inv(sys) && JobOwnership.Attended(sys) && !Quiescent(sys)
    ensures JobProgress.IsWorkerStep(a) && !a.Abandon?
    ensures JobSafety.Inv(Step(sys, a)) && JobOwnership.Attended(Step(sys, a))
    ensures JobProgress.Measure(Step(sys, a)) < JobProgress.Measure(sys)
  {
    a :| JobProgress.IsWorkerStep(a) && !a.Abandon? && Step(sys, a) != sys;
    JobProgress.WorkerStepPays(sys, a);
    JobSafety.StepOk(sys, a);
    JobOwnership.StepAttended(sys, a);
  }

  /** From every attended reachable state the coordinators alone reach quiescence, within Measure many steps. */
  lemma {:induction false} QuiescenceIsReached(sys: System) returns (actions: seq<Action>)
    requires JobSafety.Inv(sys) && JobOwnership.Attended(sys)
    ensures |actions| <= JobProgress.Measure(sys)
    ensures forall a | a in actions :: JobProgress.IsWorkerStep(a) && !a.Abandon?
    ensures JobSafety.Inv(Run(sys, actions)) && JobOwnership.Attended(Run(sys, actions)) && Quiescent(Run(sys, actions))
    decreases JobProgress.Measure(sys)
  {
    if Quiescent(sys) {
      actions := [];
    } else {
      var a := EffectiveStep(sys);
      var rest := QuiescenceIsReached(Step(sys, a));
      RunFirst(sys, a, rest);
      actions := [a] + rest;
    }
  }

  // ---- with the clock -----------------------------------------------------------------------------

  /** A time by which every retry delay of the jobs below n is over. */
  function Latest(jobs: map<JobId, Job>, n: nat): (t: nat)
    ensures forall j: JobId | j < n && j in jobs :: jobs[j].availableAt <= t
  {
    if n == 0 then 0
    else
      var earlier := Latest(jobs, n - 1);
      if n - 1 in jobs && jobs[n - 1].availableAt > earlier then jobs[n - 1].availableAt else earlier
  }

  ghost predicate AllSettled(s: Store) {
    forall d | d in s.documents :: Settled(s.documents[d].status)
  }

  /** Waiting long enough lets no retry delay stand in the way. */
  lemma WaitedLongEnough(sys: System)
    requires JobSafety.Inv(sys) && JobOwnership.Attended(sys)
    ensures var waited := Step(sys, Tick(Latest(sys.store.jobs, sys.store.nextId)));
            && JobSafety.Inv(waited) && JobOwnership.Attended(waited) && waited.store == sys.store
            && JobProgress.Measure(waited) == JobProgress.Measure(sys)
            && (Quiescent(waited) ==> AllSettled(sys.store))
  {
    var tick := Tick(Latest(sys.store.jobs, sys.store.nextId));
    var waited := Step(sys, tick);
    JobSafety.StepOk(sys, tick);
    if Quiescent(waited) {
      forall d | d in sys.store.documents ensures Settled(sys.store.documents[d].status) {
        QuiescentMeansSettled(waited, d);
      }
    }
  }

  ghost predicate OnlyCoordinators(actions: seq<Action>) {
    forall a | a in actions :: a.Tick? || (JobProgress.IsWorkerStep(a) && !a.Abandon?)
  }

  /** A schedule of coordinator steps and ticks: one wait and one step in front of another schedule. */
  lemma Scheduled(sys: System, tick: Action, a: Action, rest: seq<Action>)
    requires tick.Tick? && JobProgress.IsWorkerStep(a) && !a.Abandon? && OnlyCoordinators(rest)
    ensures OnlyCoordinators([tick] + ([a] + rest))
    ensures Run(sys, [tick] + ([a] + rest)) == Run(Step(Step(sys, tick), a), rest)
  {
    RunFirst(Step(sys, tick), a, rest);
    RunFirst(sys, tick, [a] + rest);
  }

  lemma OnlyWaiting(sys: System, tick: Action)
    requires tick.Tick?
    ensures OnlyCoordinators([tick]) && Run(sys, [tick]) == Step(sys, tick)
  {
    RunFirst(sys, tick, []);
    assert [tick] + [] == [tick];
  }

  /** From every attended reachable state, coordinator steps and the passing of time settle every document. */
  lemma {:induction false} EverythingSettles(sys: System) returns (actions: seq<Action>)
    requires JobSafety.Inv(sys) && JobOwnership.Attended(sys)
    ensures OnlyCoordinators(actions) && |actions| <= 2 * JobProgress.Measure(sys) + 1
    ensures JobSafety.Inv(Run(sys, actions)) && AllSettled(Run(sys, actions).store)
    decreases JobProgress.Measure(sys)
  {
    var tick := Tick(Latest(sys.store.jobs, sys.store.nextId));
    var waited := Step(sys, tick);
    WaitedLongEnough(sys);
    if Quiescent(waited) {
      OnlyWaiting(sys, tick);
      actions := [tick];
    } else {
      var a := EffectiveStep(waited);
      var rest := EverythingSettles(Step(waited, a));
      Scheduled(sys, tick, a, rest);
      actions := [tick] + ([a] + rest);
    }
  }

  lemma {:induction false} CoordinatorsKeepAttended(sys: System, actions: seq<Action>)
    requires JobSafety.Inv(sys) && JobOwnership.Attended(sys) && OnlyCoordinators(actions)
    ensures JobSafety.Inv(Run(sys, actions)) && JobOwnership.Attended(Run(sys, actions))
  {
    if actions != [] {
      var front, a := actions[..|actions| - 1], actions[|actions| - 1];
      assert a in actions && forall b | b in front :: b in actions;
      CoordinatorsKeepAttended(sys, front);
      JobSafety.StepOk(Run(sys, front), a);
      JobOwnership.StepAttended(Run(sys, front), a);
    }
  }

  /**
   Not only some schedule does: in every run of coordinator steps and ticks at most Measure many steps do anything, and
   a run that stops with nothing left to do and no retry delay pending has settled every document.
   */
  lemma EveryRunSettles(sys: System, actions: seq<Action>)
    requires JobSafety.Inv(sys) && JobOwnership.Attended(sys) && OnlyCoordinators(actions)
    ensures JobProgress.Effective(sys, actions) + JobProgress.Measure(Run(sys, actions)) <= JobProgress.Measure(sys)
    ensures var last := Run(sys, actions);
            Quiescent(last) && NoDelayPending(last) ==> AllSettled(last.store)
  {
    var last := Run(sys, actions);
    JobProgress.WorkIsBounded(sys, actions);
    CoordinatorsKeepAttended(sys, actions);
    if Quiescent(last) && NoDelayPending(last) {
      forall d | d in last.store.documents ensures Settled(last.store.documents[d].status) {
        QuiescentMeansSettled(last, d);
      }
    }
  }

  /** In particular, whatever happened before, a restart followed by coordinator steps and time settles every
      document. */
  lemma RestartThenSettles(before: seq<Action>) returns (actions: seq<Action>)
    ensures OnlyCoordinators(actions)
    ensures AllSettled(Run(Step(Run(Initial, before), Restart), actions).store)
  {
    var sys := Run(Initial, before);
    JobSafety.RunOk(before);
    JobTheorems.RestartRecovers(sys);
    actions := EverythingSettles(Step(sys, Restart));
  }
}
