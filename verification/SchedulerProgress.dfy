/** The loop left to itself answers everything that has arrived, whatever the limits and whichever dispatches fail. */
module SchedulerProgress {
  import opened Options
  import opened Microbatch
  import opened Scheduler

  /** What the loop does next, when nothing arrives; `succeeds` tells whether a batch it dispatches now is embedded. */
  function LoopAction<V>(x: Executor<V>, succeeds: bool): Action {
    match x.phase
    case Selecting => Select
    case Polling(_, _, _) => Poll
    case Waiting => Wake
    case Collecting(_, _, _, _) => Collect
    case Ready(_, _) => Dispatch(succeeds)
  }

  /** One loop step for each element, embedding as it says. */
  function Loop<V>(x: Executor<V>, outcomes: seq<bool>, limits: Limits, model: string -> V): Executor<V> {
    if outcomes == [] then x
    else
      var y := Loop(x, outcomes[..|outcomes| - 1], limits, model);
      Step(y, LoopAction(y, outcomes[|outcomes| - 1]), limits, model)
  }

  /** Requests neither in hand nor served. */
  function Backlog<V>(x: Executor<V>): nat {
    |x.query| + |x.bulk| + if x.held.Some? then 1 else 0
  }

  function Rank<V>(x: Executor<V>): nat {
    match x.phase
    case Selecting => 6
    case Polling(BulkFirst, _, _) => 5
    case Polling(QueryNext, _, _) => 4
    case Polling(BulkLast, _, _) => if x.bulk != [] then 1 else 3
    case Waiting => 2
    case Collecting(_, _, _, _) => 8
    case Ready(_, _) => 7
  }

  function Measure<V>(x: Executor<V>): nat {
    10 * Backlog(x) + Rank(x)
  }

  /** Nothing is queued, deferred or in hand. */
  predicate Settled<V>(x: Executor<V>) {
    Backlog(x) == 0 && Idle(x)
  }

  lemma BeginPays<V>(x: Executor<V>, c: Class, otherWaits: bool)
    requires Queue(x, c) != []
    ensures Measure(BeginFrom(x, c, otherWaits)) <= 10 * (Backlog(x) - 1) + 8
  {
  }

  lemma SelectPays<V>(x: Executor<V>)
    requires x.phase.Selecting?
    ensures Measure(SelectStep(x)) < Measure(x)
  {
  }

  lemma PollPays<V>(x: Executor<V>)
    requires x.phase.Polling? && Backlog(x) > 0 && x.held.None?
    ensures Measure(PollStep(x)) < Measure(x)
  {
    if x.bulk != [] { BeginPays(x, Bulk, x.phase.queryWaits); }
    if x.query != [] { BeginPays(x, Query, x.phase.bulkWaits); }
  }

  lemma WakePays<V>(x: Executor<V>)
    requires x.phase.Waiting? && Backlog(x) > 0 && x.held.None?
    ensures Measure(WakeStep(x)) < Measure(x)
  {
    if x.query != [] { BeginPays(x, Query, x.bulk != []); }
  }

  lemma CollectPays<V>(x: Executor<V>, limits: Limits)
    requires x.phase.Collecting? && x.held.None?
    ensures Measure(CollectStep(x, limits)) < Measure(x)
  {
  }

  lemma LoopStepPays<V>(x: Executor<V>, succeeds: bool, limits: Limits, model: string -> V)
    requires PhaseOk(x, limits) && !Settled(x)
    ensures Measure(Step(x, LoopAction(x, succeeds), limits, model)) < Measure(x)
  {
    match x.phase
    case Selecting => SelectPays(x);
    case Polling(_, _, _) => PollPays(x);
    case Waiting => WakePays(x);
    case Collecting(_, _, _, _) => CollectPays(x, limits);
    case Ready(_, _) =>
  }

  /** Once nothing is left the loop only waits. */
  lemma SettledStays<V>(x: Executor<V>, succeeds: bool, limits: Limits, model: string -> V)
    requires Settled(x)
    ensures var y := Step(x, LoopAction(x, succeeds), limits, model);
            Settled(y) && y.served == x.served && y.replies == x.replies
  {
  }

  /** A step of the loop is no arrival. */
  lemma LoopStepArrives<V>(x: Executor<V>, succeeds: bool, limits: Limits, model: string -> V)
    ensures var y := Step(x, LoopAction(x, succeeds), limits, model);
            y.arrivedQuery == x.arrivedQuery && y.arrivedBulk == x.arrivedBulk
  {
  }

  lemma {:induction false} LoopSettles<V>(x: Executor<V>, outcomes: seq<bool>, limits: Limits, model: string -> V)
    requires Inv(x, limits, model)
    ensures var y := Loop(x, outcomes, limits, model);
            && Inv(y, limits, model) && (Settled(y) || Measure(y) + |outcomes| <= Measure(x))
            && y.arrivedQuery == x.arrivedQuery && y.arrivedBulk == x.arrivedBulk
  {
    if outcomes != [] {
      var front, last := outcomes[..|outcomes| - 1], outcomes[|outcomes| - 1];
      LoopSettles(x, front, limits, model);
      var y := Loop(x, front, limits, model);
      StepInv(y, LoopAction(y, last), limits, model);
      LoopStepArrives(y, last, limits, model);
      if Settled(y) { SettledStays(y, last, limits, model); } else { LoopStepPays(y, last, limits, model); }
    }
  }

  /**
   After any run, as many loop steps as the measure serves every request that has arrived, in the order of its class,
   and answers each.
   */
  lemma EveryRequestIsAnswered<V>(actions: seq<Action>, outcomes: seq<bool>, limits: Limits, model: string -> V)
    requires |outcomes| >= Measure(Run(actions, limits, model))
    ensures var x, y := Run(actions, limits, model), Loop(Run(actions, limits, model), outcomes, limits, model);
            && Served(y.served, Query) == x.arrivedQuery && Served(y.served, Bulk) == x.arrivedBulk
            && |y.replies| == |x.arrivedQuery| + |x.arrivedBulk|
  {
    var x, y := Run(actions, limits, model), Loop(Run(actions, limits, model), outcomes, limits, model);
    RunInv(actions, limits, model);
    LoopSettles(x, outcomes, limits, model);
    assert y.query == [] && y.bulk == [] && y.held.None?;
    NothingLeft(y, Query);
    NothingLeft(y, Bulk);
    ServedInAll(y.served);
  }

  lemma NothingLeft<V>(y: Executor<V>, c: Class)
    requires InOrder(y, c) && Settled(y)
    ensures Served(y.served, c) == Arrived(y, c)
  {
    assert Served(y.served, c) + [] + [] + [] == Served(y.served, c);
  }

  lemma {:induction false} ServedInAll(batches: seq<Batch>)
    ensures |AllServed(batches)| == |Served(batches, Query)| + |Served(batches, Bulk)|
  {
    if batches != [] { ServedInAll(batches[..|batches| - 1]); }
  }
}
