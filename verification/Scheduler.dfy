/**
 The embedding executor's scheduler: two bounded queues, one deferred request, and a burst counter. Every arrival
 schedule is a sequence of actions; a step that its phase does not allow does nothing.
 */
module Scheduler {
  import opened Options
  import opened Microbatch

  datatype Class = Query | Bulk

  datatype Request = Request(values: seq<Prepared>)

  datatype Limits = Limits(maxItems: nat, maxPadded: nat)

  /** The queue a selection tries next; each is tried without waiting. */
  datatype Attempt = BulkFirst | QueryNext | BulkLast

  /** What the loop is doing. While polling it is remembered which classes had a request queued when polling began;
      while collecting, the batch's item count and longest item. */
  datatype Phase =
    | Selecting
    | Polling(attempt: Attempt, queryWaits: bool, bulkWaits: bool)
    | Waiting
    | Collecting(kind: Class, batch: seq<Request>, items: nat, longest: nat)
    | Ready(kind: Class, batch: seq<Request>)

  datatype Reply<V> = Replied(embedded: seq<Embedded<V>>) | Refused

  /** A batch that was dispatched, and whether embedding it succeeded. */
  datatype Batch = Batch(kind: Class, requests: seq<Request>, succeeded: bool)

  /** A selection: its class, whether it was the deferred request, and whether the other class had a request queued when
      the selection began. */
  datatype Pick = Pick(kind: Class, deferred: bool, otherWaits: bool)

  /** The loop's state, with what arrived, which batches ran, what was answered and what was selected. */
  datatype Executor<V> = Executor(
    query: seq<Request>, bulk: seq<Request>, held: Option<(Class, Request)>, burst: nat, phase: Phase,
    arrivedQuery: seq<Request>, arrivedBulk: seq<Request>, served: seq<Batch>, replies: seq<(Request, Reply<V>)>,
    picks: seq<Pick>)

  datatype Action = Arrive(kind: Class, request: Request) | Select | Poll | Wake | Collect | Dispatch(succeeds: bool)

  function Start<V>(): Executor<V> {
    Executor([], [], None, 0, Selecting, [], [], [], [], [])
  }

  // ---- the loop -----------------------------------------------------------------------------------

  function Queue<V>(x: Executor<V>, c: Class): seq<Request> {
    if c.Query? then x.query else x.bulk
  }

  function Pop<V>(x: Executor<V>, c: Class): Executor<V>
    requires Queue(x, c) != []
  {
    if c.Query? then x.(query := x.query[1..]) else x.(bulk := x.bulk[1..])
  }

  function Other(c: Class): Class {
    if c.Query? then Bulk else Query
  }

  /** The longest item of a request; one for an empty request. */
  function MaxItem(values: seq<Prepared>): nat {
    if values == [] then 1
    else if |values| == 1 then values[0].tokens
    else Max(MaxItem(values[..|values| - 1]), values[|values| - 1].tokens)
  }

  function Begin<V>(x: Executor<V>, c: Class, r: Request, deferred: bool, otherWaits: bool): Executor<V> {
    x.(burst := if c.Query? then x.burst + 1 else 0,
       phase := Collecting(c, [r], |r.values|, MaxItem(r.values)),
       picks := x.picks + [Pick(c, deferred, otherWaits)])
  }

  function BeginFrom<V>(x: Executor<V>, c: Class, otherWaits: bool): Executor<V>
    requires Queue(x, c) != []
  {
    Begin(Pop(x, c), c, Queue(x, c)[0], false, otherWaits)
  }

  function Resume<V>(x: Executor<V>): Executor<V>
    requires x.held.Some?
  {
    var (c, r) := x.held.value;
    Begin(x.(held := None), c, r, true, Queue(x, Other(c)) != [])
  }

  /** The deferred request first; else the queues are polled, bulk first after four queries. */
  function SelectStep<V>(x: Executor<V>): Executor<V> {
    if x.held.Some? then Resume(x)
    else x.(phase := Polling(if x.burst >= 4 then BulkFirst else QueryNext, x.query != [], x.bulk != []))
  }

  /** One attempt; requests may arrive before the next. */
  function PollStep<V>(x: Executor<V>): Executor<V>
    requires x.phase.Polling?
  {
    var Polling(attempt, queryWaits, bulkWaits) := x.phase;
    match attempt
    case BulkFirst =>
      if x.bulk != [] then BeginFrom(x, Bulk, queryWaits) else x.(phase := Polling(QueryNext, queryWaits, bulkWaits))
    case QueryNext =>
      if x.query != [] then BeginFrom(x, Query, bulkWaits) else x.(phase := Polling(BulkLast, queryWaits, bulkWaits))
    case BulkLast =>
      if x.bulk != [] then BeginFrom(x, Bulk, queryWaits) else x.(phase := Waiting)
  }

  /** While waiting, queries are looked at before bulk. */
  function WakeStep<V>(x: Executor<V>): Executor<V> {
    if x.query != [] then BeginFrom(x, Query, x.bulk != []) else x.(phase := Polling(BulkLast, false, false))
  }

  function CollectStep<V>(x: Executor<V>, limits: Limits): Executor<V>
    requires x.phase.Collecting?
  {
    var Collecting(c, batch, items, longest) := x.phase;
    if items >= limits.maxItems || Queue(x, c) == [] then x.(phase := Ready(c, batch))
    else
      var next := Queue(x, c)[0];
      var total, widest := items + |next.values|, Max(longest, MaxItem(next.values));
      if total > limits.maxItems || total * widest > limits.maxPadded
      then Pop(x, c).(held := Some((c, next)), phase := Ready(c, batch))
      else Pop(x, c).(phase := Collecting(c, batch + [next], total, widest))
  }

  function Values(requests: seq<Request>): seq<Prepared> {
    if requests == [] then [] else requests[0].values + Values(requests[1..])
  }

  /** Hands each request its share of the batch's results, in order. */
  function Distribute<V>(requests: seq<Request>, results: seq<Embedded<V>>): seq<(Request, Reply<V>)>
    requires |results| == |Values(requests)|
  {
    if requests == [] then []
    else
      var n := |requests[0].values|;
      [(requests[0], Replied(results[..n]))] + Distribute(requests[1..], results[n..])
  }

  function Refusals<V>(requests: seq<Request>): seq<(Request, Reply<V>)> {
    seq(|requests|, i requires 0 <= i < |requests| => (requests[i], Refused))
  }

  function DispatchStep<V>(x: Executor<V>, model: string -> V, succeeds: bool): Executor<V>
    requires x.phase.Ready?
  {
    var Ready(c, batch) := x.phase;
    x.(phase := Selecting, served := x.served + [Batch(c, batch, succeeds)],
       replies := x.replies + if succeeds then Distribute(batch, EmbedAll(model, Values(batch))) else Refusals(batch))
  }

  function ArriveStep<V>(x: Executor<V>, c: Class, r: Request): Executor<V> {
    if c.Query? then x.(query := x.query + [r], arrivedQuery := x.arrivedQuery + [r])
    else x.(bulk := x.bulk + [r], arrivedBulk := x.arrivedBulk + [r])
  }

  function Step<V>(x: Executor<V>, a: Action, limits: Limits, model: string -> V): Executor<V> {
    match a
    case Arrive(c, r) => ArriveStep(x, c, r)
    case Select => if x.phase.Selecting? then SelectStep(x) else x
    case Poll => if x.phase.Polling? then PollStep(x) else x
    case Wake => if x.phase.Waiting? then WakeStep(x) else x
    case Collect => if x.phase.Collecting? then CollectStep(x, limits) else x
    case Dispatch(succeeds) => if x.phase.Ready? then DispatchStep(x, model, succeeds) else x
  }

  function RunFrom<V>(x: Executor<V>, actions: seq<Action>, limits: Limits, model: string -> V): Executor<V> {
    if actions == [] then x
    else Step(RunFrom(x, actions[..|actions| - 1], limits, model), actions[|actions| - 1], limits, model)
  }

  function Run<V>(actions: seq<Action>, limits: Limits, model: string -> V): Executor<V> {
    RunFrom(Start(), actions, limits, model)
  }

  // ---- first come, first served -------------------------------------------------------------------

  function Arrived<V>(x: Executor<V>, c: Class): seq<Request> {
    if c.Query? then x.arrivedQuery else x.arrivedBulk
  }

  function Served(batches: seq<Batch>, c: Class): seq<Request> {
    if batches == [] then []
    else
      var b := batches[|batches| - 1];
      Served(batches[..|batches| - 1], c) + if b.kind == c then b.requests else []
  }

  function InHand(phase: Phase, c: Class): seq<Request> {
    if (phase.Collecting? || phase.Ready?) && phase.kind == c then phase.batch else []
  }

  function Held(held: Option<(Class, Request)>, c: Class): seq<Request> {
    if held.Some? && held.value.0 == c then [held.value.1] else []
  }

  /** What arrived in a class is what was served, then what is in hand, then what is deferred, then what is queued. */
  ghost predicate InOrder<V>(x: Executor<V>, c: Class) {
    Arrived(x, c) == Served(x.served, c) + InHand(x.phase, c) + Held(x.held, c) + Queue(x, c)
  }

  // ---- batches ------------------------------------------------------------------------------------

  function Items(requests: seq<Request>): nat {
    if requests == [] then 0 else Items(requests[..|requests| - 1]) + |requests[|requests| - 1].values|
  }

  function Widest(requests: seq<Request>): nat {
    if requests == [] then 0
    else Max(Widest(requests[..|requests| - 1]), MaxItem(requests[|requests| - 1].values))
  }

  /** A batch within both limits, or one request on its own. */
  predicate BatchOk(requests: seq<Request>, limits: Limits) {
    && requests != []
    && (|requests| == 1
        || (Items(requests) <= limits.maxItems && Items(requests) * Widest(requests) <= limits.maxPadded))
  }

  ghost predicate PhaseOk<V>(x: Executor<V>, limits: Limits) {
    match x.phase
    case Selecting => true
    case Polling(_, _, _) => x.held.None?
    case Waiting => x.held.None?
    case Collecting(c, batch, items, longest) =>
      BatchOk(batch, limits) && items == Items(batch) && longest == Widest(batch) && x.held.None?
    case Ready(c, batch) => BatchOk(batch, limits) && (x.held.Some? ==> x.held.value.0 == c)
  }

  // ---- replies ------------------------------------------------------------------------------------

  function AllServed(batches: seq<Batch>): seq<Request> {
    if batches == [] then [] else AllServed(batches[..|batches| - 1]) + batches[|batches| - 1].requests
  }

  /** Whether the batch of the i-th served request succeeded. */
  function AllOutcomes(batches: seq<Batch>): (outcomes: seq<bool>)
    ensures |outcomes| == |AllServed(batches)|
  {
    if batches == [] then []
    else
      var last := batches[|batches| - 1];
      AllOutcomes(batches[..|batches| - 1]) + seq(|last.requests|, i => last.succeeded)
  }

  /** Each served request is answered once, in serving order: with its own texts and their own vectors if its batch
      succeeded, refused if it failed. */
  ghost predicate Answered<V>(requests: seq<Request>, outcomes: seq<bool>, replies: seq<(Request, Reply<V>)>,
                              model: string -> V)
  {
    && |replies| == |requests| == |outcomes|
    && forall i | 0 <= i < |replies| ::
         replies[i] == (requests[i], if outcomes[i] then Replied(EmbedAll(model, requests[i].values)) else Refused)
  }

  // ---- fairness -----------------------------------------------------------------------------------

  /** Selections straight from the query queue that passed over waiting bulk work, since a selection that did not. */
  function Streak(picks: seq<Pick>): nat {
    if picks == [] then 0
    else
      var p := picks[|picks| - 1];
      if p.kind.Query? && p.otherWaits then Streak(picks[..|picks| - 1]) + (if p.deferred then 0 else 1) else 0
  }

  /** How many selections in a row, up to the last, were queries: what the burst counter holds. */
  function Burst(picks: seq<Pick>): nat {
    if picks == [] || picks[|picks| - 1].kind.Bulk? then 0 else Burst(picks[..|picks| - 1]) + 1
  }

  /** Bulk work taken from its queue past a waiting query comes after at least four queries in a row. */
  predicate Earned(front: seq<Pick>, p: Pick) {
    p.kind.Bulk? && !p.deferred && p.otherWaits ==> Burst(front) >= 4
  }

  ghost predicate AlwaysFair(picks: seq<Pick>) {
    picks == []
    || (Streak(picks) <= 4 && Earned(picks[..|picks| - 1], picks[|picks| - 1]) && AlwaysFair(picks[..|picks| - 1]))
  }

  /** What polling knows: queues only grow meanwhile, and an attempt is made only after those before it failed. */
  ghost predicate PollOk<V>(x: Executor<V>) {
    match x.phase
    case Polling(attempt, queryWaits, bulkWaits) =>
      && (queryWaits ==> x.query != []) && (bulkWaits ==> x.bulk != [])
      && (attempt.BulkFirst? ==> x.burst >= 4) && (attempt.QueryNext? && bulkWaits ==> x.burst < 4)
      && (attempt.BulkLast? ==> !queryWaits)
      && (Streak(x.picks) > 0 ==> bulkWaits)
    case _ => true
  }

  ghost predicate FairSoFar<V>(x: Executor<V>) {
    && AlwaysFair(x.picks) && Streak(x.picks) <= x.burst == Burst(x.picks)
    && (Streak(x.picks) > 0 ==> x.bulk != [] && !x.phase.Waiting? && !(x.phase.Collecting? && x.phase.kind.Bulk?))
    && PollOk(x)
  }

  ghost predicate Orders<V>(x: Executor<V>) {
    InOrder(x, Query) && InOrder(x, Bulk)
  }

  ghost predicate BatchesOk(batches: seq<Batch>, limits: Limits) {
    forall b | b in batches :: BatchOk(b.requests, limits)
  }

  ghost predicate Inv<V>(x: Executor<V>, limits: Limits, model: string -> V) {
    && Orders(x) && PhaseOk(x, limits) && BatchesOk(x.served, limits)
    && Answered(AllServed(x.served), AllOutcomes(x.served), x.replies, model)
    && FairSoFar(x)
  }

  // ---- proofs -------------------------------------------------------------------------------------

  lemma SingleBatch(r: Request, limits: Limits)
    ensures BatchOk([r], limits) && Items([r]) == |r.values| && Widest([r]) == MaxItem(r.values)
  {
    assert [r][..0] == [];
  }

  lemma GrownBatch(batch: seq<Request>, r: Request)
    ensures Items(batch + [r]) == Items(batch) + |r.values|
    ensures Widest(batch + [r]) == Max(Widest(batch), MaxItem(r.values))
  {
    assert (batch + [r])[..|batch|] == batch;
  }

  lemma Picked(picks: seq<Pick>, p: Pick)
    ensures Streak(picks + [p])
            == if p.kind.Query? && p.otherWaits then Streak(picks) + (if p.deferred then 0 else 1) else 0
    ensures Burst(picks + [p]) == if p.kind.Bulk? then 0 else Burst(picks) + 1
    ensures AlwaysFair(picks + [p]) <==> AlwaysFair(picks) && Earned(picks, p) && Streak(picks + [p]) <= 4
  {
    assert (picks + [p])[..|picks|] == picks;
  }

  /** The loop has no batch in hand. */
  predicate Idle<V>(x: Executor<V>) {
    x.phase.Selecting? || x.phase.Polling? || x.phase.Waiting?
  }

  lemma BeginFromOrder<V>(x: Executor<V>, c: Class, otherWaits: bool, d: Class)
    requires InOrder(x, d) && Idle(x) && x.held.None? && Queue(x, c) != []
    ensures InOrder(BeginFrom(x, c, otherWaits), d)
  {
    if c == d { Pull(Served(x.served, c), Queue(x, c)); }
  }

  lemma Pull(a: seq<Request>, q: seq<Request>)
    requires q != []
    ensures a + [] + [] + q == a + [q[0]] + [] + q[1..]
  {
  }

  lemma BeginFromFair<V>(x: Executor<V>, c: Class, otherWaits: bool)
    requires FairSoFar(x) && Queue(x, c) != []
    requires c.Query? && otherWaits ==> x.bulk != [] && Streak(x.picks) < 4
    requires c.Bulk? && otherWaits ==> x.burst >= 4
    ensures FairSoFar(BeginFrom(x, c, otherWaits))
  {
    Picked(x.picks, Pick(c, false, otherWaits));
  }

  lemma BeginFromInv<V>(x: Executor<V>, c: Class, otherWaits: bool, limits: Limits, model: string -> V)
    requires Inv(x, limits, model) && Idle(x) && x.held.None? && Queue(x, c) != []
    requires c.Query? && otherWaits ==> x.bulk != [] && Streak(x.picks) < 4
    requires c.Bulk? && otherWaits ==> x.burst >= 4
    ensures Inv(BeginFrom(x, c, otherWaits), limits, model)
  {
    SingleBatch(Queue(x, c)[0], limits);
    BeginFromOrder(x, c, otherWaits, Query);
    BeginFromOrder(x, c, otherWaits, Bulk);
    BeginFromFair(x, c, otherWaits);
  }

  lemma ResumeOrder<V>(x: Executor<V>, d: Class)
    requires InOrder(x, d) && Idle(x) && x.held.Some?
    ensures InOrder(Resume(x), d)
  {
    var (c, r) := x.held.value;
    if c == d { TakeUp(Served(x.served, d), r, Queue(x, d)); }
  }

  lemma TakeUp(a: seq<Request>, r: Request, q: seq<Request>)
    ensures a + [] + [r] + q == a + [r] + [] + q
  {
  }

  lemma ResumeInv<V>(x: Executor<V>, limits: Limits, model: string -> V)
    requires Inv(x, limits, model) && x.phase.Selecting? && x.held.Some?
    ensures Inv(Resume(x), limits, model)
  {
    var (c, r) := x.held.value;
    SingleBatch(r, limits);
    Picked(x.picks, Pick(c, true, Queue(x, Other(c)) != []));
    ResumeOrder(x, Query);
    ResumeOrder(x, Bulk);
  }

  /** A change of phase, with no batch in hand before and after. */
  lemma PhaseInv<V>(x: Executor<V>, phase: Phase, limits: Limits, model: string -> V)
    requires Inv(x, limits, model) && Idle(x) && x.held.None? && (phase.Polling? || phase.Waiting?)
    requires FairSoFar(x.(phase := phase))
    ensures Inv(x.(phase := phase), limits, model)
  {
    var y := x.(phase := phase);
    assert InOrder(x, Query) && InOrder(x, Bulk);
    assert InOrder(y, Query) && InOrder(y, Bulk);
  }

  lemma SelectInv<V>(x: Executor<V>, limits: Limits, model: string -> V)
    requires Inv(x, limits, model) && x.phase.Selecting?
    ensures Inv(SelectStep(x), limits, model)
  {
    if x.held.Some? { ResumeInv(x, limits, model); } else { PhaseInv(x, SelectStep(x).phase, limits, model); }
  }

  lemma PollInv<V>(x: Executor<V>, limits: Limits, model: string -> V)
    requires Inv(x, limits, model) && x.phase.Polling?
    ensures Inv(PollStep(x), limits, model)
  {
    var Polling(attempt, queryWaits, bulkWaits) := x.phase;
    if !attempt.QueryNext? && x.bulk != [] {
      BeginFromInv(x, Bulk, queryWaits, limits, model);
    } else if attempt.QueryNext? && x.query != [] {
      BeginFromInv(x, Query, bulkWaits, limits, model);
    } else {
      PhaseInv(x, PollStep(x).phase, limits, model);
    }
  }

  lemma WakeInv<V>(x: Executor<V>, limits: Limits, model: string -> V)
    requires Inv(x, limits, model) && x.phase.Waiting?
    ensures Inv(WakeStep(x), limits, model)
  {
    if x.query != [] {
      BeginFromInv(x, Query, x.bulk != [], limits, model);
    } else {
      PhaseInv(x, WakeStep(x).phase, limits, model);
    }
  }

  lemma MoveToBatch(a: seq<Request>, b: seq<Request>, q: seq<Request>)
    requires q != []
    ensures a + b + [] + q == a + (b + [q[0]]) + [] + q[1..]
    ensures a + b + [] + q == a + b + [q[0]] + q[1..]
  {
  }

  /** Moving the first queued request of a class to its batch, or to the deferred slot. */
  lemma CollectMoves<V>(x: Executor<V>, d: Class)
    requires InOrder(x, d) && x.phase.Collecting? && x.held.None? && Queue(x, x.phase.kind) != []
    ensures var c, next := x.phase.kind, Queue(x, x.phase.kind)[0];
            && (forall n: nat, longest: nat ::
                  InOrder(Pop(x, c).(phase := Collecting(c, x.phase.batch + [next], n, longest)), d))
            && InOrder(Pop(x, c).(held := Some((c, next)), phase := Ready(c, x.phase.batch)), d)
  {
    if x.phase.kind == d { MoveToBatch(Served(x.served, d), x.phase.batch, Queue(x, d)); }
  }

  lemma CollectOrder<V>(x: Executor<V>, limits: Limits, d: Class)
    requires InOrder(x, d) && x.phase.Collecting? && x.held.None?
    ensures InOrder(CollectStep(x, limits), d)
  {
    if Queue(x, x.phase.kind) != [] { CollectMoves(x, d); }
  }

  lemma CollectInv<V>(x: Executor<V>, limits: Limits, model: string -> V)
    requires Inv(x, limits, model) && x.phase.Collecting?
    ensures Inv(CollectStep(x, limits), limits, model)
  {
    CollectOrder(x, limits, Query);
    CollectOrder(x, limits, Bulk);
    CollectPhase(x, limits);
    CollectKeepsRest(x, limits);
  }

  lemma CollectPhase<V>(x: Executor<V>, limits: Limits)
    requires x.phase.Collecting? && PhaseOk(x, limits)
    ensures PhaseOk(CollectStep(x, limits), limits)
  {
    var c, batch := x.phase.kind, x.phase.batch;
    if Queue(x, c) != [] { GrownBatch(batch, Queue(x, c)[0]); }
  }

  lemma CollectKeepsRest<V>(x: Executor<V>, limits: Limits)
    requires x.phase.Collecting? && FairSoFar(x)
    ensures FairSoFar(CollectStep(x, limits))
  {
  }

  /** A batch is closed only when it is full, its queue is empty, or the next request would break a limit; that request
      is then deferred, and any other is taken along. */
  lemma CollectIsGreedy<V>(x: Executor<V>, limits: Limits)
    requires x.phase.Collecting? && PhaseOk(x, limits)
    ensures var c, batch, y := x.phase.kind, x.phase.batch, CollectStep(x, limits);
            if Items(batch) >= limits.maxItems || Queue(x, c) == [] then y == x.(phase := Ready(c, batch))
            else
              var longer := batch + [Queue(x, c)[0]];
              if BatchOk(longer, limits) then y.phase.Collecting? && y.phase.batch == longer && y.held.None?
              else y.phase == Ready(c, batch) && y.held == Some((c, Queue(x, c)[0]))
  {
    var c, batch := x.phase.kind, x.phase.batch;
    if Queue(x, c) != [] { GrownBatch(batch, Queue(x, c)[0]); }
  }

  /** Draining the batch's results request by request gives each request its own. */
  lemma {:induction false} Distributed<V>(requests: seq<Request>, model: string -> V)
    ensures var replies := Distribute(requests, EmbedAll(model, Values(requests)));
            && |replies| == |requests|
            && forall i | 0 <= i < |requests| ::
                 replies[i] == (requests[i], Replied(EmbedAll(model, requests[i].values)))
  {
    if requests != [] {
      var n, rest := |requests[0].values|, requests[1..];
      var results := EmbedAll(model, Values(requests));
      assert results[..n] == EmbedAll(model, requests[0].values);
      assert results[n..] == EmbedAll(model, Values(rest));
      Distributed(rest, model);
    }
  }

  lemma DispatchOrder<V>(x: Executor<V>, model: string -> V, succeeds: bool, d: Class)
    requires InOrder(x, d) && x.phase.Ready? && (x.held.Some? ==> x.held.value.0 == x.phase.kind)
    ensures InOrder(DispatchStep(x, model, succeeds), d)
  {
    var c, batch := x.phase.kind, x.phase.batch;
    ServedPush(x.served, Batch(c, batch, succeeds), d);
    Shift(Served(x.served, d), InHand(x.phase, d), Held(x.held, d), Queue(x, d));
  }

  lemma ServedPush(batches: seq<Batch>, b: Batch, c: Class)
    ensures Served(batches + [b], c) == Served(batches, c) + if b.kind == c then b.requests else []
  {
    assert (batches + [b])[..|batches|] == batches;
  }

  lemma Shift(a: seq<Request>, b: seq<Request>, h: seq<Request>, q: seq<Request>)
    ensures a + b + h + q == (a + b) + [] + h + q
  {
  }

  lemma DispatchAnswers<V>(x: Executor<V>, model: string -> V, succeeds: bool)
    requires Answered(AllServed(x.served), AllOutcomes(x.served), x.replies, model) && x.phase.Ready?
    ensures var y := DispatchStep(x, model, succeeds);
            Answered(AllServed(y.served), AllOutcomes(y.served), y.replies, model)
  {
    var y := DispatchStep(x, model, succeeds);
    Distributed(x.phase.batch, model);
    assert y.served[..|x.served|] == x.served;
  }

  lemma DispatchFair<V>(x: Executor<V>, model: string -> V, succeeds: bool)
    requires FairSoFar(x) && x.phase.Ready?
    ensures FairSoFar(DispatchStep(x, model, succeeds))
  {
  }

  lemma DispatchBatches<V>(x: Executor<V>, limits: Limits, model: string -> V, succeeds: bool)
    requires PhaseOk(x, limits) && BatchesOk(x.served, limits) && x.phase.Ready?
    ensures BatchesOk(DispatchStep(x, model, succeeds).served, limits)
  {
  }

  lemma DispatchInv<V>(x: Executor<V>, limits: Limits, model: string -> V, succeeds: bool)
    requires Inv(x, limits, model) && x.phase.Ready?
    ensures Inv(DispatchStep(x, model, succeeds), limits, model)
  {
    DispatchOrder(x, model, succeeds, Query);
    DispatchOrder(x, model, succeeds, Bulk);
    DispatchBatches(x, limits, model, succeeds);
    DispatchAnswers(x, model, succeeds);
    DispatchFair(x, model, succeeds);
  }

  lemma ArriveOrder<V>(x: Executor<V>, c: Class, r: Request, d: Class)
    requires InOrder(x, d)
    ensures InOrder(ArriveStep(x, c, r), d)
  {
    var before := Served(x.served, d) + InHand(x.phase, d) + Held(x.held, d);
    if c == d { Enqueue(before, Queue(x, d), r); }
  }

  lemma Enqueue(before: seq<Request>, q: seq<Request>, r: Request)
    ensures before + q + [r] == before + (q + [r])
  {
  }

  lemma ArriveFair<V>(x: Executor<V>, c: Class, r: Request)
    requires FairSoFar(x)
    ensures FairSoFar(ArriveStep(x, c, r))
  {
  }

  lemma ArriveInv<V>(x: Executor<V>, c: Class, r: Request, limits: Limits, model: string -> V)
    requires Inv(x, limits, model)
    ensures Inv(ArriveStep(x, c, r), limits, model)
  {
    ArriveOrder(x, c, r, Query);
    ArriveOrder(x, c, r, Bulk);
    ArriveFair(x, c, r);
  }

  lemma StepInv<V>(x: Executor<V>, a: Action, limits: Limits, model: string -> V)
    requires Inv(x, limits, model)
    ensures Inv(Step(x, a, limits, model), limits, model)
  {
    match a
    case Arrive(c, r) => ArriveInv(x, c, r, limits, model);
    case Select => if x.phase.Selecting? { SelectInv(x, limits, model); }
    case Poll => if x.phase.Polling? { PollInv(x, limits, model); }
    case Wake => if x.phase.Waiting? { WakeInv(x, limits, model); }
    case Collect => if x.phase.Collecting? { CollectInv(x, limits, model); }
    case Dispatch(succeeds) => if x.phase.Ready? { DispatchInv(x, limits, model, succeeds); }
  }

  /**
   For every arrival schedule: no request is lost, duplicated or overtaken within its class; batches do not mix classes
   and keep the limits; every served request got one reply, refused exactly if its batch failed, else with its own
   texts and vectors.
   */
  lemma {:induction false} RunInv<V>(actions: seq<Action>, limits: Limits, model: string -> V)
    ensures Inv(Run(actions, limits, model), limits, model)
  {
    if actions != [] {
      RunInv(actions[..|actions| - 1], limits, model);
      StepInv(Run(actions[..|actions| - 1], limits, model), actions[|actions| - 1], limits, model);
    }
  }

  /** The dispatches of a run that found a batch ready, and whether they were to succeed. */
  function Dispatches<V>(actions: seq<Action>, limits: Limits, model: string -> V): seq<bool> {
    if actions == [] then []
    else
      var front, a := actions[..|actions| - 1], actions[|actions| - 1];
      Dispatches(front, limits, model)
      + if a.Dispatch? && Run(front, limits, model).phase.Ready? then [a.succeeds] else []
  }

  lemma StepServes<V>(x: Executor<V>, a: Action, limits: Limits, model: string -> V)
    ensures var y := Step(x, a, limits, model);
            if a.Dispatch? && x.phase.Ready?
            then y.served == x.served + [Batch(x.phase.kind, x.phase.batch, a.succeeds)] else y.served == x.served
  {
  }

  /** The k-th batch was served by the k-th dispatch, and failed exactly if that one did. */
  lemma {:induction false} BatchesAreDispatches<V>(actions: seq<Action>, limits: Limits, model: string -> V)
    ensures var served, dispatches := Run(actions, limits, model).served, Dispatches(actions, limits, model);
            && |served| == |dispatches| && forall k | 0 <= k < |served| :: served[k].succeeded == dispatches[k]
  {
    if actions != [] {
      var front, a := actions[..|actions| - 1], actions[|actions| - 1];
      BatchesAreDispatches(front, limits, model);
      StepServes(Run(front, limits, model), a, limits, model);
    }
  }

  lemma {:induction false} DispatchesSucceed<V>(actions: seq<Action>, limits: Limits, model: string -> V)
    requires forall a | a in actions && a.Dispatch? :: a.succeeds
    ensures forall s | s in Dispatches(actions, limits, model) :: s
  {
    if actions != [] {
      DispatchesSucceed(actions[..|actions| - 1], limits, model);
      assert actions[|actions| - 1] in actions;
    }
  }

  lemma {:induction false} OutcomesSucceed(batches: seq<Batch>)
    requires forall k | 0 <= k < |batches| :: batches[k].succeeded
    ensures forall i | 0 <= i < |AllOutcomes(batches)| :: AllOutcomes(batches)[i]
  {
    if batches != [] { OutcomesSucceed(batches[..|batches| - 1]); }
  }

  /** Where embedding never fails, every served request is answered with its own texts and vectors. */
  lemma NothingIsRefused<V>(actions: seq<Action>, limits: Limits, model: string -> V, i: nat)
    requires forall a | a in actions && a.Dispatch? :: a.succeeds
    ensures var x := Run(actions, limits, model);
            && |x.replies| == |AllServed(x.served)|
            && (i < |x.replies| ==>
                  x.replies[i] == (AllServed(x.served)[i], Replied(EmbedAll(model, AllServed(x.served)[i].values))))
  {
    var x := Run(actions, limits, model);
    RunInv(actions, limits, model);
    BatchesAreDispatches(actions, limits, model);
    DispatchesSucceed(actions, limits, model);
    forall k | 0 <= k < |x.served| ensures x.served[k].succeeded {
      assert Dispatches(actions, limits, model)[k] in Dispatches(actions, limits, model);
    }
    OutcomesSucceed(x.served);
  }

  /** A request that meets both limits on its own. */
  predicate Admissible(r: Request, limits: Limits) {
    |r.values| <= limits.maxItems && |r.values| * MaxItem(r.values) <= limits.maxPadded
  }

  lemma {:induction false} MaxItemIsLongest(values: seq<Prepared>)
    requires values != []
    ensures MaxItem(values) <= Longest(Tokens(values))
  {
    var front := values[..|values| - 1];
    assert Tokens(values)[..|values| - 1] == Tokens(front);
    if |values| > 1 { MaxItemIsLongest(front); }
  }

  /** What microbatching submits is admissible: a batch within the limits, or a single item within the token limit. */
  lemma MicrobatchesAreAdmissible(values: seq<Prepared>, limits: Limits)
    requires values != [] && limits.maxItems >= 1 && Acceptable(Tokens(values), limits.maxItems, limits.maxPadded)
    requires forall v | v in values :: v.tokens <= limits.maxPadded
    ensures Admissible(Request(values), limits)
  {
    if |values| > 1 {
      MaxItemIsLongest(values);
      ProductGrows(|values|, MaxItem(values), |values|, Longest(Tokens(values)));
    } else {
      assert values[0] in values;
    }
  }

  /** When every request is admissible on its own, every batch keeps both limits. */
  lemma AdmissibleBatches<V>(x: Executor<V>, limits: Limits, model: string -> V, b: Batch)
    requires Inv(x, limits, model) && b in x.served && forall r | r in b.requests :: Admissible(r, limits)
    ensures Items(b.requests) <= limits.maxItems && Items(b.requests) * Widest(b.requests) <= limits.maxPadded
  {
    if |b.requests| == 1 {
      SingleBatch(b.requests[0], limits);
      assert b.requests == [b.requests[0]] && b.requests[0] in b.requests;
    }
  }

  /** The longest item of a request is one of its items, and none is longer. */
  lemma {:induction false} MaxItemIs(values: seq<Prepared>)
    ensures values == [] ==> MaxItem(values) == 1
    ensures values != [] ==> exists v :: v in values && v.tokens == MaxItem(values)
    ensures forall v | v in values :: v.tokens <= MaxItem(values)
  {
    if |values| > 1 {
      var front, last := values[..|values| - 1], values[|values| - 1];
      MaxItemIs(front);
      assert values == front + [last];
      var v :| v in front && v.tokens == MaxItem(front);
      assert v in values && last in values;
    } else if |values| == 1 {
      assert values[0] in values;
    }
  }

  lemma {:induction false} ValuesPush(requests: seq<Request>, r: Request)
    ensures Values(requests + [r]) == Values(requests) + r.values
  {
    if requests == [] {
      assert [] + [r] == [r] && [r][1..] == [];
    } else {
      assert (requests + [r])[1..] == requests[1..] + [r];
      ValuesPush(requests[1..], r);
    }
  }

  /** What the limits are about: the number of texts of a batch, and a length that no text of it exceeds. */
  lemma {:induction false} BatchMeasures(requests: seq<Request>)
    ensures Items(requests) == |Values(requests)|
    ensures forall v | v in Values(requests) :: v.tokens <= Widest(requests)
    ensures requests != [] ==> exists r :: r in requests && Widest(requests) <= MaxItem(r.values)
  {
    if requests != [] {
      var front, last := requests[..|requests| - 1], requests[|requests| - 1];
      BatchMeasures(front);
      ValuesPush(front, last);
      assert requests == front + [last];
      MaxItemIs(last.values);
      if Widest(front) <= MaxItem(last.values) {
        assert last in requests && Widest(requests) <= MaxItem(last.values);
      } else {
        var r :| r in front && Widest(front) <= MaxItem(r.values);
        assert r in requests && Widest(requests) <= MaxItem(r.values);
      }
    }
  }

  /** Padded to its longest text, a batch of admissible requests is within both limits. */
  lemma PaddedBatches<V>(x: Executor<V>, limits: Limits, model: string -> V, b: Batch, v: Prepared)
    requires Inv(x, limits, model) && b in x.served && forall r | r in b.requests :: Admissible(r, limits)
    requires v in Values(b.requests)
    ensures |Values(b.requests)| <= limits.maxItems && |Values(b.requests)| * v.tokens <= limits.maxPadded
  {
    AdmissibleBatches(x, limits, model, b);
    BatchMeasures(b.requests);
    ProductGrows(|Values(b.requests)|, v.tokens, |Values(b.requests)|, Widest(b.requests));
  }

  // ---- fairness over windows ----------------------------------------------------------------------

  /** Selections straight from the queue, over a stretch of selections. */
  function Direct(picks: seq<Pick>): nat {
    if picks == [] then 0
    else Direct(picks[..|picks| - 1]) + if picks[|picks| - 1].deferred then 0 else 1
  }

  lemma {:induction false} StreakCoversWindow(picks: seq<Pick>, i: nat)
    requires i <= |picks| && forall k | i <= k < |picks| :: picks[k].kind.Query? && picks[k].otherWaits
    ensures Direct(picks[i..]) <= Streak(picks)
  {
    if i < |picks| {
      var front := picks[..|picks| - 1];
      StreakCoversWindow(front, i);
      assert picks[i..][..|picks| - 1 - i] == front[i..];
    }
  }

  lemma {:induction false} FairAt(picks: seq<Pick>, j: nat)
    requires AlwaysFair(picks) && j <= |picks|
    ensures AlwaysFair(picks[..j]) && Streak(picks[..j]) <= 4
  {
    if j < |picks| {
      FairAt(picks[..|picks| - 1], j);
      assert picks[..|picks| - 1][..j] == picks[..j];
    } else {
      assert picks[..j] == picks;
    }
  }

  /**
   While bulk work waits, at most four queries in a row are taken from the query queue, in any run; so at most four
   query batches in a row when no query is deferred, and otherwise at most four more than were deferred.
   */
  lemma QueriesYieldToBulk<V>(actions: seq<Action>, limits: Limits, model: string -> V, i: nat, j: nat)
    requires i <= j <= |Run(actions, limits, model).picks|
    requires forall k | i <= k < j ::
               Run(actions, limits, model).picks[k].kind.Query? && Run(actions, limits, model).picks[k].otherWaits
    ensures Direct(Run(actions, limits, model).picks[i..j]) <= 4
  {
    var picks := Run(actions, limits, model).picks;
    RunInv(actions, limits, model);
    FairAt(picks, j);
    StreakCoversWindow(picks[..j], i);
    assert picks[..j][i..] == picks[i..j];
  }

  lemma {:induction false} BurstIsQueries(picks: seq<Pick>, n: nat)
    requires n <= Burst(picks)
    ensures n <= |picks| && forall k | |picks| - n <= k < |picks| :: picks[k].kind.Query?
  {
    if n > 0 {
      BurstIsQueries(picks[..|picks| - 1], n - 1);
      assert forall k | |picks| - n <= k < |picks| - 1 :: picks[..|picks| - 1][k] == picks[k];
    }
  }

  lemma {:induction false} EarnedAt(picks: seq<Pick>, j: nat)
    requires AlwaysFair(picks) && j < |picks|
    ensures Earned(picks[..j], picks[j])
  {
    if j < |picks| - 1 {
      EarnedAt(picks[..|picks| - 1], j);
      assert picks[..|picks| - 1][..j] == picks[..j];
    }
  }

  /** Bulk work passes a waiting query, other than from the deferred slot, only right after four query batches. */
  lemma BulkYieldsToQueries<V>(actions: seq<Action>, limits: Limits, model: string -> V, j: nat)
    requires j < |Run(actions, limits, model).picks|
    requires var p := Run(actions, limits, model).picks[j]; p.kind.Bulk? && !p.deferred && p.otherWaits
    ensures j >= 4 && forall k | j - 4 <= k < j :: Run(actions, limits, model).picks[k].kind.Query?
  {
    var picks := Run(actions, limits, model).picks;
    RunInv(actions, limits, model);
    EarnedAt(picks, j);
    BurstIsQueries(picks[..j], 4);
    assert forall k | j - 4 <= k < j :: picks[..j][k] == picks[k];
  }

  // ---- the reply loop -----------------------------------------------------------------------------

  /** The loop that drains values and vectors request by request. */
  method SendReplies<V>(requests: seq<Request>, texts: seq<string>, vectors: seq<V>)
    returns (replies: seq<(Request, Reply<V>)>)
    requires |texts| == |vectors| == |Values(requests)|
    ensures replies == Distribute(requests, seq(|texts|, i requires 0 <= i < |texts| => Embedded(texts[i], vectors[i])))
  {
    replies := [];
    var values, rest := texts, vectors;
    ghost var all := seq(|texts|, i requires 0 <= i < |texts| => Embedded(texts[i], vectors[i]));
    for k := 0 to |requests|
      invariant |values| == |rest| == |Values(requests[k..])|
      invariant replies + Distribute(requests[k..], seq(|values|, i requires 0 <= i < |values| =>
                  Embedded(values[i], rest[i])))
                == Distribute(requests, all)
    {
      assert requests[k..][1..] == requests[k + 1..];
      var n := |requests[k].values|;
      var share := seq(n, i requires 0 <= i < n => Embedded(values[i], rest[i]));
      ghost var left := seq(|values|, i requires 0 <= i < |values| => Embedded(values[i], rest[i]));
      assert left[..n] == share;
      values, rest := values[n..], rest[n..];
      assert left[n..] == seq(|values|, i requires 0 <= i < |values| => Embedded(values[i], rest[i]));
      replies := replies + [(requests[k], Replied(share))];
    }
  }
}
