/** When the deferred slot lets one class of requests keep the other waiting without end, and how long it waits
    otherwise. */
module SchedulerStarvation {
  import opened Options
  import opened Microbatch
  import opened Scheduler

  // ---- the question -------------------------------------------------------------------------------

  /** The limits the configuration accepts. */
  predicate Configured(limits: Limits) {
    1 <= limits.maxItems <= 128 && 512 <= limits.maxPadded <= 32768
  }

  const MAX_TOKENS: nat := 512

  /** What a caller submits: an admissible request of cut items; a single one, as the server's queries are, if
      demanded. */
  predicate Proper(r: Request, limits: Limits, single: bool) {
    && r.values != [] && Admissible(r, limits) && (forall v | v in r.values :: v.tokens <= MAX_TOKENS)
    && (single ==> |r.values| == 1)
  }

  /** A schedule of proper requests, those of class c single ones if demanded. */
  ghost predicate ProperActions(actions: seq<Action>, limits: Limits, c: Class, single: bool) {
    forall a | a in actions && a.Arrive? :: Proper(a.request, limits, single && a.kind == c)
  }

  /** The last selections in a row that chose class c past a waiting request of the other class. */
  function Row(picks: seq<Pick>, c: Class): nat {
    if picks == [] then 0
    else
      var p := picks[|picks| - 1];
      if p.kind == c && p.otherWaits then Row(picks[..|picks| - 1], c) + 1 else 0
  }

  ghost predicate Reaches<V>(limits: Limits, c: Class, single: bool, model: string -> V, n: nat) {
    exists actions :: ProperActions(actions, limits, c, single) && Row(Run(actions, limits, model).picks, c) >= n
  }

  /** Class c can be chosen any number of times in a row while the other class waits. */
  ghost predicate Starves<V>(limits: Limits, c: Class, single: bool, model: string -> V) {
    forall n: nat :: Reaches(limits, c, single, model, n)
  }

  /** The limits under which a request can be deferred that again leaves room in its own batch. */
  predicate Starvable(limits: Limits, single: bool) {
    if single then limits.maxItems * MAX_TOKENS > limits.maxPadded
    else limits.maxItems >= 3 || (limits.maxItems == 2 && limits.maxPadded < 2 * MAX_TOKENS)
  }

  // ---- the deferral chain -------------------------------------------------------------------------

  /** w requests like r leave room in a batch for items, and yet one more does not fit. */
  predicate Chains(r: Request, w: nat, limits: Limits) {
    var n, t := |r.values|, MaxItem(r.values);
    && w >= 1 && w * n < limits.maxItems && w * n * t <= limits.maxPadded
    && ((w + 1) * n > limits.maxItems || (w + 1) * n * t > limits.maxPadded)
  }

  function Repeated<T>(x: T, k: nat): seq<T> {
    if k == 0 then [] else Repeated(x, k - 1) + [x]
  }

  /** While a batch is being collected, w more requests arrive; the last of them is deferred. */
  function Fill(c: Class, r: Request, w: nat): seq<Action> {
    Repeated(Arrive(c, r), w) + Repeated(Collect, w) + [Dispatch(true)]
  }

  function Chain(c: Class, r: Request, w: nat, rounds: nat): seq<Action> {
    if rounds == 0 then [Arrive(c, r), Select, Poll, Poll, Arrive(Other(c), r)] + Fill(c, r, w)
    else Chain(c, r, w, rounds - 1) + ([Select] + Fill(c, r, w))
  }

  /** A batch of class c was begun with r, and the other class waits. */
  ghost predicate Began<V>(x: Executor<V>, c: Class, r: Request, rounds: nat) {
    && x.phase == Collecting(c, [r], |r.values|, MaxItem(r.values))
    && x.held.None? && Queue(x, c) == [] && Queue(x, Other(c)) != [] && Row(x.picks, c) >= rounds
  }

  /** The next request like r is deferred, and the other class waits. */
  ghost predicate Chained<V>(x: Executor<V>, c: Class, r: Request, rounds: nat) {
    && x.phase.Selecting? && x.held == Some((c, r))
    && Queue(x, c) == [] && Queue(x, Other(c)) != [] && Row(x.picks, c) >= rounds
  }

  lemma {:induction false} RunConcat<V>(x: Executor<V>, a: seq<Action>, b: seq<Action>, limits: Limits,
                                        model: string -> V)
    ensures RunFrom(x, a + b, limits, model) == RunFrom(RunFrom(x, a, limits, model), b, limits, model)
  {
    if b == [] {
      assert a + b == a;
    } else {
      assert (a + b)[..|a + b| - 1] == a + b[..|b| - 1];
      RunConcat(x, a, b[..|b| - 1], limits, model);
    }
  }

  lemma RunOne<V>(x: Executor<V>, a: Action, limits: Limits, model: string -> V)
    ensures RunFrom(x, [a], limits, model) == Step(x, a, limits, model)
  {
    assert [a][..0] == [];
  }

  lemma RunPush<V>(x: Executor<V>, actions: seq<Action>, a: Action, limits: Limits, model: string -> V)
    ensures RunFrom(x, actions + [a], limits, model) == Step(RunFrom(x, actions, limits, model), a, limits, model)
  {
    RunConcat(x, actions, [a], limits, model);
    RunOne(RunFrom(x, actions, limits, model), a, limits, model);
  }

  lemma AppendAssociative<T>(a: seq<T>, b: seq<T>, x: T)
    ensures a + b + [x] == a + (b + [x])
  {
  }

  /** k arrivals only lengthen their queue. */
  lemma {:induction false} RunArrivals<V>(x: Executor<V>, c: Class, r: Request, k: nat, limits: Limits,
                                          model: string -> V)
    ensures var y := RunFrom(x, Repeated(Arrive(c, r), k), limits, model);
            && Queue(y, c) == Queue(x, c) + Repeated(r, k) && Queue(y, Other(c)) == Queue(x, Other(c))
            && y.phase == x.phase && y.held == x.held && y.picks == x.picks
  {
    if k > 0 {
      RunArrivals(x, c, r, k - 1, limits, model);
      RunPush(x, Repeated(Arrive(c, r), k - 1), Arrive(c, r), limits, model);
      AppendAssociative(Queue(x, c), Repeated(r, k - 1), r);
    }
  }

  lemma {:induction false} RepeatedFront<T>(x: T, k: nat)
    requires k > 0
    ensures Repeated(x, k) != [] && Repeated(x, k)[0] == x && Repeated(x, k)[1..] == Repeated(x, k - 1)
  {
    if k > 1 { RepeatedFront(x, k - 1); }
  }

  /** k times n, by counting. */
  function Total(k: nat, n: nat): nat {
    if k == 0 then 0 else Total(k - 1, n) + n
  }

  lemma {:induction false} TotalIsProduct(k: nat, n: nat)
    ensures Total(k, n) == k * n
  {
    if k > 0 { TotalIsProduct(k - 1, n); }
  }

  /** A batch of k requests like r, with the rest of w still queued. */
  ghost predicate Collected<V>(x: Executor<V>, y: Executor<V>, c: Class, r: Request, k: nat, w: nat) {
    && k <= w && y.phase.Collecting? && y.phase.kind == c
    && y.phase.items == Total(k, |r.values|) && y.phase.longest == MaxItem(r.values)
    && Queue(y, c) == Repeated(r, w - k + 1) && Queue(y, Other(c)) == Queue(x, Other(c))
    && y.held.None? && y.picks == x.picks
  }

  lemma Grows(k: nat, w: nat, n: nat, t: nat)
    requires k <= w
    ensures k * n <= w * n && k * n * t <= w * n * t
  {
    ProductGrows(k, n, w, n);
    ProductGrows(k * n, t, w * n, t);
  }

  lemma CollectOne<V>(x: Executor<V>, y: Executor<V>, c: Class, r: Request, k: nat, w: nat, limits: Limits)
    requires Chains(r, w, limits) && 1 <= k < w && Collected(x, y, c, r, k, w)
    ensures Collected(x, CollectStep(y, limits), c, r, k + 1, w)
  {
    var n, t := |r.values|, MaxItem(r.values);
    Grows(k, w, n, t);
    Grows(k + 1, w, n, t);
    RepeatedFront(r, w - k + 1);
    TotalIsProduct(k, n);
    assert k * n + n == (k + 1) * n;
  }

  lemma CollectNext<V>(x: Executor<V>, y: Executor<V>, c: Class, r: Request, k: nat, w: nat, limits: Limits,
                       model: string -> V)
    requires Chains(r, w, limits) && 1 <= k < w && Collected(x, y, c, r, k, w)
    ensures Collected(x, Step(y, Collect, limits, model), c, r, k + 1, w)
  {
    CollectOne(x, y, c, r, k, w, limits);
  }

  lemma {:induction false} CollectMany<V>(x: Executor<V>, c: Class, r: Request, k: nat, w: nat, limits: Limits,
                                          model: string -> V)
    requires 1 <= k <= w && Collected(x, x, c, r, 1, w)
    requires forall y: Executor<V>, j: nat | 1 <= j < w && Collected(x, y, c, r, j, w) ::
               Collected(x, Step(y, Collect, limits, model), c, r, j + 1, w)
    ensures Collected(x, RunFrom(x, Repeated(Collect, k - 1), limits, model), c, r, k, w)
  {
    if k > 1 {
      var before := Repeated(Action.Collect, k - 2);
      CollectMany(x, c, r, k - 1, w, limits, model);
      RunPush(x, before, Collect, limits, model);
      assert Repeated(Action.Collect, k - 1) == before + [Collect];
    }
  }

  /** The last request of the round does not fit and is deferred. */
  lemma CollectLast<V>(x: Executor<V>, y: Executor<V>, c: Class, r: Request, w: nat, limits: Limits)
    requires Chains(r, w, limits) && Collected(x, y, c, r, w, w)
    ensures var z := CollectStep(y, limits);
            && z.phase.Ready? && z.held == Some((c, r)) && Queue(z, c) == [] && Queue(z, Other(c)) == Queue(x, Other(c))
            && z.picks == x.picks
  {
    RepeatedFront(r, 1);
    TotalIsProduct(w, |r.values|);
    assert w * |r.values| + |r.values| == (w + 1) * |r.values|;
  }

  lemma FillChains<V>(x: Executor<V>, c: Class, r: Request, w: nat, rounds: nat, limits: Limits, model: string -> V)
    requires Chains(r, w, limits) && Began(x, c, r, rounds)
    ensures Chained(RunFrom(x, Fill(c, r, w), limits, model), c, r, rounds)
  {
    var arrivals, collects := Repeated(Arrive(c, r), w), Repeated(Collect, w);
    RunPush(x, arrivals + collects, Dispatch(true), limits, model);
    RunConcat(x, arrivals, collects, limits, model);
    RunArrivals(x, c, r, w, limits, model);
    var y := RunFrom(x, arrivals, limits, model);
    assert Queue(y, c) == Repeated(r, w);
    assert Total(1, |r.values|) == |r.values|;
    forall z: Executor<V>, j: nat | 1 <= j < w && Collected(y, z, c, r, j, w)
      ensures Collected(y, Step(z, Collect, limits, model), c, r, j + 1, w)
    {
      CollectNext(y, z, c, r, j, w, limits, model);
    }
    CollectMany(y, c, r, w, w, limits, model);
    RunPush(y, Repeated(Collect, w - 1), Collect, limits, model);
    CollectLast(y, RunFrom(y, Repeated(Collect, w - 1), limits, model), c, r, w, limits);
  }

  lemma SelectBegins<V>(x: Executor<V>, c: Class, r: Request, rounds: nat)
    requires Chained(x, c, r, rounds)
    ensures Began(SelectStep(x), c, r, rounds + 1)
  {
    assert (x.picks + [Pick(c, true, true)])[..|x.picks|] == x.picks;
  }

  /** Two attempts find the only request, whichever its class; a query is found by the first. */
  lemma ChainStart<V>(c: Class, r: Request, limits: Limits, model: string -> V)
    ensures Began(Run([Arrive(c, r), Select, Poll, Poll, Arrive(Other(c), r)], limits, model), c, r, 0)
  {
    var a := [Arrive(c, r), Select, Poll, Poll, Arrive(Other(c), r)];
    assert a[..1] == [Arrive(c, r)] && a[..2] == a[..1] + [Select] && a[..3] == a[..2] + [Poll];
    assert a[..4] == a[..3] + [Poll] && a == a[..4] + [Arrive(Other(c), r)];
    RunOne(Start(), Arrive(c, r), limits, model);
    RunPush(Start(), a[..1], Select, limits, model);
    RunPush(Start(), a[..2], Poll, limits, model);
    RunPush(Start(), a[..3], Poll, limits, model);
    RunPush(Start(), a[..4], Arrive(Other(c), r), limits, model);
    var polling := Run(a[..2], limits, model);
    assert polling.phase == Polling(QueryNext, c.Query?, c.Bulk?) && Queue(polling, c) == [r];
    assert polling.held.None? && Queue(polling, Other(c)) == [];
    FoundByPolling(polling, c, r);
  }

  lemma FoundByPolling<V>(x: Executor<V>, c: Class, r: Request)
    requires x.phase == Polling(QueryNext, c.Query?, c.Bulk?)
    requires Queue(x, c) == [r] && Queue(x, Other(c)) == [] && x.held.None?
    ensures var y := PollStep(x);
            var z := if c.Query? then y else if y.phase.Polling? then PollStep(y) else y;
            && (c.Query? || y.phase.Polling?)
            && z.phase == Collecting(c, [r], |r.values|, MaxItem(r.values))
            && z.held.None? && Queue(z, c) == [] && Queue(z, Other(c)) == []
  {
  }

  /** Every round of the chain selects class c once more, and defers the next request. */
  lemma {:induction false} DeferralStarves<V>(c: Class, r: Request, w: nat, rounds: nat, limits: Limits,
                                              model: string -> V)
    requires Chains(r, w, limits)
    ensures Chained(Run(Chain(c, r, w, rounds), limits, model), c, r, rounds)
  {
    if rounds == 0 {
      var first := [Arrive(c, r), Select, Poll, Poll, Arrive(Other(c), r)];
      ChainStart(c, r, limits, model);
      RunConcat(Start(), first, Fill(c, r, w), limits, model);
      FillChains(Run(first, limits, model), c, r, w, 0, limits, model);
    } else {
      var before := Chain(c, r, w, rounds - 1);
      DeferralStarves(c, r, w, rounds - 1, limits, model);
      var x := Run(before, limits, model);
      RunConcat(Start(), before, [Select] + Fill(c, r, w), limits, model);
      RunConcat(x, [Select], Fill(c, r, w), limits, model);
      RunOne(x, Select, limits, model);
      SelectBegins(x, c, r, rounds - 1);
      FillChains(SelectStep(x), c, r, w, rounds, limits, model);
    }
  }

  lemma {:induction false} RepeatedIs<T>(x: T, k: nat)
    ensures |Repeated(x, k)| == k && forall y | y in Repeated(x, k) :: y == x
  {
    if k > 0 { RepeatedIs(x, k - 1); }
  }

  lemma {:induction false} ChainIsProper(c: Class, r: Request, w: nat, rounds: nat, limits: Limits, single: bool)
    requires Proper(r, limits, single)
    ensures ProperActions(Chain(c, r, w, rounds), limits, c, single)
  {
    RepeatedIs(Arrive(c, r), w);
    RepeatedIs(Action.Collect, w);
    if rounds > 0 { ChainIsProper(c, r, w, rounds - 1, limits, single); }
  }

  lemma {:induction false} MaxItemOfRepeated(v: Prepared, k: nat)
    requires k > 0
    ensures MaxItem(Repeated(v, k)) == v.tokens
  {
    if k > 1 {
      MaxItemOfRepeated(v, k - 1);
      RepeatedIs(v, k - 1);
      assert Repeated(v, k)[..k - 1] == Repeated(v, k - 1);
    }
  }

  /** A request of n items of t tokens, all short or a single long one. */
  function Uniform(n: nat, t: nat): Request {
    Request(Repeated(Prepared("", t), n))
  }

  lemma UniformChains(n: nat, t: nat, w: nat, limits: Limits, single: bool)
    requires 1 <= n <= limits.maxItems && n * t <= limits.maxPadded && t <= MAX_TOKENS && (single ==> n == 1)
    requires w >= 1 && w * n < limits.maxItems && w * n * t <= limits.maxPadded
    requires (w + 1) * n > limits.maxItems || (w + 1) * n * t > limits.maxPadded
    ensures Proper(Uniform(n, t), limits, single) && Chains(Uniform(n, t), w, limits)
  {
    RepeatedIs(Prepared("", t), n);
    MaxItemOfRepeated(Prepared("", t), n);
  }

  /** A request that chains: more than half a batch of short items, or one longest item. */
  lemma ChainingRequest(limits: Limits, single: bool) returns (r: Request, w: nat)
    requires Configured(limits) && Starvable(limits, single)
    ensures Proper(r, limits, single) && Chains(r, w, limits)
  {
    if !single && limits.maxItems >= 3 {
      var n := limits.maxItems / 2 + 1;
      UniformChains(n, 2, 1, limits, single);
      r, w := Uniform(n, 2), 1;
    } else {
      w := limits.maxPadded / MAX_TOKENS;
      UniformChains(1, MAX_TOKENS, w, limits, single);
      r := Uniform(1, MAX_TOKENS);
    }
  }

  // ---- the bound otherwise ------------------------------------------------------------------------

  /** How often in a row class c can be taken from its queue past the other class. */
  function Cap(c: Class): nat {
    if c.Query? then 4 else 1
  }

  predicate LastDeferred(picks: seq<Pick>) {
    picks != [] && picks[|picks| - 1].deferred
  }

  /** Whether the other class waited when polling began. */
  predicate OtherWaited(phase: Phase, c: Class)
    requires phase.Polling?
  {
    if c.Query? then phase.bulkWaits else phase.queryWaits
  }

  /** A deferred request fills its batch, so the selection after it is a direct one. */
  ghost predicate DeferredFull<V>(x: Executor<V>, c: Class, limits: Limits) {
    && (x.held.Some? && x.held.value.0 == c ==> |x.held.value.1.values| >= limits.maxItems && !LastDeferred(x.picks))
    && (x.phase.Collecting? && x.phase.kind == c && LastDeferred(x.picks) ==> x.phase.items >= limits.maxItems)
  }

  /** While the other class is passed over it stays queued, and the loop knows it. */
  ghost predicate RowShort<V>(x: Executor<V>, c: Class) {
    && Row(x.picks, c) <= Cap(c) + (if LastDeferred(x.picks) then 1 else 0)
    && (Row(x.picks, c) > 0 ==>
          && Queue(x, Other(c)) != [] && !x.phase.Waiting? && !(x.phase.Collecting? && x.phase.kind != c)
          && (x.phase.Polling? ==> OtherWaited(x.phase, c)))
  }

  ghost predicate Bounded<V>(x: Executor<V>, c: Class, limits: Limits) {
    DeferredFull(x, c, limits) && RowShort(x, c)
  }

  ghost predicate AllProper(requests: seq<Request>, limits: Limits, single: bool) {
    forall r | r in requests :: Proper(r, limits, single)
  }

  /** Only proper requests have arrived. */
  ghost predicate ArrivedProper<V>(x: Executor<V>, c: Class, limits: Limits, single: bool) {
    AllProper(Arrived(x, c), limits, single)
  }

  lemma {:induction false} MaxItemBound(values: seq<Prepared>)
    requires values != [] && forall v | v in values :: v.tokens <= MAX_TOKENS
    ensures MaxItem(values) <= MAX_TOKENS
  {
    if |values| > 1 { MaxItemBound(values[..|values| - 1]); }
  }

  lemma {:induction false} BatchBounds(batch: seq<Request>, limits: Limits, single: bool)
    requires AllProper(batch, limits, single)
    ensures Widest(batch) <= MAX_TOKENS && Items(batch) >= |batch|
  {
    if batch != [] {
      BatchBounds(batch[..|batch| - 1], limits, single);
      assert batch[|batch| - 1] in batch;
      MaxItemBound(batch[|batch| - 1].values);
    }
  }

  /** Under the other limits, a request of n items that does not fit has at least as many items as a batch takes. */
  lemma UnfittingIsLarge(items: nat, longest: nat, n: nat, t: nat, limits: Limits, single: bool)
    requires Configured(limits) && !Starvable(limits, single)
    requires 1 <= items < limits.maxItems && n >= 1 && (single ==> n == 1) && longest <= MAX_TOKENS && t <= MAX_TOKENS
    requires items + n > limits.maxItems || (items + n) * Max(longest, t) > limits.maxPadded
    ensures n >= limits.maxItems
  {
    if items + n <= limits.maxItems {
      ProductGrows(items + n, Max(longest, t), limits.maxItems, MAX_TOKENS);
    }
  }

  /** What a step of collecting may defer. */
  ghost predicate DefersFull<V>(x: Executor<V>, y: Executor<V>, limits: Limits)
    requires x.phase.Collecting?
  {
    y.held.Some? ==> x.phase.items < limits.maxItems && |y.held.value.1.values| >= limits.maxItems
  }

  /** The request that collecting would take next does not fit. */
  predicate Unfitting(items: nat, longest: nat, next: Request, limits: Limits) {
    || items + |next.values| > limits.maxItems
    || (items + |next.values|) * Max(longest, MaxItem(next.values)) > limits.maxPadded
  }

  lemma CollectDefers<V>(x: Executor<V>, limits: Limits)
    requires x.phase.Collecting? && x.held.None?
    ensures CollectStep(x, limits).held.Some? <==>
              x.phase.items < limits.maxItems && Queue(x, x.phase.kind) != []
              && Unfitting(x.phase.items, x.phase.longest, Queue(x, x.phase.kind)[0], limits)
    ensures CollectStep(x, limits).held.Some? ==>
              CollectStep(x, limits).held == Some((x.phase.kind, Queue(x, x.phase.kind)[0]))
  {
  }

  lemma DeferredFills<V>(x: Executor<V>, limits: Limits, single: bool)
    requires Configured(limits) && !Starvable(limits, single) && x.phase.Collecting? && x.held.None?
    requires 1 <= x.phase.items && x.phase.longest <= MAX_TOKENS && AllProper(Queue(x, x.phase.kind), limits, single)
    ensures DefersFull(x, CollectStep(x, limits), limits)
  {
    CollectDefers(x, limits);
    if CollectStep(x, limits).held.Some? {
      var next := Queue(x, x.phase.kind)[0];
      assert next in Queue(x, x.phase.kind);
      MaxItemBound(next.values);
      UnfittingIsLarge(x.phase.items, x.phase.longest, |next.values|, MaxItem(next.values), limits, single);
    }
  }

  /** The running counts of a batch of proper requests. */
  lemma HandBounds<V>(x: Executor<V>, limits: Limits, single: bool)
    requires x.phase.Collecting? && PhaseOk(x, limits) && AllProper(x.phase.batch, limits, single)
    ensures x.held.None? && 1 <= x.phase.items && x.phase.longest <= MAX_TOKENS
  {
    BatchBounds(x.phase.batch, limits, single);
  }

  lemma RowPush(picks: seq<Pick>, p: Pick, c: Class)
    ensures Row(picks + [p], c) == if p.kind == c && p.otherWaits then Row(picks, c) + 1 else 0
    ensures LastDeferred(picks + [p]) <==> p.deferred
  {
    assert (picks + [p])[..|picks|] == picks;
  }

  lemma {:induction false} RowIsBurst(picks: seq<Pick>)
    ensures Row(picks, Query) <= Burst(picks) && (Burst(picks) > 0 ==> Row(picks, Bulk) == 0)
  {
    if picks != [] { RowIsBurst(picks[..|picks| - 1]); }
  }

  /** A selection straight from a queue. */
  lemma BeginBounded<V>(x: Executor<V>, d: Class, otherWaits: bool, c: Class, limits: Limits)
    requires Bounded(x, c, limits) && Idle(x) && x.held.None? && Queue(x, d) != []
    requires d == c && otherWaits ==> Queue(x, Other(c)) != [] && Row(x.picks, c) < Cap(c)
    ensures Bounded(BeginFrom(x, d, otherWaits), c, limits)
  {
    RowPush(x.picks, Pick(d, false, otherWaits), c);
  }

  lemma ResumeBounded<V>(x: Executor<V>, c: Class, limits: Limits)
    requires Bounded(x, c, limits) && x.phase.Selecting? && x.held.Some?
    ensures Bounded(Resume(x), c, limits)
  {
    RowPush(x.picks, Pick(x.held.value.0, true, Queue(x, Other(x.held.value.0)) != []), c);
  }

  lemma SelectBounded<V>(x: Executor<V>, c: Class, limits: Limits)
    requires Bounded(x, c, limits) && x.phase.Selecting?
    ensures Bounded(SelectStep(x), c, limits)
  {
    if x.held.Some? { ResumeBounded(x, c, limits); }
  }

  lemma PollBounded<V>(x: Executor<V>, c: Class, limits: Limits)
    requires Bounded(x, c, limits) && FairSoFar(x) && x.phase.Polling? && x.held.None?
    ensures Bounded(PollStep(x), c, limits)
  {
    var Polling(attempt, queryWaits, bulkWaits) := x.phase;
    RowIsBurst(x.picks);
    if !attempt.QueryNext? && x.bulk != [] {
      BeginBounded(x, Bulk, queryWaits, c, limits);
    } else if attempt.QueryNext? && x.query != [] {
      BeginBounded(x, Query, bulkWaits, c, limits);
    }
  }

  lemma WakeBounded<V>(x: Executor<V>, c: Class, limits: Limits)
    requires Bounded(x, c, limits) && x.phase.Waiting? && x.held.None?
    ensures Bounded(WakeStep(x), c, limits)
  {
    if x.query != [] { BeginBounded(x, Query, x.bulk != [], c, limits); }
  }

  lemma ArriveBounded<V>(x: Executor<V>, d: Class, r: Request, c: Class, limits: Limits)
    requires Bounded(x, c, limits)
    ensures Bounded(ArriveStep(x, d, r), c, limits)
  {
  }

  lemma DispatchBounded<V>(x: Executor<V>, model: string -> V, succeeds: bool, c: Class, limits: Limits)
    requires Bounded(x, c, limits) && x.phase.Ready?
    ensures Bounded(DispatchStep(x, model, succeeds), c, limits)
  {
  }

  lemma ProperParts<V>(x: Executor<V>, c: Class, limits: Limits, single: bool)
    requires InOrder(x, c) && ArrivedProper(x, c, limits, single)
    ensures AllProper(InHand(x.phase, c), limits, single) && AllProper(Queue(x, c), limits, single)
  {
    var all := Arrived(x, c);
    forall r | r in InHand(x.phase, c) || r in Queue(x, c) ensures r in all { }
  }

  /** Collecting keeps the bound if only large requests are deferred. */
  lemma CollectKeepsBounded<V>(x: Executor<V>, c: Class, limits: Limits)
    requires Bounded(x, c, limits) && x.phase.Collecting? && x.held.None?
    requires x.phase.kind == c ==> DefersFull(x, CollectStep(x, limits), limits)
    ensures Bounded(CollectStep(x, limits), c, limits)
  {
    CollectDefers(x, limits);
  }

  lemma CollectBounded<V>(x: Executor<V>, c: Class, limits: Limits, single: bool)
    requires Configured(limits) && !Starvable(limits, single) && x.phase.Collecting?
    requires Bounded(x, c, limits) && PhaseOk(x, limits) && InOrder(x, c) && ArrivedProper(x, c, limits, single)
    ensures Bounded(CollectStep(x, limits), c, limits)
  {
    if x.phase.kind == c {
      ProperParts(x, c, limits, single);
      HandBounds(x, limits, single);
      DeferredFills(x, limits, single);
    }
    CollectKeepsBounded(x, c, limits);
  }

  lemma StepBounded<V>(x: Executor<V>, a: Action, c: Class, limits: Limits, single: bool, model: string -> V)
    requires Configured(limits) && !Starvable(limits, single)
    requires Inv(x, limits, model) && Bounded(x, c, limits) && ArrivedProper(x, c, limits, single)
    ensures Bounded(Step(x, a, limits, model), c, limits)
  {
    match a
    case Arrive(d, r) => ArriveBounded(x, d, r, c, limits);
    case Select => if x.phase.Selecting? { SelectBounded(x, c, limits); }
    case Poll => if x.phase.Polling? { PollBounded(x, c, limits); }
    case Wake => if x.phase.Waiting? { WakeBounded(x, c, limits); }
    case Collect => if x.phase.Collecting? { CollectBounded(x, c, limits, single); }
    case Dispatch(succeeds) => if x.phase.Ready? { DispatchBounded(x, model, succeeds, c, limits); }
  }

  lemma ArrivalsStayProper<V>(x: Executor<V>, a: Action, c: Class, limits: Limits, single: bool, model: string -> V)
    requires ArrivedProper(x, c, limits, single) && (a.Arrive? && a.kind == c ==> Proper(a.request, limits, single))
    ensures ArrivedProper(Step(x, a, limits, model), c, limits, single)
  {
    match a
    case Arrive(_, _) =>
    case _ => assert Arrived(Step(x, a, limits, model), c) == Arrived(x, c);
  }

  lemma {:induction false} RunBounded<V>(actions: seq<Action>, c: Class, limits: Limits, single: bool,
                                         model: string -> V)
    requires Configured(limits) && !Starvable(limits, single) && ProperActions(actions, limits, c, single)
    ensures Bounded(Run(actions, limits, model), c, limits)
        && ArrivedProper(Run(actions, limits, model), c, limits, single)
  {
    if actions != [] {
      var front, a := actions[..|actions| - 1], actions[|actions| - 1];
      assert a in actions && forall b | b in front :: b in actions;
      RunBounded(front, c, limits, single, model);
      RunInv(front, limits, model);
      StepBounded(Run(front, limits, model), a, c, limits, single, model);
      ArrivalsStayProper(Run(front, limits, model), a, c, limits, single, model);
    }
  }

  /** Otherwise bulk work waits for at most five query batches in a row, and a query for at most two bulk batches. */
  lemma WaitingIsBounded<V>(actions: seq<Action>, c: Class, limits: Limits, single: bool, model: string -> V)
    requires Configured(limits) && !Starvable(limits, single) && ProperActions(actions, limits, c, single)
    ensures Row(Run(actions, limits, model).picks, c) <= if c.Query? then 5 else 2
  {
    RunBounded(actions, c, limits, single, model);
  }

  /**
   For every accepted configuration: one class can keep the other waiting without end exactly if a batch takes three
   items, or two and not two longest ones; when its requests have one item each, exactly if a batch of longest items can
   reach the token limit before the item limit.
   */
  lemma StarvationIff<V>(limits: Limits, c: Class, single: bool, model: string -> V)
    requires Configured(limits)
    ensures Starves(limits, c, single, model) <==> Starvable(limits, single)
  {
    if Starvable(limits, single) {
      var r, w := ChainingRequest(limits, single);
      forall n: nat ensures Reaches(limits, c, single, model, n) {
        DeferralStarves(c, r, w, n, limits, model);
        ChainIsProper(c, r, w, n, limits, single);
        assert Row(Run(Chain(c, r, w, n), limits, model).picks, c) >= n;
      }
    } else {
      assert !Reaches(limits, c, single, model, 6) by {
        if Reaches(limits, c, single, model, 6) {
          var actions :| ProperActions(actions, limits, c, single) && Row(Run(actions, limits, model).picks, c) >= 6;
          WaitingIsBounded(actions, c, limits, single, model);
        }
      }
    }
  }
}
