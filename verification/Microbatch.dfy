/** Length-aware microbatching of embedding requests. */
module Microbatch {

  datatype Result<+T> = Ok(value: T) | TooManyTokens(maximum: nat, actual: nat)

  function Max(a: nat, b: nat): nat {
    if a < b then b else a
  }

  /** The padded length of a batch, at least one. */
  function Longest(s: seq<nat>): nat {
    if s == [] then 1 else Max(Longest(s[..|s| - 1]), s[|s| - 1])
  }

  /** A batch within both limits. */
  predicate Fits(s: seq<nat>, maxItems: nat, maxPadded: nat) {
    |s| <= maxItems && |s| * Longest(s) <= maxPadded
  }

  /** A batch within both limits, or a single item, which is never split. */
  predicate Acceptable(s: seq<nat>, maxItems: nat, maxPadded: nat) {
    |s| == 1 || Fits(s, maxItems, maxPadded)
  }

  /** The sizes cut the first `upto` lengths into non-empty acceptable batches, in order. */
  predicate Partition(lengths: seq<nat>, sizes: seq<nat>, upto: nat, maxItems: nat, maxPadded: nat)
    requires upto <= |lengths|
  {
    if sizes == [] then upto == 0
    else
      var n := sizes[|sizes| - 1];
      && 1 <= n <= upto
      && Acceptable(lengths[upto - n..upto], maxItems, maxPadded)
      && Partition(lengths, sizes[..|sizes| - 1], upto - n, maxItems, maxPadded)
  }

  /** No batch could also have taken the item that follows it. */
  predicate Maximal(lengths: seq<nat>, sizes: seq<nat>, upto: nat, maxItems: nat, maxPadded: nat)
    requires upto <= |lengths|
  {
    sizes == [] ||
    var n := sizes[|sizes| - 1];
    n <= upto && (upto < |lengths| ==> !Fits(lengths[upto - n..upto + 1], maxItems, maxPadded))
    && Maximal(lengths, sizes[..|sizes| - 1], upto - n, maxItems, maxPadded)
  }

  // ---- monotonicity -------------------------------------------------------------------------------

  lemma {:induction false} LongestBounds(s: seq<nat>, i: nat)
    requires i < |s|
    ensures s[i] <= Longest(s)
  {
    if i < |s| - 1 { LongestBounds(s[..|s| - 1], i); }
  }

  lemma {:induction false} LongestIsReached(s: seq<nat>)
    ensures Longest(s) >= 1 && (Longest(s) == 1 || exists i :: 0 <= i < |s| && s[i] == Longest(s))
  {
    if s != [] {
      var front := s[..|s| - 1];
      LongestIsReached(front);
      if Longest(s) != s[|s| - 1] && Longest(s) != 1 {
        var i :| 0 <= i < |front| && front[i] == Longest(front);
        assert s[i] == Longest(s);
      }
    }
  }

  lemma LongestOfPart(s: seq<nat>, from: nat, to: nat)
    requires from <= to <= |s|
    ensures Longest(s[from..to]) <= Longest(s)
  {
    LongestIsReached(s[from..to]);
    LongestIsReached(s);
    if Longest(s[from..to]) != 1 {
      var i :| 0 <= i < |s[from..to]| && s[from..to][i] == Longest(s[from..to]);
      LongestBounds(s, from + i);
    }
  }

  lemma ProductGrows(a: nat, b: nat, c: nat, d: nat)
    requires a <= c && b <= d
    ensures a * b <= c * d
  {
    assert a * b <= c * b by { assert (c - a) * b >= 0; }
    assert c * b <= c * d by { assert c * (d - b) >= 0; }
  }

  /** Every part of a batch within the limits is within the limits. */
  lemma PartFits(s: seq<nat>, from: nat, to: nat, maxItems: nat, maxPadded: nat)
    requires from <= to <= |s| && Fits(s, maxItems, maxPadded)
    ensures Fits(s[from..to], maxItems, maxPadded)
  {
    LongestOfPart(s, from, to);
    ProductGrows(to - from, Longest(s[from..to]), |s|, Longest(s));
  }

  lemma SegmentFits(lengths: seq<nat>, from: nat, to: nat, first: nat, last: nat, maxItems: nat, maxPadded: nat)
    requires from <= first <= last <= to <= |lengths| && Fits(lengths[from..to], maxItems, maxPadded)
    ensures Fits(lengths[first..last], maxItems, maxPadded)
  {
    PartFits(lengths[from..to], first - from, last - from, maxItems, maxPadded);
    assert lengths[from..to][first - from..last - from] == lengths[first..last];
  }

  // ---- the greedy partition is optimal ------------------------------------------------------------

  /** After equally many batches, a maximal partition has taken at least as many items as any other. */
  lemma {:induction false} StaysAhead(lengths: seq<nat>, a: seq<nat>, p: nat, b: seq<nat>, q: nat, maxItems: nat,
                                      maxPadded: nat)
    requires |a| == |b| && p <= |lengths| && q <= |lengths|
    requires Partition(lengths, a, p, maxItems, maxPadded) && Maximal(lengths, a, p, maxItems, maxPadded)
    requires Partition(lengths, b, q, maxItems, maxPadded)
    ensures q <= p
  {
    if a != [] {
      var n, m := a[|a| - 1], b[|b| - 1];
      var p0, q0 := p - n, q - m;
      StaysAhead(lengths, a[..|a| - 1], p0, b[..|b| - 1], q0, maxItems, maxPadded);
      if p < q { SegmentFits(lengths, q0, q, p0, p + 1, maxItems, maxPadded); }
    }
  }

  /** The first m batches of a partition end earlier. */
  lemma {:induction false} Prefix(lengths: seq<nat>, a: seq<nat>, p: nat, m: nat, maxItems: nat, maxPadded: nat)
    returns (end: nat)
    requires p <= |lengths| && m <= |a|
    requires Partition(lengths, a, p, maxItems, maxPadded) && Maximal(lengths, a, p, maxItems, maxPadded)
    ensures end <= p && (m < |a| ==> end < p)
    ensures Partition(lengths, a[..m], end, maxItems, maxPadded) && Maximal(lengths, a[..m], end, maxItems, maxPadded)
  {
    if m == |a| {
      end := p;
      assert a[..m] == a;
    } else {
      end := Prefix(lengths, a[..|a| - 1], p - a[|a| - 1], m, maxItems, maxPadded);
      assert a[..|a| - 1][..m] == a[..m];
    }
  }

  /** No ordered partition meeting the limits has fewer batches than a maximal one. */
  lemma MaximalIsOptimal(lengths: seq<nat>, a: seq<nat>, b: seq<nat>, maxItems: nat, maxPadded: nat)
    requires Partition(lengths, a, |lengths|, maxItems, maxPadded)
        && Maximal(lengths, a, |lengths|, maxItems, maxPadded)
    requires Partition(lengths, b, |lengths|, maxItems, maxPadded)
    ensures |a| <= |b|
  {
    if |b| < |a| {
      var end := Prefix(lengths, a, |lengths|, |b|, maxItems, maxPadded);
      StaysAhead(lengths, a[..|b|], end, b, |lengths|, maxItems, maxPadded);
    }
  }

  /** There is only one maximal partition. */
  lemma {:induction false} MaximalIsUnique(lengths: seq<nat>, a: seq<nat>, p: nat, b: seq<nat>, q: nat, maxItems: nat,
                                           maxPadded: nat)
    requires |a| == |b| && p <= |lengths| && q <= |lengths|
    requires Partition(lengths, a, p, maxItems, maxPadded) && Maximal(lengths, a, p, maxItems, maxPadded)
    requires Partition(lengths, b, q, maxItems, maxPadded) && Maximal(lengths, b, q, maxItems, maxPadded)
    ensures a == b && p == q
  {
    StaysAhead(lengths, a, p, b, q, maxItems, maxPadded);
    StaysAhead(lengths, b, q, a, p, maxItems, maxPadded);
    if a != [] {
      var n, m := a[|a| - 1], b[|b| - 1];
      MaximalIsUnique(lengths, a[..|a| - 1], p - n, b[..|b| - 1], q - m, maxItems, maxPadded);
      assert a == a[..|a| - 1] + [n] && b == b[..|b| - 1] + [m];
    }
  }

  // ---- microbatch_lengths -------------------------------------------------------------------------

  /** What the running counts say about a batch extended by one item. */
  lemma LongestPush(lengths: seq<nat>, start: nat, n: nat, maxItems: nat, maxPadded: nat)
    requires start <= n < |lengths|
    ensures Longest(lengths[start..n + 1]) == Max(Longest(lengths[start..n]), lengths[n])
    ensures Fits(lengths[start..n + 1], maxItems, maxPadded)
            <==> n - start + 1 <= maxItems && (n - start + 1) * Max(Longest(lengths[start..n]), lengths[n]) <= maxPadded
  {
    assert lengths[start..n + 1][..n - start] == lengths[start..n];
  }

  /** Pushing a finished batch. */
  lemma PushBatch(lengths: seq<nat>, sizes: seq<nat>, start: nat, n: nat, maxItems: nat, maxPadded: nat)
    requires start < n <= |lengths|
    requires Partition(lengths, sizes, start, maxItems, maxPadded)
        && Maximal(lengths, sizes, start, maxItems, maxPadded)
    requires Acceptable(lengths[start..n], maxItems, maxPadded)
    requires n < |lengths| ==> !Fits(lengths[start..n + 1], maxItems, maxPadded)
    ensures Partition(lengths, sizes + [n - start], n, maxItems, maxPadded)
    ensures Maximal(lengths, sizes + [n - start], n, maxItems, maxPadded)
  {
    assert (sizes + [n - start])[..|sizes|] == sizes;
  }

  /**
   Fails exactly if some item alone exceeds the token limit, and then names the first. Otherwise the sizes partition the
   input in order into maximal acceptable batches, so with as few batches as any.
   */
  method MicrobatchLengths(lengths: seq<nat>, maxItems: nat, maxPadded: nat) returns (result: Result<seq<nat>>)
    ensures result.Ok? <==> forall i | 0 <= i < |lengths| :: lengths[i] <= maxPadded
    ensures result.TooManyTokens? ==>
              result.maximum == maxPadded < result.actual
              && exists i :: 0 <= i < |lengths| && lengths[i] == result.actual
                             && forall k | 0 <= k < i :: lengths[k] <= maxPadded
    ensures result.Ok? ==>
              && Partition(lengths, result.value, |lengths|, maxItems, maxPadded)
              && Maximal(lengths, result.value, |lengths|, maxItems, maxPadded)
  {
    var batches: seq<nat> := [];
    var items := 0;
    var longest := 1;
    ghost var start := 0;
    for n := 0 to |lengths|
      invariant start + items == n && (n > 0 ==> items > 0)
      invariant forall k | 0 <= k < n :: lengths[k] <= maxPadded
      invariant longest == Longest(lengths[start..n])
      invariant items > 0 ==> Acceptable(lengths[start..n], maxItems, maxPadded)
      invariant Partition(lengths, batches, start, maxItems, maxPadded)
      invariant Maximal(lengths, batches, start, maxItems, maxPadded)
    {
      var tokens := lengths[n];
      if tokens > maxPadded { return TooManyTokens(maxPadded, tokens); }
      var nextItems, nextLongest := items + 1, Max(longest, tokens);
      LongestPush(lengths, start, n, maxItems, maxPadded);
      ghost var fits := Fits(lengths[start..n + 1], maxItems, maxPadded);
      assert fits <==> nextItems <= maxItems && nextItems * nextLongest <= maxPadded;
      if items > 0 && (nextItems > maxItems || nextItems * nextLongest > maxPadded) {
        PushBatch(lengths, batches, start, n, maxItems, maxPadded);
        batches := batches + [items];
        items, longest, start := 0, 1, n;
        LongestPush(lengths, start, n, maxItems, maxPadded);
      }
      assert Acceptable(lengths[start..n + 1], maxItems, maxPadded);
      items, longest := items + 1, Max(longest, tokens);
    }
    if items > 0 {
      PushBatch(lengths, batches, start, |lengths|, maxItems, maxPadded);
      batches := batches + [items];
    }
    return Ok(batches);
  }

  // ---- embed_owned --------------------------------------------------------------------------------

  /** A text cut to what the model accepts, with its token count. */
  datatype Prepared = Prepared(text: string, tokens: nat)

  datatype Embedded<V> = Embedded(text: string, vector: V)

  /** Each text with its own vector, in order. */
  function EmbedAll<V>(model: string -> V, values: seq<Prepared>): (r: seq<Embedded<V>>)
    ensures |r| == |values|
    ensures forall i | 0 <= i < |values| :: r[i] == Embedded(values[i].text, model(values[i].text))
  {
    seq(|values|, i requires 0 <= i < |values| => Embedded(values[i].text, model(values[i].text)))
  }

  function Tokens(values: seq<Prepared>): (r: seq<nat>)
    ensures |r| == |values| && forall i | 0 <= i < |values| :: r[i] == values[i].tokens
  {
    seq(|values|, i requires 0 <= i < |values| => values[i].tokens)
  }

  function Sum(sizes: seq<nat>): nat {
    if sizes == [] then 0 else Sum(sizes[..|sizes| - 1]) + sizes[|sizes| - 1]
  }

  lemma {:induction false} PartitionSum(lengths: seq<nat>, sizes: seq<nat>, upto: nat, maxItems: nat, maxPadded: nat)
    requires upto <= |lengths| && Partition(lengths, sizes, upto, maxItems, maxPadded)
    ensures Sum(sizes) == upto
  {
    if sizes != [] {
      PartitionSum(lengths, sizes[..|sizes| - 1], upto - sizes[|sizes| - 1], maxItems, maxPadded);
    }
  }

  lemma {:induction false} SumOfPrefix(sizes: seq<nat>, k: nat)
    requires k <= |sizes|
    ensures Sum(sizes[..k]) <= Sum(sizes)
  {
    if k < |sizes| {
      SumOfPrefix(sizes[..|sizes| - 1], k);
      assert sizes[..|sizes| - 1][..k] == sizes[..k];
    } else {
      assert sizes[..k] == sizes;
    }
  }

  lemma EmbedNext<V>(model: string -> V, values: seq<Prepared>, taken: nat, n: nat)
    requires taken + n <= |values|
    ensures EmbedAll(model, values[..taken + n])
            == EmbedAll(model, values[..taken]) + EmbedAll(model, values[taken..taken + n])
  {
  }

  lemma NextSum(sizes: seq<nat>, b: nat)
    requires b < |sizes|
    ensures Sum(sizes[..b + 1]) == Sum(sizes[..b]) + sizes[b] <= Sum(sizes)
  {
    assert sizes[..b + 1][..b] == sizes[..b];
    SumOfPrefix(sizes, b + 1);
  }

  /** Submitting the microbatches one by one returns every text with its own vector, in input order; inputs are cut at
      512 tokens and the token limit is validated to be at least that, so none is refused in practice. */
  method EmbedOwned<V>(model: string -> V, values: seq<Prepared>, maxItems: nat, maxPadded: nat)
    returns (result: Result<seq<Embedded<V>>>)
    ensures result.Ok? <==> forall v | v in values :: v.tokens <= maxPadded
    ensures result.Ok? ==> result.value == EmbedAll(model, values)
  {
    var batches := MicrobatchLengths(Tokens(values), maxItems, maxPadded);
    if batches.TooManyTokens? {
      assert exists i :: 0 <= i < |values| && values[i].tokens > maxPadded;
      return TooManyTokens(batches.maximum, batches.actual);
    }
    var sizes := batches.value;
    PartitionSum(Tokens(values), sizes, |values|, maxItems, maxPadded);
    assert sizes[..|sizes|] == sizes;
    var output: seq<Embedded<V>> := [];
    var taken := 0;
    for b := 0 to |sizes|
      invariant taken == Sum(sizes[..b]) <= |values|
      invariant output == EmbedAll(model, values[..taken])
    {
      NextSum(sizes, b);
      EmbedNext(model, values, taken, sizes[b]);
      output := output + EmbedAll(model, values[taken..taken + sizes[b]]);
      taken := taken + sizes[b];
    }
    assert values[..taken] == values;
    return Ok(output);
  }
}
