/** Cross-sectional scores: winsorized, ranked, directed and weighted components. */
module Scores {
  import opened Base
  import opened Numeric
  import opened Sequences
  import opened Ranks

  /** A floating-point factor value. */
  datatype Value = Number(x: real) | PlusInfinity | MinusInfinity | NotANumber

  /** One factor over the securities in id order. */
  datatype Component = Component(values: seq<Value>, weight: real, reverse: bool)

  function Ascending(): (real, real) -> bool {
    (x: real, y: real) => x <= y
  }

  lemma {:induction false} SortKeepsLength(xs: seq<real>)
    ensures |Sort(Ascending(), xs)| == |xs|
  {
    AscendingIsTotal();
    SortSorts(Ascending(), xs);
    assert |multiset(Sort(Ascending(), xs))| == |multiset(xs)|;
  }

  lemma AscendingIsTotal()
    ensures TotalPreorder(Ascending())
  {
  }

  function Position(last: int, part: real): real {
    last as real * part
  }

  lemma PositionIsWithin(last: nat, part: real)
    requires 0.0 <= part <= 1.0
    ensures 0.0 <= Position(last, part) <= last as real
  {
    MulMonotone(0.0, part, last as real);
    MulMonotone(part, 1.0, last as real);
  }

  function Scaled(part: real, gap: real): real {
    part * gap
  }

  function Interpolated(lower: real, upper: real, part: real): real {
    lower + Scaled(part, upper - lower)
  }

  /** The value at a position between the members of an ordered list. */
  function At(ordered: seq<real>, position: real): real
    requires 0.0 <= position <= (|ordered| - 1) as real
  {
    var lower, upper := position.Floor, Ceiling(position);
    Interpolated(ordered[lower], ordered[upper], position - lower as real)
  }

  function Type7Quantile(values: seq<real>, quantile: real): real
    requires values != [] && 0.0 <= quantile <= 1.0
  {
    SortKeepsLength(values);
    var ordered := Sort(Ascending(), values);
    PositionIsWithin(|ordered| - 1, quantile);
    At(ordered, Position(|ordered| - 1, quantile))
  }

  function Clip(x: real, lower: real, upper: real): real {
    MinReal(MaxReal(x, lower), upper)
  }

  /** The finite values, which alone set the clipping bounds. */
  function Numbers(values: seq<Value>): seq<real> {
    if values == [] then []
    else
      var n := |values| - 1;
      Numbers(values[..n]) + if values[n].Number? then [values[n].x] else []
  }

  /** `min(max(value, lower), upper)`, which leaves a value that is not a number alone. */
  function ClipValue(v: Value, lower: real, upper: real): Option<real> {
    match v
    case Number(x) => Some(Clip(x, lower, upper))
    case PlusInfinity => Some(upper)
    case MinusInfinity => Some(MinReal(lower, upper))
    case NotANumber => None
  }

  /** `None` stands for a value that is not a number, the only one clipping leaves without a finite value. */
  function Winsorize(values: seq<Value>): (r: seq<Option<real>>)
    requires Numbers(values) != []
    ensures |r| == |values|
    ensures forall i | 0 <= i < |values| :: r[i].None? <==> values[i] == NotANumber
  {
    var lower, upper := Type7Quantile(Numbers(values), 0.01), Type7Quantile(Numbers(values), 0.99);
    seq(|values|, i requires 0 <= i < |values| => ClipValue(values[i], lower, upper))
  }

  /** Every security can be ranked: some value is finite and none is missing. */
  predicate Usable(values: seq<Value>) {
    Numbers(values) != [] && NotANumber !in values
  }

  function Clipped(values: seq<Value>): (r: seq<real>)
    requires Usable(values)
    ensures |r| == |values|
  {
    var winsorized := Winsorize(values);
    seq(|values|, i requires 0 <= i < |values| => winsorized[i].value)
  }

  function Somes(values: seq<real>): (r: seq<Option<real>>)
    ensures |r| == |values|
  {
    seq(|values|, i requires 0 <= i < |values| => Some(values[i]))
  }

  lemma {:induction false} AllFinite(values: seq<real>)
    ensures |Finite(Somes(values))| == |values|
    ensures forall i | 0 <= i < |values| :: Finite(Somes(values))[i] == (values[i], i)
  {
    if values != [] {
      var n := |values| - 1;
      AllFinite(values[..n]);
      assert Somes(values)[..n] == Somes(values[..n]);
    }
  }

  function EntriesOf(values: seq<real>): seq<Entry> {
    Finite(Somes(values))
  }

  /** The percentile of every security under one winsorized factor. */
  function RanksOf(values: seq<Value>): (r: seq<real>)
    requires |values| >= 2 && Usable(values)
    ensures |r| == |values|
  {
    var clipped := Clipped(values);
    AllFinite(clipped);
    var entries := EntriesOf(clipped);
    seq(|values|, i requires 0 <= i < |values| => Percentile(entries, clipped[i]))
  }

  function Direct(rank: real, reverse: bool): real {
    if reverse then 1.0 - rank else rank
  }

  function Directed(ranks: seq<real>, reverse: bool): (r: seq<real>)
    ensures |r| == |ranks|
  {
    seq(|ranks|, i requires 0 <= i < |ranks| => Direct(ranks[i], reverse))
  }

  /** One contribution to one score. */
  function Added(score: real, weight: real, directed: real): real {
    score + weight * directed
  }

  function AddScaled(scores: seq<real>, weight: real, directed: seq<real>): (r: seq<real>)
    requires |scores| == |directed|
    ensures |r| == |scores|
  {
    seq(|scores|, i requires 0 <= i < |scores| => Added(scores[i], weight, directed[i]))
  }

  ghost predicate Aligned(components: seq<Component>, n: nat) {
    forall i | 0 <= i < |components| :: |components[i].values| == n
  }

  ghost predicate Ready(components: seq<Component>, n: nat) {
    forall i | 0 <= i < |components| :: |components[i].values| == n && Usable(components[i].values)
  }

  function DirectedRanks(component: Component): (r: seq<real>)
    requires |component.values| >= 2 && Usable(component.values)
    ensures |r| == |component.values|
  {
    Directed(RanksOf(component.values), component.reverse)
  }

  /** The share of a weight left by the custom factor. */
  function Portion(scale: real, weight: real): real {
    scale * weight
  }

  function Accumulate(components: seq<Component>, scale: real, n: nat): (r: seq<real>)
    requires n >= 2 && Ready(components, n)
    ensures |r| == n
  {
    if components == [] then seq(n, _ => 0.0)
    else
      var k := |components| - 1;
      AddScaled(Accumulate(components[..k], scale, n), Portion(scale, components[k].weight),
                DirectedRanks(components[k]))
  }

  /** The custom factor, when its values are given, with the weight taken from the others. */
  datatype Custom = Custom(values: Option<seq<Value>>, weight: real, lowerBetter: bool)

  function CustomComponent(custom: Custom): seq<Component> {
    if custom.values.Some? && custom.weight > 0.0 then
      [Component(custom.values.value, custom.weight, custom.lowerBetter)]
    else []
  }

  function Score(components: seq<Component>, custom: Custom, n: nat): (r: seq<real>)
    requires n >= 2 && Ready(components, n) && Ready(CustomComponent(custom), n)
    ensures |r| == n
  {
    var base, last := Accumulate(components, 1.0 - custom.weight, n), CustomComponent(custom);
    if last == [] then base else AddScaled(base, custom.weight, DirectedRanks(last[0]))
  }

  const NO_FINITE := "ValueError"
  const MISSING := "KeyError"

  /** What ranking a factor raises: no finite value to take quantiles of, or a security left without a rank. */
  function Failure(values: seq<Value>): Option<string> {
    if Numbers(values) == [] then Some(NO_FINITE) else if NotANumber in values then Some(MISSING) else None
  }

  function FirstFailure(components: seq<Component>): Option<string> {
    if components == [] then None
    else
      var k := |components| - 1;
      var earlier := FirstFailure(components[..k]);
      if earlier.Some? then earlier else Failure(components[k].values)
  }

  lemma {:induction false} ReadyMeansNoFailure(components: seq<Component>, n: nat)
    requires Aligned(components, n)
    ensures Ready(components, n) <==> FirstFailure(components) == None
  {
    hide Numbers;
    if components != [] {
      ReadyMeansNoFailure(components[..|components| - 1], n);
    }
  }

  lemma {:induction false} EarlierFailureCounts(components: seq<Component>, k: nat)
    requires k <= |components| && FirstFailure(components[..k]).Some?
    ensures FirstFailure(components) == FirstFailure(components[..k])
    decreases |components| - k
  {
    hide Failure;
    if k == |components| {
      assert components[..k] == components;
    } else {
      assert components[..k + 1][..k] == components[..k];
      EarlierFailureCounts(components, k + 1);
    }
  }

  type Scored = (Id, real)

  function BestFirst(): (Scored, Scored) -> bool {
    (x: Scored, y: Scored) => if x.1 != y.1 then x.1 > y.1 else x.0 <= y.0
  }

  function Pair(ids: seq<Id>, scores: seq<real>): (r: seq<Scored>)
    requires |ids| == |scores|
    ensures |r| == |ids|
  {
    seq(|ids|, i requires 0 <= i < |ids| => (ids[i], scores[i]))
  }

  function Values(ranked: seq<Option<real>>): (r: seq<real>)
    requires None !in ranked
    ensures |r| == |ranked|
  {
    seq(|ranked|, i requires 0 <= i < |ranked| => ranked[i].value)
  }

  lemma WinsorizedIsClipped(values: seq<Value>)
    requires Usable(values)
    ensures Winsorize(values) == Somes(Clipped(values))
  {
    hide Type7Quantile, ClipValue;
  }

  /** The tie-grouping loop over the winsorized values ranks every security, unless some value is not a number. */
  method Percentiles(values: seq<Value>) returns (r: Result<seq<Option<real>>>)
    requires |values| >= 2
    ensures r.Err? <==> Numbers(values) == []
    ensures r.Err? ==> r.code == NO_FINITE
    ensures r.Ok? ==> |r.value| == |values| && (None in r.value <==> !Usable(values))
    ensures r.Ok? && Usable(values) ==> Values(r.value) == RanksOf(values)
  {
    hide Percentile, Finite, Type7Quantile, ClipValue;
    if Numbers(values) == [] {
      return Err(NO_FINITE);
    }
    var winsorized := Winsorize(values);
    var ranked := AverageRankPercentiles(winsorized);
    if Usable(values) {
      WinsorizedIsClipped(values);
      AllFinite(Clipped(values));
      assert None !in ranked;
    } else {
      var i :| 0 <= i < |values| && values[i] == NotANumber;
      assert ranked[i] == None;
    }
    return Ok(ranked);
  }

  /** `float(score)` for each score. */
  function Rounded(toFloat: real -> real, scores: seq<real>): (r: seq<real>)
    ensures |r| == |scores|
  {
    seq(|scores|, i requires 0 <= i < |scores| => toFloat(scores[i]))
  }

  /** The accumulation loops over components and securities, then the ordering by rounded score. */
  method ScoreCrossSection(ids: seq<Id>, components: seq<Component>, custom: Custom, toFloat: real -> real)
    returns (r: Result<seq<Scored>>)
    requires Aligned(components, |ids|) && Aligned(CustomComponent(custom), |ids|)
    ensures |ids| < 2 ==> r == Ok([])
    ensures |ids| >= 2 ==>
              (r.Err? <==> FirstFailure(components + CustomComponent(custom)).Some?)
              && (r.Err? ==> FirstFailure(components + CustomComponent(custom)) == Some(r.code))
    ensures |ids| >= 2 && r.Ok? ==>
              && Ready(components, |ids|) && Ready(CustomComponent(custom), |ids|)
              && r.value == Sort(BestFirst(), Pair(ids, Rounded(toFloat, Score(components, custom, |ids|))))
  {
    hide Sort, Pair, RanksOf, Directed, AddScaled, Numbers, Usable, Rounded;
    if |ids| < 2 {
      return Ok([]);
    }
    var n := |ids|;
    var scale, last := 1.0 - custom.weight, CustomComponent(custom);
    var scores := seq(n, _ => 0.0);
    ghost var all := components + last;
    for k := 0 to |components|
      invariant Ready(components[..k], n) && scores == Accumulate(components[..k], scale, n)
      invariant FirstFailure(all[..k]) == None
    {
      PrefixOfAll(components, last, k);
      var added := AddComponent(scores, components[k], Portion(scale, components[k].weight));
      if added.Err? {
        EarlierFailureCounts(all, k + 1);
        return Err(added.code);
      }
      AccumulateOneMore(components, scale, n, k);
      scores := added.value;
    }
    assert components[..|components|] == components;
    if last != [] {
      PrefixOfAll(components, last, |components|);
      assert all[..|components| + 1] == all;
      var added := AddComponent(scores, last[0], custom.weight);
      if added.Err? {
        return Err(added.code);
      }
      scores := added.value;
    } else {
      assert all[..|components|] == all;
    }
    return Ok(Sort(BestFirst(), Pair(ids, Rounded(toFloat, scores))));
  }

  lemma PrefixOfAll(components: seq<Component>, last: seq<Component>, k: nat)
    requires k < |components + last|
    ensures var all := components + last;
            FirstFailure(all[..k]) == None ==> FirstFailure(all[..k + 1]) == Failure(all[k].values)
  {
    hide Failure;
    var all := components + last;
    assert all[..k + 1][..k] == all[..k];
  }

  /** One component: ranks, then a lookup of every security's rank. */
  method AddComponent(scores: seq<real>, component: Component, weight: real) returns (r: Result<seq<real>>)
    requires |scores| == |component.values| >= 2
    ensures r.Err? <==> Failure(component.values).Some?
    ensures r.Err? ==> Failure(component.values) == Some(r.code)
    ensures r.Ok? ==> Usable(component.values) && r.value == AddScaled(scores, weight, DirectedRanks(component))
  {
    hide AddScaled, Directed, RanksOf, Numbers;
    var ranked := Percentiles(component.values);
    if ranked.Err? {
      return Err(ranked.code);
    }
    r := AddEach(scores, weight, ranked.value, component.reverse);
  }

  lemma AccumulateOneMore(components: seq<Component>, scale: real, n: nat, k: nat)
    requires n >= 2 && k < |components| && Ready(components[..k], n)
    requires |components[k].values| == n && Usable(components[k].values)
    ensures Ready(components[..k + 1], n)
    ensures Accumulate(components[..k + 1], scale, n)
            == AddScaled(Accumulate(components[..k], scale, n), Portion(scale, components[k].weight),
                         DirectedRanks(components[k]))
  {
    hide AddScaled, DirectedRanks, Portion;
    var more := components[..k + 1];
    assert more[..k] == components[..k] && more[k] == components[k];
    assert Accumulate(more, scale, n)
        == AddScaled(Accumulate(more[..k], scale, n), Portion(scale, more[k].weight), DirectedRanks(more[k]));
  }

  /** The inner loop; a security without a rank raises. */
  method AddEach(scores: seq<real>, weight: real, ranked: seq<Option<real>>, reverse: bool)
    returns (r: Result<seq<real>>)
    requires |scores| == |ranked|
    ensures None in ranked ==> r == Err(MISSING)
    ensures None !in ranked ==> r == Ok(AddScaled(scores, weight, Directed(Values(ranked), reverse)))
  {
    hide Added;
    var sums := scores;
    for i := 0 to |sums|
      invariant |sums| == |scores| && None !in ranked[..i]
      invariant forall k | 0 <= k < i :: sums[k] == Added(scores[k], weight, Direct(ranked[k].value, reverse))
      invariant forall k | i <= k < |sums| :: sums[k] == scores[k]
    {
      if ranked[i] == None {
        return Err(MISSING);
      }
      assert ranked[..i + 1] == ranked[..i] + [ranked[i]];
      sums := sums[i := Added(sums[i], weight, Direct(ranked[i].value, reverse))];
    }
    assert ranked[..|ranked|] == ranked;
    assert sums == AddScaled(scores, weight, Directed(Values(ranked), reverse));
    return Ok(sums);
  }

  // ----- sums

  function Total(xs: seq<real>): real {
    if xs == [] then 0.0 else Total(xs[..|xs| - 1]) + xs[|xs| - 1]
  }

  lemma {:induction false} TotalOfScaled(scores: seq<real>, weight: real, directed: seq<real>)
    requires |scores| == |directed|
    ensures Total(AddScaled(scores, weight, directed)) == Total(scores) + weight * Total(directed)
  {
    hide Added;
    if scores == [] {
      assert weight * 0.0 == 0.0;
    } else {
      var n := |scores| - 1;
      TotalOfScaled(scores[..n], weight, directed[..n]);
      assert AddScaled(scores, weight, directed)[..n] == AddScaled(scores[..n], weight, directed[..n]);
      AddedIs(scores[n], weight, directed[n]);
      Spread(weight, Total(directed[..n]), directed[n]);
    }
  }

  lemma AddedIs(score: real, weight: real, directed: real)
    ensures Added(score, weight, directed) == score + weight * directed
  {
  }

  lemma Spread(w: real, x: real, y: real)
    ensures w * (x + y) == w * x + w * y
  {
  }

  lemma {:induction false} TotalOfZeros(n: nat)
    ensures Total(seq(n, _ => 0.0)) == 0.0
  {
    if n > 0 {
      TotalOfZeros(n - 1);
      assert seq(n, _ => 0.0)[..n - 1] == seq(n - 1, _ => 0.0);
    }
  }

  lemma {:induction false} TotalOfDirected(ranks: seq<real>, reverse: bool)
    ensures Total(Directed(ranks, reverse)) == if reverse then |ranks| as real - Total(ranks) else Total(ranks)
  {
    if ranks != [] {
      var n := |ranks| - 1;
      TotalOfDirected(ranks[..n], reverse);
      assert Directed(ranks, reverse)[..n] == Directed(ranks[..n], reverse);
    }
  }

  lemma {:induction false} PercentileSumSplits(entries: seq<Entry>, left: seq<Entry>, right: seq<Entry>)
    requires |entries| >= 2
    ensures PercentileSum(entries, left + right) == PercentileSum(entries, left) + PercentileSum(entries, right)
  {
    hide Percentile;
    if left == [] {
      assert left + right == right;
    } else {
      PercentileSumSplits(entries, left[1..], right);
      assert (left + right)[1..] == left[1..] + right;
    }
  }

  lemma {:induction false} TotalIsPercentileSum(entries: seq<Entry>, values: seq<real>, k: nat)
    requires |entries| >= 2 && k <= |values|
    ensures |EntriesOf(values[..k])| == k
    ensures Total(seq(k, i requires 0 <= i < k => Percentile(entries, values[i])))
            == PercentileSum(entries, EntriesOf(values[..k]))
  {
    hide Percentile;
    AllFinite(values[..k]);
    if k > 0 {
      TotalIsPercentileSum(entries, values, k - 1);
      AllFinite(values[..k - 1]);
      var ranks := seq(k, i requires 0 <= i < k => Percentile(entries, values[i]));
      assert ranks[..k - 1] == seq(k - 1, i requires 0 <= i < k - 1 => Percentile(entries, values[i]));
      assert EntriesOf(values[..k]) == EntriesOf(values[..k - 1]) + [(values[k - 1], k - 1)];
      PercentileSumSplits(entries, EntriesOf(values[..k - 1]), [(values[k - 1], k - 1)]);
      OnePercentile(entries, (values[k - 1], k - 1));
    }
  }

  lemma OnePercentile(entries: seq<Entry>, e: Entry)
    requires |entries| >= 2
    ensures PercentileSum(entries, [e]) == Percentile(entries, e.0)
  {
    assert [e][1..] == [];
  }

  lemma RanksSumToHalf(values: seq<Value>)
    requires |values| >= 2 && Usable(values)
    ensures Total(RanksOf(values)) == |values| as real / 2.0
  {
    hide Usable, Type7Quantile;
    var clipped := Clipped(values);
    var entries := EntriesOf(clipped);
    AllFinite(clipped);
    TotalIsPercentileSum(entries, clipped, |clipped|);
    assert clipped[..|clipped|] == clipped;
    PercentilesSumToHalf(entries);
  }

  /** The order of the extended real line. */
  predicate AtMost(x: Value, y: Value) {
    x == MinusInfinity || y == PlusInfinity || (x.Number? && y.Number? && x.x <= y.x)
  }

  lemma ClippingKeepsOrder(x: Value, y: Value, lower: real, upper: real)
    requires x != NotANumber && y != NotANumber && AtMost(x, y)
    ensures ClipValue(x, lower, upper).value <= ClipValue(y, lower, upper).value
  {
  }

  lemma ClippedFollowValues(values: seq<Value>, i: nat, j: nat)
    requires Usable(values) && i < |values| && j < |values| && AtMost(values[i], values[j])
    ensures Clipped(values)[i] <= Clipped(values)[j]
  {
    hide Type7Quantile, ClipValue;
    var lower, upper := Type7Quantile(Numbers(values), 0.01), Type7Quantile(Numbers(values), 0.99);
    ClippingKeepsOrder(values[i], values[j], lower, upper);
  }

  /** Ranks lie between 0 and 1 and follow the raw values, infinities included: winsorizing can tie but
      never reorder. */
  lemma RanksFollowValues(values: seq<Value>, i: nat, j: nat)
    requires |values| >= 2 && Usable(values) && i < |values| && j < |values|
    ensures 0.0 <= RanksOf(values)[i] <= 1.0
    ensures AtMost(values[i], values[j]) ==> RanksOf(values)[i] <= RanksOf(values)[j]
  {
    hide Type7Quantile, Percentile, Usable, AtMost, Winsorize;
    var clipped := Clipped(values);
    var entries := EntriesOf(clipped);
    AllFinite(clipped);
    if AtMost(values[i], values[j]) {
      ClippedFollowValues(values, i, j);
    }
    PercentileIsOrdered(entries, entries[i], entries[j]);
  }

  // ----- scores

  ghost predicate WeightsNonnegative(components: seq<Component>) {
    forall i | 0 <= i < |components| :: components[i].weight >= 0.0
  }

  function WeightTotal(components: seq<Component>): real {
    if components == [] then 0.0 else WeightTotal(components[..|components| - 1]) + components[|components| - 1].weight
  }

  lemma DirectedRankTotal(component: Component)
    requires |component.values| >= 2 && Usable(component.values)
    ensures Total(DirectedRanks(component)) == |component.values| as real / 2.0
  {
    hide Directed, RanksOf, Total;
    TotalOfDirected(RanksOf(component.values), component.reverse);
    RanksSumToHalf(component.values);
  }

  lemma {:induction false} AccumulateTotals(components: seq<Component>, scale: real, n: nat)
    requires n >= 2 && Ready(components, n)
    ensures Total(Accumulate(components, scale, n)) == Spent(scale, WeightTotal(components), n as real / 2.0)
  {
    hide DirectedRanks, AddScaled, Spent, Portion, Total;
    if components == [] {
      TotalOfZeros(n);
      NothingSpent(scale, n as real / 2.0);
    } else {
      var k := |components| - 1;
      assert components[..k + 1] == components;
      AccumulateOneMore(components, scale, n, k);
      AccumulateTotals(components[..k], scale, n);
      DirectedRankTotal(components[k]);
      TotalOfScaled(Accumulate(components[..k], scale, n), Portion(scale, components[k].weight),
                    DirectedRanks(components[k]));
      SpendMore(scale, WeightTotal(components[..k]), components[k].weight, n as real / 2.0);
    }
  }

  function Spent(scale: real, weight: real, half: real): real {
    scale * weight * half
  }

  lemma NothingSpent(scale: real, half: real)
    ensures Spent(scale, 0.0, half) == 0.0
  {
  }

  lemma SpendMore(scale: real, x: real, y: real, half: real)
    ensures Spent(scale, x, half) + Portion(scale, y) * half == Spent(scale, x + y, half)
  {
    Spread(scale, x, y);
    assert (scale * x + scale * y) * half == scale * x * half + (scale * y) * half;
  }

  /** Every score so far is between 0 and the weight spent so far. */
  ghost predicate Bounded(scores: seq<real>, spent: real) {
    forall i | 0 <= i < |scores| :: 0.0 <= scores[i] <= spent
  }

  lemma ScaledStaysBounded(scores: seq<real>, spent: real, weight: real, directed: seq<real>)
    requires |scores| == |directed| && weight >= 0.0 && Bounded(scores, spent) && Bounded(directed, 1.0)
    ensures Bounded(AddScaled(scores, weight, directed), spent + weight)
  {
    hide Added;
    forall i | 0 <= i < |scores|
      ensures 0.0 <= Added(scores[i], weight, directed[i]) <= spent + weight
    {
      AddedIsBounded(scores[i], weight, directed[i]);
    }
  }

  lemma AddedIsBounded(score: real, weight: real, directed: real)
    requires weight >= 0.0 && 0.0 <= directed <= 1.0 && 0.0 <= score
    ensures 0.0 <= Added(score, weight, directed) <= score + weight
  {
    MulMonotone(0.0, directed, weight);
    MulMonotone(directed, 1.0, weight);
  }

  lemma DirectedRanksAreBounded(component: Component)
    requires |component.values| >= 2 && Usable(component.values)
    ensures Bounded(DirectedRanks(component), 1.0)
  {
    hide RanksOf;
    forall i | 0 <= i < |component.values|
      ensures 0.0 <= RanksOf(component.values)[i] <= 1.0
    {
      RanksFollowValues(component.values, i, i);
    }
  }

  lemma {:induction false} AccumulateIsBounded(components: seq<Component>, scale: real, n: nat)
    requires n >= 2 && Ready(components, n) && WeightsNonnegative(components) && scale >= 0.0
    ensures Bounded(Accumulate(components, scale, n), Portion(scale, WeightTotal(components)))
  {
    hide DirectedRanks, AddScaled, Portion;
    if components == [] {
      PortionOfSum(scale, 0.0, 0.0);
    } else {
      hide Bounded;
      var k := |components| - 1;
      assert components[..k + 1] == components;
      AccumulateOneMore(components, scale, n, k);
      AccumulateIsBounded(components[..k], scale, n);
      DirectedRanksAreBounded(components[k]);
      PortionIsNonnegative(scale, components[k].weight);
      ScaledStaysBounded(Accumulate(components[..k], scale, n), Portion(scale, WeightTotal(components[..k])),
                         Portion(scale, components[k].weight), DirectedRanks(components[k]));
      PortionOfSum(scale, WeightTotal(components[..k]), components[k].weight);
    }
  }

  lemma PortionIsNonnegative(scale: real, weight: real)
    requires scale >= 0.0 && weight >= 0.0
    ensures Portion(scale, weight) >= 0.0
  {
  }

  lemma PortionOfSum(scale: real, x: real, y: real)
    ensures Portion(scale, x + y) == Portion(scale, x) + Portion(scale, y)
    ensures Portion(scale, 0.0) == 0.0
  {
  }

  /** The total weight that reaches the scores: everything, unless a custom weight is set without values. */
  function Delivered(custom: Custom): real {
    if custom.values.Some? then 1.0 else 1.0 - custom.weight
  }

  /** For any weights that sum to one, any directions and any custom weight up to one, every score is
      between 0 and the delivered weight, and the scores sum to half the number of securities times it. */
  lemma ScoresAreBalanced(components: seq<Component>, custom: Custom, n: nat)
    requires n >= 2 && Ready(components, n) && Ready(CustomComponent(custom), n)
    requires WeightsNonnegative(components) && WeightTotal(components) == 1.0 && 0.0 <= custom.weight <= 1.0
    ensures Bounded(Score(components, custom, n), Delivered(custom))
    ensures Total(Score(components, custom, n)) == Delivered(custom) * (n as real / 2.0)
  {
    hide DirectedRanks, Accumulate, AddScaled, Bounded, Total, WeightTotal;
    var scale := 1.0 - custom.weight;
    var half := n as real / 2.0;
    AccumulateTotals(components, scale, n);
    AccumulateIsBounded(components, scale, n);
    assert scale * 1.0 == scale;
    if CustomComponent(custom) != [] {
      var last := CustomComponent(custom)[0];
      DirectedRankTotal(last);
      DirectedRanksAreBounded(last);
      TotalOfScaled(Accumulate(components, scale, n), custom.weight, DirectedRanks(last));
      ScaledStaysBounded(Accumulate(components, scale, n), scale, custom.weight, DirectedRanks(last));
      SplitWhole(scale, custom.weight, half);
    }
  }

  lemma SplitWhole(x: real, y: real, half: real)
    requires x + y == 1.0
    ensures x * half + y * half == 1.0 * half
  {
    assert (x + y) * half == x * half + y * half;
  }

  lemma BestFirstIsTotal()
    ensures TotalPreorder(BestFirst())
  {
  }

  /** The ranking is the securities with their scores, reordered by falling score and rising id. */
  lemma RankingIsAPermutation(ids: seq<Id>, scores: seq<real>)
    requires |ids| == |scores|
    ensures var ranking := Sort(BestFirst(), Pair(ids, scores));
            && multiset(ranking) == multiset(Pair(ids, scores))
            && forall i, j | 0 <= i < j < |ranking| ::
                 ranking[i].1 > ranking[j].1 || (ranking[i].1 == ranking[j].1 && ranking[i].0 <= ranking[j].0)
  {
    BestFirstIsTotal();
    SortSorts(BestFirst(), Pair(ids, scores));
    var ranking := Sort(BestFirst(), Pair(ids, scores));
    forall i, j | 0 <= i < j < |ranking|
      ensures ranking[i].1 > ranking[j].1 || (ranking[i].1 == ranking[j].1 && ranking[i].0 <= ranking[j].0)
    {
      assert BestFirst()(ranking[i], ranking[j]);
    }
  }

  // ----- winsorizing and directions

  /** The linear interpolation between order statistics, at the position that part of the way from first to last. */
  ghost predicate IsQuantile(values: seq<real>, part: real, q: real) {
    exists ordered: seq<real> :: Orders(values, ordered) && Between(ordered, PartWay(|ordered|, part), q)
  }

  /** A part of the way from the first of so many to the last. */
  function PartWay(count: nat, part: real): real {
    (count - 1) as real * part
  }

  lemma PartWayIsPosition(count: nat, part: real)
    ensures PartWay(count, part) == Position(count - 1, part)
  {
  }

  ghost predicate Orders(values: seq<real>, ordered: seq<real>) {
    multiset(ordered) == multiset(values) && forall i, j | 0 <= i < j < |ordered| :: ordered[i] <= ordered[j]
  }

  ghost predicate Between(ordered: seq<real>, position: real, q: real) {
    exists k: nat :: k < |ordered| && IsBetween(ordered, position, q, k)
  }

  predicate IsBetween(ordered: seq<real>, position: real, q: real, k: nat)
    requires k < |ordered|
  {
    && k as real <= position < k as real + 1.0
    && if k as real == position then q == ordered[k]
       else k + 1 < |ordered| && q == Blend(ordered[k], ordered[k + 1], position - k as real)
  }

  function Blend(x: real, y: real, part: real): real {
    (1.0 - part) * x + part * y
  }

  lemma InterpolatedIsBlend(x: real, y: real, part: real)
    ensures Interpolated(x, y, part) == Blend(x, y, part)
    ensures part == 0.0 ==> Interpolated(x, y, part) == x
  {
  }

  lemma InterpolatedIsWithin(x: real, y: real, part: real)
    requires x <= y && 0.0 <= part <= 1.0
    ensures x <= Interpolated(x, y, part) <= y
  {
    ScaledGrows(0.0, part, y - x);
    ScaledGrows(part, 1.0, y - x);
    ScaledFully(y - x);
    hide Scaled;
  }

  lemma ScaledFully(gap: real)
    ensures Scaled(0.0, gap) == 0.0 && Scaled(1.0, gap) == gap
  {
  }

  lemma ScaledGrows(low: real, high: real, gap: real)
    requires gap >= 0.0 && low <= high
    ensures Scaled(low, gap) <= Scaled(high, gap)
  {
    MulMonotone(low, high, gap);
  }

  lemma InterpolatedGrows(x: real, y: real, low: real, high: real)
    requires x <= y && low <= high
    ensures Interpolated(x, y, low) <= Interpolated(x, y, high)
  {
    ScaledGrows(low, high, y - x);
    hide Scaled;
  }

  lemma AtIsBetween(ordered: seq<real>, position: real)
    requires 0.0 <= position <= (|ordered| - 1) as real
    ensures Between(ordered, position, At(ordered, position))
  {
    hide Interpolated, Blend;
    var k: nat := position.Floor;
    var upper := Ceiling(position);
    InterpolatedIsBlend(ordered[k], ordered[upper], position - k as real);
    assert IsBetween(ordered, position, At(ordered, position), k);
  }

  lemma SortOrders(values: seq<real>)
    ensures Orders(values, Sort(Ascending(), values))
  {
    AscendingIsTotal();
    SortSorts(Ascending(), values);
    var ordered := Sort(Ascending(), values);
    forall i, j | 0 <= i < j < |ordered|
      ensures ordered[i] <= ordered[j]
    {
      assert Ascending()(ordered[i], ordered[j]);
    }
  }

  lemma QuantileMeans(values: seq<real>, part: real)
    requires values != [] && 0.0 <= part <= 1.0
    ensures IsQuantile(values, part, Type7Quantile(values, part))
  {
    hide Sort, At, Between, Orders;
    SortKeepsLength(values);
    SortOrders(values);
    var ordered := Sort(Ascending(), values);
    PositionIsWithin(|ordered| - 1, part);
    PartWayIsPosition(|ordered|, part);
    AtIsBetween(ordered, Position(|ordered| - 1, part));
    hide PartWay, Position;
  }

  lemma {:induction false} NumbersAreTheFinite(values: seq<Value>, x: real)
    ensures x in Numbers(values) <==> Number(x) in values
  {
    if values != [] {
      NumbersAreTheFinite(values[..|values| - 1], x);
    }
  }

  /** A quantile further along is no smaller. */
  lemma QuantilesAreOrdered(values: seq<real>, low: real, high: real)
    requires values != [] && 0.0 <= low <= high <= 1.0
    ensures Type7Quantile(values, low) <= Type7Quantile(values, high)
  {
    hide Sort, At, Orders;
    SortKeepsLength(values);
    SortOrders(values);
    var ordered := Sort(Ascending(), values);
    OrderedIsOrdered(values, ordered);
    var last := |ordered| - 1;
    PositionIsWithin(last, low);
    PositionIsWithin(last, high);
    PositionGrows(last, low, high);
    AtIsMonotone(ordered, Position(last, low), Position(last, high));
  }

  lemma PositionGrows(last: nat, low: real, high: real)
    requires low <= high
    ensures Position(last, low) <= Position(last, high)
  {
    MulMonotone(low, high, last as real);
  }

  lemma OrderedIsOrdered(values: seq<real>, ordered: seq<real>)
    requires Orders(values, ordered)
    ensures Orders(ordered, ordered)
  {
  }

  lemma AtIsWithin(ordered: seq<real>, position: real)
    requires 0.0 <= position <= (|ordered| - 1) as real && Orders(ordered, ordered)
    ensures ordered[position.Floor] <= At(ordered, position) <= ordered[Ceiling(position)]
  {
    var lower, upper := position.Floor, Ceiling(position);
    assert ordered[lower] <= ordered[upper];
    InterpolatedIsWithin(ordered[lower], ordered[upper], position - lower as real);
    hide Interpolated;
  }

  lemma AtIsMonotone(ordered: seq<real>, low: real, high: real)
    requires 0.0 <= low <= high <= (|ordered| - 1) as real && Orders(ordered, ordered)
    ensures At(ordered, low) <= At(ordered, high)
  {
    hide Interpolated;
    AtIsWithin(ordered, low);
    AtIsWithin(ordered, high);
    if low.Floor == high.Floor {
      var k := low.Floor;
      if low == k as real {
        InterpolatedIsBlend(ordered[k], ordered[k], 0.0);
      } else {
        assert ordered[k] <= ordered[k + 1];
        InterpolatedGrows(ordered[k], ordered[k + 1], low - k as real, high - k as real);
      }
    } else {
      hide At;
      assert Ceiling(low) <= high.Floor;
    }
  }

  /** A factor's extremes are pulled in to the first and the ninety-ninth percent of its finite values: what is beyond
      becomes the bound, and what is not stays. */
  lemma ClippedMeans(values: seq<Value>, i: nat) returns (low: real, high: real)
    requires Usable(values) && i < |values|
    ensures forall x :: x in Numbers(values) <==> Number(x) in values
    ensures IsQuantile(Numbers(values), 0.01, low) && IsQuantile(Numbers(values), 0.99, high) && low <= high
    ensures var clipped := Clipped(values)[i];
            match values[i]
            case Number(x) => clipped == if x < low then low else if x > high then high else x
            case PlusInfinity => clipped == high
            case MinusInfinity => clipped == low
            case NotANumber => false
  {
    hide IsQuantile, ClipValue;
    low, high := Type7Quantile(Numbers(values), 0.01), Type7Quantile(Numbers(values), 0.99);
    QuantileMeans(Numbers(values), 0.01);
    QuantileMeans(Numbers(values), 0.99);
    QuantilesAreOrdered(Numbers(values), 0.01, 0.99);
    hide Type7Quantile, Numbers;
    ClipMeans(values[i], low, high);
    forall x
      ensures x in Numbers(values) <==> Number(x) in values
    {
      NumbersAreTheFinite(values, x);
    }
  }

  lemma ClipMeans(v: Value, low: real, high: real)
    requires low <= high
    ensures match v
            case Number(x) => ClipValue(v, low, high) == Some(if x < low then low else if x > high then high else x)
            case PlusInfinity => ClipValue(v, low, high) == Some(high)
            case MinusInfinity => ClipValue(v, low, high) == Some(low)
            case NotANumber => ClipValue(v, low, high) == None
  {
  }

  /** At least as good under one factor, in its direction. */
  ghost predicate NoWorse(component: Component, i: nat, j: nat)
    requires i < |component.values| && j < |component.values|
  {
    if component.reverse then AtMost(component.values[i], component.values[j])
    else AtMost(component.values[j], component.values[i])
  }

  lemma DirectedRanksFollow(component: Component, i: nat, j: nat)
    requires |component.values| >= 2 && Usable(component.values)
    requires i < |component.values| && j < |component.values| && NoWorse(component, i, j)
    ensures DirectedRanks(component)[j] <= DirectedRanks(component)[i]
  {
    if component.reverse {
      RanksFollowValues(component.values, i, j);
    } else {
      RanksFollowValues(component.values, j, i);
    }
    hide RanksOf;
  }

  lemma AddedKeepsOrder(weight: real, low: real, high: real, down: real, up: real)
    requires low <= high && down <= up && weight >= 0.0
    ensures Added(low, weight, down) <= Added(high, weight, up)
  {
    MulMonotone(down, up, weight);
  }

  lemma {:induction false} AccumulateFollows(components: seq<Component>, scale: real, n: nat, i: nat, j: nat)
    requires n >= 2 && Ready(components, n) && WeightsNonnegative(components) && scale >= 0.0 && i < n && j < n
    requires forall k | 0 <= k < |components| :: NoWorse(components[k], i, j)
    ensures Accumulate(components, scale, n)[j] <= Accumulate(components, scale, n)[i]
  {
    hide DirectedRanks, Added, NoWorse, Usable;
    if components != [] {
      var k := |components| - 1;
      AccumulateFollows(components[..k], scale, n, i, j);
      DirectedRanksFollow(components[k], i, j);
      PortionIsNonnegative(scale, components[k].weight);
      var before, ranks := Accumulate(components[..k], scale, n), DirectedRanks(components[k]);
      AddedKeepsOrder(Portion(scale, components[k].weight), before[j], before[i], ranks[j], ranks[i]);
    }
  }

  /** A security no worse under any factor, each taken in its own direction, never scores lower. */
  lemma DominanceIsRespected(components: seq<Component>, custom: Custom, n: nat, i: nat, j: nat)
    requires n >= 2 && Ready(components, n) && Ready(CustomComponent(custom), n) && i < n && j < n
    requires WeightsNonnegative(components) && 0.0 <= custom.weight <= 1.0
    requires forall k | 0 <= k < |components| :: NoWorse(components[k], i, j)
    requires custom.values.Some? && custom.weight > 0.0 ==>
               |custom.values.value| == n
               && NoWorse(Component(custom.values.value, custom.weight, custom.lowerBetter), i, j)
    ensures Score(components, custom, n)[j] <= Score(components, custom, n)[i]
  {
    hide DirectedRanks, Added, NoWorse, Accumulate;
    AccumulateFollows(components, 1.0 - custom.weight, n, i, j);
    var last := CustomComponent(custom);
    if last != [] {
      DirectedRanksFollow(last[0], i, j);
      var base, ranks := Accumulate(components, 1.0 - custom.weight, n), DirectedRanks(last[0]);
      AddedKeepsOrder(custom.weight, base[j], base[i], ranks[j], ranks[i]);
    }
  }
}
