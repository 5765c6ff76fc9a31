/** Tie-averaged percentile ranks and the cross-sectional scores built from them. */
module Ranks {
  import opened Base
  import opened Numeric
  import opened Sequences

  /** A finite value and its position in the input. */
  type Entry = (real, nat)

  function ByValueThenIndex(): (Entry, Entry) -> bool {
    (x: Entry, y: Entry) => if x.0 != y.0 then x.0 < y.0 else x.1 <= y.1
  }

  /** `None` stands for a value that is not finite. */
  function Finite(values: seq<Option<real>>): seq<Entry> {
    if values == [] then []
    else
      var n := |values| - 1;
      Finite(values[..n]) + if values[n].Some? then [(values[n].value, n)] else []
  }

  function Below(entries: seq<Entry>, x: real): nat {
    if entries == [] then 0 else (if entries[0].0 < x then 1 else 0) + Below(entries[1..], x)
  }

  function Ties(entries: seq<Entry>, x: real): nat {
    if entries == [] then 0 else (if entries[0].0 == x then 1 else 0) + Ties(entries[1..], x)
  }

  /** The position of a value among n, on the scale from 0 to 1: the values below it, plus half of
      the other values tied with it. */
  function MidRank(below: nat, ties: nat, n: nat): real
    requires n >= 2
  {
    (below as real + (ties as real - 1.0) / 2.0) / (n - 1) as real
  }

  /** The definition of a tie-averaged percentile. */
  function Percentile(entries: seq<Entry>, x: real): real
    requires |entries| >= 2
  {
    MidRank(Below(entries, x), Ties(entries, x), |entries|)
  }

  /** What the loop computes for the sorted positions from `cursor` to before `end`. */
  function AverageRank(cursor: nat, end: nat, count: nat): real
    requires count >= 2
  {
    (((cursor + 1) + end) as real / 2.0 - 1.0) / (count - 1) as real
  }

  lemma AverageRankIsMidRank(cursor: nat, end: nat, count: nat)
    requires count >= 2 && cursor <= end
    ensures AverageRank(cursor, end, count) == MidRank(cursor, end - cursor, count)
  {
    assert ((cursor + 1) + end) as real / 2.0 - 1.0 == cursor as real + ((end - cursor) as real - 1.0) / 2.0;
  }

  // ----- counting does not depend on order

  lemma {:induction false} InsertKeepsCounts(e: Entry, ys: seq<Entry>, x: real)
    ensures Below(Insert(ByValueThenIndex(), e, ys), x) == Below(ys, x) + if e.0 < x then 1 else 0
    ensures Ties(Insert(ByValueThenIndex(), e, ys), x) == Ties(ys, x) + if e.0 == x then 1 else 0
    ensures |Insert(ByValueThenIndex(), e, ys)| == |ys| + 1
  {
    if ys == [] || ByValueThenIndex()(e, ys[0]) {
      assert ([e] + ys)[1..] == ys;
    } else {
      InsertKeepsCounts(e, ys[1..], x);
      assert ([ys[0]] + Insert(ByValueThenIndex(), e, ys[1..]))[1..] == Insert(ByValueThenIndex(), e, ys[1..]);
    }
  }

  lemma {:induction false} SortKeepsCounts(entries: seq<Entry>, x: real)
    ensures Below(Sort(ByValueThenIndex(), entries), x) == Below(entries, x)
    ensures Ties(Sort(ByValueThenIndex(), entries), x) == Ties(entries, x)
    ensures |Sort(ByValueThenIndex(), entries)| == |entries|
  {
    if entries != [] {
      SortKeepsCounts(entries[1..], x);
      InsertKeepsCounts(entries[0], Sort(ByValueThenIndex(), entries[1..]), x);
    }
  }

  lemma {:induction false} CountsSplit(left: seq<Entry>, right: seq<Entry>, x: real)
    ensures Below(left + right, x) == Below(left, x) + Below(right, x)
    ensures Ties(left + right, x) == Ties(left, x) + Ties(right, x)
  {
    if left == [] {
      assert left + right == right;
    } else {
      CountsSplit(left[1..], right, x);
      assert (left + right)[1..] == left[1..] + right;
    }
  }

  lemma {:induction false} CountsOf(entries: seq<Entry>, x: real)
    ensures (forall i | 0 <= i < |entries| :: entries[i].0 < x) ==>
              Below(entries, x) == |entries| && Ties(entries, x) == 0
    ensures (forall i | 0 <= i < |entries| :: entries[i].0 == x) ==>
              Below(entries, x) == 0 && Ties(entries, x) == |entries|
    ensures (forall i | 0 <= i < |entries| :: entries[i].0 > x) ==> Below(entries, x) == 0 && Ties(entries, x) == 0
    ensures Below(entries, x) + Ties(entries, x) <= |entries|
  {
    if entries != [] {
      CountsOf(entries[1..], x);
      assert forall i | 0 <= i < |entries[1..]| :: entries[1..][i] == entries[i + 1];
    }
  }

  /** A maximal run of equal values in the sorted list. */
  ghost predicate IsGroup(ranked: seq<Entry>, cursor: nat, end: nat) {
    && cursor < end <= |ranked|
    && (forall i | 0 <= i < cursor :: ranked[i].0 < ranked[cursor].0)
    && (forall i | cursor <= i < end :: ranked[i].0 == ranked[cursor].0)
    && (forall i | end <= i < |ranked| :: ranked[i].0 > ranked[cursor].0)
  }

  lemma CountsOfSmaller(entries: seq<Entry>, x: real)
    requires forall i | 0 <= i < |entries| :: entries[i].0 < x
    ensures Below(entries, x) == |entries| && Ties(entries, x) == 0
  {
    CountsOf(entries, x);
  }

  lemma CountsOfEqual(entries: seq<Entry>, x: real)
    requires forall i | 0 <= i < |entries| :: entries[i].0 == x
    ensures Below(entries, x) == 0 && Ties(entries, x) == |entries|
  {
    CountsOf(entries, x);
  }

  lemma CountsOfLarger(entries: seq<Entry>, x: real)
    requires forall i | 0 <= i < |entries| :: entries[i].0 > x
    ensures Below(entries, x) == 0 && Ties(entries, x) == 0
  {
    CountsOf(entries, x);
  }

  /** A group sits exactly between the smaller and the larger values. */
  lemma GroupCounts(ranked: seq<Entry>, cursor: nat, end: nat)
    requires IsGroup(ranked, cursor, end)
    ensures Below(ranked, ranked[cursor].0) == cursor && Ties(ranked, ranked[cursor].0) == end - cursor
  {
    hide Below, Ties;
    var x := ranked[cursor].0;
    var left, group, right := ranked[..cursor], ranked[cursor..end], ranked[end..];
    assert ranked == left + (group + right);
    CountsSplit(left, group + right, x);
    CountsSplit(group, right, x);
    CountsOfSmaller(left, x);
    CountsOfEqual(group, x);
    CountsOfLarger(right, x);
  }

  lemma GroupPercentile(entries: seq<Entry>, ranked: seq<Entry>, cursor: nat, end: nat)
    requires ranked == Sort(ByValueThenIndex(), entries) && |entries| >= 2 && IsGroup(ranked, cursor, end)
    ensures |ranked| == |entries| && AverageRank(cursor, end, |ranked|) == Percentile(entries, ranked[cursor].0)
  {
    hide AverageRank, MidRank, Below, Ties, Sort;
    GroupCounts(ranked, cursor, end);
    SortKeepsCounts(entries, ranked[cursor].0);
    AverageRankIsMidRank(cursor, end, |entries|);
  }

  // ----- the loop

  lemma {:induction false} FiniteIndexes(values: seq<Option<real>>)
    ensures forall e | e in Finite(values) :: e.1 < |values| && values[e.1] == Some(e.0)
    ensures forall i | 0 <= i < |values| && values[i].Some? :: (values[i].value, i) in Finite(values)
  {
    if values != [] {
      FiniteIndexes(values[..|values| - 1]);
    }
  }

  lemma RankedIndexes(values: seq<Option<real>>)
    ensures var ranked := Sort(ByValueThenIndex(), Finite(values));
            && (forall e | e in ranked :: e.1 < |values| && values[e.1] == Some(e.0))
            && (forall i | 0 <= i < |values| && values[i].Some? :: (values[i].value, i) in ranked)
            && (forall i, j | 0 <= i < j < |ranked| :: ranked[i].0 <= ranked[j].0)
            && |ranked| == |Finite(values)|
  {
    var entries := Finite(values);
    FiniteIndexes(values);
    EntryOrderIsTotal();
    SortSorts(ByValueThenIndex(), entries);
    SortKeepsCounts(entries, 0.0);
    forall e
      ensures e in Sort(ByValueThenIndex(), entries) <==> e in entries
    {
      SortKeepsMembers(ByValueThenIndex(), entries, e);
    }
    forall i, j | 0 <= i < j < |entries|
      ensures Sort(ByValueThenIndex(), entries)[i].0 <= Sort(ByValueThenIndex(), entries)[j].0
    {
      assert ByValueThenIndex()(Sort(ByValueThenIndex(), entries)[i], Sort(ByValueThenIndex(), entries)[j]);
    }
  }

  lemma EntryOrderIsTotal()
    ensures TotalPreorder(ByValueThenIndex())
  {
  }

  method EndOfGroup(ranked: seq<Entry>, cursor: nat) returns (end: nat)
    requires cursor < |ranked| && forall i, j | 0 <= i < j < |ranked| :: ranked[i].0 <= ranked[j].0
    ensures cursor < end <= |ranked|
    ensures forall i | cursor <= i < end :: ranked[i].0 == ranked[cursor].0
    ensures forall i | end <= i < |ranked| :: ranked[i].0 > ranked[cursor].0
  {
    end := cursor + 1;
    while end < |ranked| && ranked[end].0 == ranked[cursor].0
      invariant cursor < end <= |ranked|
      invariant forall i | cursor <= i < end :: ranked[i].0 == ranked[cursor].0
    {
      end := end + 1;
    }
  }

  /** The tie-grouping loop gives every finite value its percentile by definition, and nothing to the
      others, or to anything when fewer than two values are finite. */
  method AverageRankPercentiles(values: seq<Option<real>>) returns (result: seq<Option<real>>)
    ensures |result| == |values|
    ensures |Finite(values)| <= 1 ==> forall i | 0 <= i < |values| :: result[i] == None
    ensures |Finite(values)| >= 2 ==> forall i | 0 <= i < |values| ::
              result[i] == if values[i].Some? then Some(Percentile(Finite(values), values[i].value)) else None
  {
    var ranked := Sort(ByValueThenIndex(), Finite(values));
    RankedIndexes(values);
    result := seq(|values|, _ => None);
    var count := |ranked|;
    if count <= 1 {
      return;
    }
    hide Sort, Percentile, Finite;
    var cursor: nat := 0;
    while cursor < count
      invariant cursor <= count && |result| == |values|
      invariant forall i | 0 <= i < cursor < count :: ranked[i].0 < ranked[cursor].0
      invariant forall k | 0 <= k < cursor :: result[ranked[k].1] == Some(Percentile(Finite(values), ranked[k].0))
      invariant forall i | 0 <= i < |values| && values[i].None? :: result[i] == None
    {
      var end := EndOfGroup(ranked, cursor);
      GroupPercentile(Finite(values), ranked, cursor, end);
      result := WriteGroup(values, ranked, cursor, end, AverageRank(cursor, end, count), result);
      cursor := end;
    }
    forall i | 0 <= i < |values| && values[i].Some?
      ensures result[i] == Some(Percentile(Finite(values), values[i].value))
    {
      assert (values[i].value, i) in ranked;
    }
  }

  method WriteGroup(
    values: seq<Option<real>>, ranked: seq<Entry>, cursor: nat, end: nat, percentile: real, before: seq<Option<real>>)
    returns (result: seq<Option<real>>)
    requires cursor < end <= |ranked| && |before| == |values|
    requires forall e | e in ranked :: e.1 < |values| && values[e.1] == Some(e.0)
    requires forall k | 0 <= k < cursor :: ranked[k].0 < ranked[cursor].0
    requires forall k | cursor <= k < end :: ranked[k].0 == ranked[cursor].0
    ensures |result| == |values|
    ensures forall k | cursor <= k < end :: result[ranked[k].1] == Some(percentile)
    ensures forall i | 0 <= i < |values| && (values[i].None? || values[i].value != ranked[cursor].0) ::
              result[i] == before[i]
  {
    result := before;
    for k := cursor to end
      invariant |result| == |values|
      invariant forall n | cursor <= n < k :: result[ranked[n].1] == Some(percentile)
      invariant forall i | 0 <= i < |values| && (values[i].None? || values[i].value != ranked[cursor].0) ::
                  result[i] == before[i]
    {
      assert ranked[k] in ranked;
      result := result[ranked[k].1 := Some(percentile)];
    }
  }

  // ----- what ranks guarantee

  lemma PercentileIsOrdered(entries: seq<Entry>, low: Entry, high: Entry)
    requires |entries| >= 2 && low in entries && high in entries
    ensures 0.0 <= Percentile(entries, low.0) <= 1.0
    ensures low.0 < high.0 ==> Percentile(entries, low.0) < Percentile(entries, high.0)
    ensures low.0 == high.0 ==> Percentile(entries, low.0) == Percentile(entries, high.0)
  {
    CountsOf(entries, low.0);
    CountsOf(entries, high.0);
    MemberTies(entries, low);
    MemberTies(entries, high);
    if low.0 < high.0 {
      BelowGrows(entries, low.0, high.0);
    }
    hide Below, Ties;
    MidRankIsOrdered(Below(entries, low.0), Ties(entries, low.0), Below(entries, high.0), Ties(entries, high.0),
                     |entries|);
  }

  lemma MidRankIsOrdered(below: nat, ties: nat, below': nat, ties': nat, n: nat)
    requires n >= 2 && ties >= 1 && ties' >= 1 && below + ties <= n
    ensures 0.0 <= MidRank(below, ties, n) <= 1.0
    ensures below + ties <= below' ==> MidRank(below, ties, n) < MidRank(below', ties', n)
  {
    var scale := (n - 1) as real;
    var x := below as real + (ties as real - 1.0) / 2.0;
    var y := below' as real + (ties' as real - 1.0) / 2.0;
    assert 0.0 <= x <= scale;
    QuotientInUnit(x, scale);
    if x < y {
      QuotientStrictlyMonotone(x, y, scale);
    }
  }

  lemma QuotientInUnit(x: real, n: real)
    requires n > 0.0 && 0.0 <= x <= n
    ensures 0.0 <= x / n <= 1.0
  {
    QuotientIsMonotone(0.0, x, n);
    QuotientIsMonotone(x, n, n);
  }

  lemma QuotientStrictlyMonotone(x: real, y: real, n: real)
    requires x < y && n > 0.0
    ensures x / n < y / n
  {
    QuotientIsMonotone(x, y, n);
    DivideThenMultiply(x, n);
    DivideThenMultiply(y, n);
  }

  lemma {:induction false} MemberTies(entries: seq<Entry>, e: Entry)
    requires e in entries
    ensures Ties(entries, e.0) >= 1
  {
    if entries[0] != e {
      MemberTies(entries[1..], e);
    }
  }

  lemma {:induction false} BelowGrows(entries: seq<Entry>, low: real, high: real)
    requires low < high
    ensures Below(entries, high) >= Below(entries, low) + Ties(entries, low)
  {
    if entries != [] {
      BelowGrows(entries[1..], low, high);
    }
  }

  /** Twice the mid-rank position of x, counted over `entries`. */
  function Weight(entries: seq<Entry>, x: real): nat {
    2 * Below(entries, x) + Ties(entries, x)
  }

  function Weights(entries: seq<Entry>, of: seq<Entry>): nat {
    if of == [] then 0 else Weight(entries, of[0].0) + Weights(entries, of[1..])
  }

  /** Adding x to the list adds 2 to the weight of every larger member and 1 to every equal one. */
  lemma {:induction false} AddingOne(x: Entry, rest: seq<Entry>, of: seq<Entry>)
    ensures Weights([x] + rest, of) + 2 * Below(of, x.0) + Ties(of, x.0) == Weights(rest, of) + 2 * |of|
  {
    if of != [] {
      AddingOne(x, rest, of[1..]);
      assert ([x] + rest)[1..] == rest;
    }
  }

  /** Each pair of members contributes 2 and each member 1: the weights sum to the square. */
  lemma {:induction false} WeightsSumToSquare(entries: seq<Entry>)
    ensures Weights(entries, entries) == |entries| * |entries|
  {
    if entries != [] {
      hide Weights, Below, Ties;
      var x, rest := entries[0], entries[1..];
      assert entries == [x] + rest;
      WeightsSumToSquare(rest);
      AddingOne(x, rest, rest);
      CountingOneMore(x, rest);
      SquareOfNext(|rest|);
    }
  }

  lemma SquareOfNext(n: nat)
    ensures (n + 1) * (n + 1) == n * n + 2 * n + 1
  {
  }

  lemma CountingOneMore(x: Entry, rest: seq<Entry>)
    ensures Weights([x] + rest, [x] + rest) == 2 * Below(rest, x.0) + Ties(rest, x.0) + 1 + Weights([x] + rest, rest)
  {
    assert ([x] + rest)[1..] == rest;
  }

  function PercentileSum(entries: seq<Entry>, of: seq<Entry>): real
    requires |entries| >= 2
  {
    if of == [] then 0.0 else Percentile(entries, of[0].0) + PercentileSum(entries, of[1..])
  }

  lemma {:induction false} PercentilesAreHalfWeights(entries: seq<Entry>, of: seq<Entry>)
    requires |entries| >= 2
    ensures PercentileSum(entries, of) * (2 * (|entries| - 1)) as real == (Weights(entries, of) - |of|) as real
  {
    hide Percentile, Weight;
    var scale := (2 * (|entries| - 1)) as real;
    if of == [] {
      assert 0.0 * scale == 0.0;
    } else {
      PercentilesAreHalfWeights(entries, of[1..]);
      HalfWeight(entries, of[0].0);
      DistributeSum(Percentile(entries, of[0].0), PercentileSum(entries, of[1..]), scale);
    }
  }

  lemma DistributeSum(x: real, y: real, scale: real)
    ensures (x + y) * scale == x * scale + y * scale
  {
  }

  lemma HalfWeight(entries: seq<Entry>, x: real)
    requires |entries| >= 2
    ensures Percentile(entries, x) * (2 * (|entries| - 1)) as real == (Weight(entries, x) - 1) as real
  {
    hide Below, Ties;
    HalfMidRank(Below(entries, x), Ties(entries, x), |entries|);
  }

  lemma HalfMidRank(below: nat, ties: nat, n: nat)
    requires n >= 2
    ensures MidRank(below, ties, n) * (2 * (n - 1)) as real == (2 * below + ties - 1) as real
  {
    var scale := (n - 1) as real;
    var mid := below as real + (ties as real - 1.0) / 2.0;
    DivideThenMultiply(mid, scale);
    assert (2 * (n - 1)) as real == scale + scale;
    DistributeFactor(mid / scale, scale);
  }

  lemma DistributeFactor(x: real, n: real)
    ensures x * (n + n) == x * n + x * n
  {
  }

  /** The percentiles of any two or more values, ties included, sum to half their number. */
  lemma PercentilesSumToHalf(entries: seq<Entry>)
    requires |entries| >= 2
    ensures PercentileSum(entries, entries) == |entries| as real / 2.0
  {
    hide PercentileSum, Weights;
    WeightsSumToSquare(entries);
    PercentilesAreHalfWeights(entries, entries);
    HalfOfSquare(PercentileSum(entries, entries), |entries|);
  }

  lemma HalfOfSquare(sum: real, n: nat)
    requires n >= 2 && sum * (2 * (n - 1)) as real == (n * n - n) as real
    ensures sum == n as real / 2.0
  {
    FactorOut(n);
    HalfProduct(n);
    SameProduct(sum, n as real / 2.0, (2 * (n - 1)) as real);
  }

  lemma FactorOut(n: int)
    ensures n * n - n == n * (n - 1)
  {
  }

  lemma HalfProduct(n: nat)
    ensures (n * (n - 1)) as real == n as real / 2.0 * (2 * (n - 1)) as real
  {
    assert (2 * (n - 1)) as real == 2.0 * (n - 1) as real;
    assert n as real / 2.0 * (2.0 * (n - 1) as real) == n as real * (n - 1) as real;
  }

  lemma SameProduct(x: real, y: real, scale: real)
    requires scale > 0.0 && x * scale == y * scale
    ensures x == y
  {
    assert (x - y) * scale == 0.0;
  }
}
