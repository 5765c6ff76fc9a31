/** The overlap check over collected intervals: one sorted pass with a maximum end per scope. */
module CollectionSweep {
  import opened Base
  import opened Sequences

  /** `All` is the wildcard scope "*"; it sorts before every security code. */
  datatype Scope = All | Security(id: Id)

  datatype Interval = Interval(start: Date, end: Date, scope: Scope)

  predicate Compatible(a: Interval, b: Interval) {
    a.scope == b.scope || a.scope == All || b.scope == All
  }

  predicate Clash(a: Interval, b: Interval) {
    Compatible(a, b) && a.start <= b.end && b.start <= a.end
  }

  /** Two different entries of the list conflict. */
  ghost predicate SomePairClashes(xs: seq<Interval>) {
    exists i, j :: 0 <= i < j < |xs| && Clash(xs[i], xs[j])
  }

  predicate ScopeBefore(a: Scope, b: Scope) {
    a == All || (b != All && a.id <= b.id)
  }

  function ByStartEndScope(): (Interval, Interval) -> bool {
    (x: Interval, y: Interval) =>
      if x.start != y.start then x.start < y.start
      else if x.end != y.end then x.end < y.end
      else ScopeBefore(x.scope, y.scope)
  }

  type Ends = map<Scope, Date>

  predicate Reaches(ends: Ends, scope: Scope, start: Date) {
    scope in ends && ends[scope] >= start
  }

  /** Does some relevant end reach this start? */
  predicate Blocked(ends: Ends, x: Interval) {
    if x.scope == All then exists scope | scope in ends :: ends[scope] >= x.start
    else Reaches(ends, All, x.start) || Reaches(ends, x.scope, x.start)
  }

  function Extended(ends: Ends, x: Interval): Ends {
    ends[x.scope := if x.scope in ends then Max(x.end, ends[x.scope]) else x.end]
  }

  /** `ends` holds the largest end of each scope among `done`. */
  ghost predicate Largest(ends: Ends, done: seq<Interval>) {
    && (forall x | x in done :: x.scope in ends && x.end <= ends[x.scope])
    && (forall scope | scope in ends :: exists x :: x in done && x.scope == scope && x.end == ends[scope])
  }

  lemma ExtendedIsLargest(ends: Ends, done: seq<Interval>, x: Interval)
    requires Largest(ends, done)
    ensures Largest(Extended(ends, x), done + [x])
  {
    var next := Extended(ends, x);
    forall scope | scope in next
      ensures exists y :: y in done + [x] && y.scope == scope && y.end == next[scope]
    {
      if scope == x.scope && next[scope] == x.end {
        assert x in done + [x];
      } else {
        var y :| y in done && y.scope == scope && y.end == ends[scope];
        assert y in done + [x];
      }
    }
  }

  /** In start order, being blocked is clashing with something before. */
  lemma BlockedIsAClash(ends: Ends, done: seq<Interval>, x: Interval)
    requires Largest(ends, done) && x.start <= x.end
    requires forall y | y in done :: y.start <= x.start
    ensures Blocked(ends, x) <==> exists y :: y in done && Clash(y, x)
  {
    if Blocked(ends, x) {
      var scope :| scope in ends && ends[scope] >= x.start && (x.scope == All || scope == All || scope == x.scope);
      var y :| y in done && y.scope == scope && y.end == ends[scope];
      assert Clash(y, x);
    }
    if y :| y in done && Clash(y, x) {
      assert ends[y.scope] >= x.start;
    }
  }

  lemma ClashesAppend(done: seq<Interval>, x: Interval)
    ensures SomePairClashes(done + [x]) <==> SomePairClashes(done) || exists y :: y in done && Clash(y, x)
  {
    var longer := done + [x];
    if SomePairClashes(longer) && !SomePairClashes(done) {
      var i, j :| 0 <= i < j < |longer| && Clash(longer[i], longer[j]);
      assert j == |done| && longer[i] == done[i];
    }
    if SomePairClashes(done) {
      var i, j :| 0 <= i < j < |done| && Clash(done[i], done[j]);
      assert longer[i] == done[i] && longer[j] == done[j];
    }
    if y :| y in done && Clash(y, x) {
      var i :| 0 <= i < |done| && done[i] == y;
      assert Clash(longer[i], longer[|done|]);
    }
  }

  lemma ClashesPrepend(x: Interval, rest: seq<Interval>)
    ensures SomePairClashes([x] + rest) <==> SomePairClashes(rest) || exists y :: y in rest && Clash(x, y)
  {
    var longer := [x] + rest;
    if SomePairClashes(longer) {
      var i, j :| 0 <= i < j < |longer| && Clash(longer[i], longer[j]);
      assert longer[j] == rest[j - 1];
      if i > 0 {
        assert Clash(rest[i - 1], rest[j - 1]);
      }
    }
    if SomePairClashes(rest) {
      var i, j :| 0 <= i < j < |rest| && Clash(rest[i], rest[j]);
      assert longer[i + 1] == rest[i] && longer[j + 1] == rest[j];
    }
    if y :| y in rest && Clash(x, y) {
      var j :| 0 <= j < |rest| && rest[j] == y;
      assert Clash(longer[0], longer[j + 1]);
    }
  }

  lemma StartOrderIsTotal()
    ensures TotalPreorder(ByStartEndScope())
  {
  }

  lemma {:induction false} InsertKeepsClashes(x: Interval, ys: seq<Interval>)
    ensures SomePairClashes(Insert(ByStartEndScope(), x, ys)) <==> SomePairClashes([x] + ys)
    ensures forall z :: z in Insert(ByStartEndScope(), x, ys) <==> z == x || z in ys
  {
    if ys != [] && !ByStartEndScope()(x, ys[0]) {
      InsertKeepsClashes(x, ys[1..]);
      var rest := Insert(ByStartEndScope(), x, ys[1..]);
      ClashesPrepend(ys[0], rest);
      ClashesPrepend(x, ys);
      ClashesPrepend(x, ys[1..]);
      ClashesPrepend(ys[0], ys[1..]);
      assert ys == [ys[0]] + ys[1..];
      assert Clash(x, ys[0]) <==> Clash(ys[0], x);
    }
  }

  lemma {:induction false} SortKeepsClashes(xs: seq<Interval>)
    ensures SomePairClashes(Sort(ByStartEndScope(), xs)) <==> SomePairClashes(xs)
    ensures forall z :: z in Sort(ByStartEndScope(), xs) <==> z in xs
  {
    if xs != [] {
      var rest := Sort(ByStartEndScope(), xs[1..]);
      SortKeepsClashes(xs[1..]);
      InsertKeepsClashes(xs[0], rest);
      ClashesPrepend(xs[0], rest);
      ClashesPrepend(xs[0], xs[1..]);
      assert xs == [xs[0]] + xs[1..];
    }
  }

  /** The pass reports a conflict exactly when some two entries of the list, in any order, have
      compatible scopes and share a day. */
  method ReportsConflict(intervals: seq<Interval>) returns (conflict: bool)
    requires forall x | x in intervals :: x.start <= x.end
    ensures conflict <==> SomePairClashes(intervals)
  {
    var ordered := Sort(ByStartEndScope(), intervals);
    SortSortsIntervals(intervals);
    SortKeepsClashes(intervals);
    hide Sort, SomePairClashes, Blocked, Extended;
    NothingClashesWithNothing();
    assert ordered[..0] == [];
    var ends: Ends := map[];
    for i := 0 to |ordered|
      invariant Largest(ends, ordered[..i])
      invariant !SomePairClashes(ordered[..i])
    {
      var x := ordered[i];
      assert ordered[..i + 1] == ordered[..i] + [x];
      assert x in ordered;
      EarlierStartsFirst(ordered, i);
      BlockedIsAClash(ends, ordered[..i], x);
      ClashesAppend(ordered[..i], x);
      if Blocked(ends, x) {
        ClashInPrefix(ordered, i + 1);
        return true;
      }
      ExtendedIsLargest(ends, ordered[..i], x);
      ends := Extended(ends, x);
    }
    assert ordered[..|ordered|] == ordered;
    return false;
  }

  lemma SortSortsIntervals(intervals: seq<Interval>)
    ensures Sorted(ByStartEndScope(), Sort(ByStartEndScope(), intervals))
  {
    StartOrderIsTotal();
    SortSorts(ByStartEndScope(), intervals);
  }

  lemma EarlierStartsFirst(ordered: seq<Interval>, i: nat)
    requires i < |ordered| && Sorted(ByStartEndScope(), ordered)
    ensures forall y | y in ordered[..i] :: y.start <= ordered[i].start
  {
    forall y | y in ordered[..i]
      ensures y.start <= ordered[i].start
    {
      var k :| 0 <= k < i && ordered[k] == y;
      assert ByStartEndScope()(ordered[k], ordered[i]);
    }
  }

  lemma NothingClashesWithNothing()
    ensures !SomePairClashes([])
  {
  }

  lemma ClashInPrefix(xs: seq<Interval>, n: nat)
    requires n <= |xs| && SomePairClashes(xs[..n])
    ensures SomePairClashes(xs)
  {
    var i, j :| 0 <= i < j < n && Clash(xs[..n][i], xs[..n][j]);
    assert Clash(xs[i], xs[j]);
  }
}
