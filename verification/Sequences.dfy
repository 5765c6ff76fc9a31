/** Stable sorting and filtering of lists, as the data code uses `sorted` and comprehensions. */
module Sequences {
  function Filter<T>(p: T -> bool, xs: seq<T>): (r: seq<T>)
    ensures forall x | x in r :: x in xs && p(x)
  {
    if xs == [] then []
    else if p(xs[0]) then [xs[0]] + Filter(p, xs[1..])
    else Filter(p, xs[1..])
  }

  /** Before every element it may precede: equal keys keep their order. */
  function Insert<T>(before: (T, T) -> bool, x: T, ys: seq<T>): seq<T> {
    if ys == [] || before(x, ys[0]) then [x] + ys else [ys[0]] + Insert(before, x, ys[1..])
  }

  function Sort<T>(before: (T, T) -> bool, xs: seq<T>): seq<T> {
    if xs == [] then [] else Insert(before, xs[0], Sort(before, xs[1..]))
  }

  ghost predicate TotalPreorder<T(!new)>(before: (T, T) -> bool) {
    && (forall x, y :: before(x, y) || before(y, x))
    && (forall x, y, z :: before(x, y) && before(y, z) ==> before(x, z))
  }

  ghost predicate Sorted<T>(before: (T, T) -> bool, xs: seq<T>) {
    forall i, j | 0 <= i < j < |xs| :: before(xs[i], xs[j])
  }

  lemma {:induction false} InsertKeepsSorted<T(!new)>(before: (T, T) -> bool, x: T, ys: seq<T>)
    requires TotalPreorder(before) && Sorted(before, ys)
    ensures Sorted(before, Insert(before, x, ys))
    ensures multiset(Insert(before, x, ys)) == multiset([x]) + multiset(ys)
  {
    if ys == [] {
    } else if before(x, ys[0]) {
      assert multiset([x] + ys) == multiset([x]) + multiset(ys);
    } else {
      InsertKeepsSorted(before, x, ys[1..]);
      var rest := Insert(before, x, ys[1..]);
      assert ys == [ys[0]] + ys[1..];
      forall j | 0 <= j < |rest|
        ensures before(ys[0], rest[j])
      {
        assert rest[j] in multiset(rest);
        assert rest[j] == x || rest[j] in ys[1..];
      }
    }
  }

  /** Sorting orders the list and permutes it. */
  lemma {:induction false} SortSorts<T(!new)>(before: (T, T) -> bool, xs: seq<T>)
    requires TotalPreorder(before)
    ensures Sorted(before, Sort(before, xs)) && multiset(Sort(before, xs)) == multiset(xs)
  {
    if xs != [] {
      SortSorts(before, xs[1..]);
      InsertKeepsSorted(before, xs[0], Sort(before, xs[1..]));
      assert xs == [xs[0]] + xs[1..];
    }
  }

  lemma SortKeepsMembers<T(!new)>(before: (T, T) -> bool, xs: seq<T>, x: T)
    requires TotalPreorder(before)
    ensures x in Sort(before, xs) <==> x in xs
  {
    SortSorts(before, xs);
    assert x in Sort(before, xs) <==> x in multiset(Sort(before, xs));
    assert x in xs <==> x in multiset(xs);
  }

  lemma FilterHead<T>(p: T -> bool, x: T, xs: seq<T>)
    ensures Filter(p, [x] + xs) == if p(x) then [x] + Filter(p, xs) else Filter(p, xs)
  {
    assert ([x] + xs)[1..] == xs;
  }

  lemma {:induction false} FilterCommutesWithInsert<T(!new)>(p: T -> bool, before: (T, T) -> bool, x: T, ys: seq<T>)
    requires TotalPreorder(before) && Sorted(before, ys)
    ensures Filter(p, Insert(before, x, ys))
            == if p(x) then Insert(before, x, Filter(p, ys)) else Filter(p, ys)
  {
    if ys == [] {
      FilterHead(p, x, []);
    } else if before(x, ys[0]) {
      FilterHead(p, x, ys);
      var kept := Filter(p, ys);
      if kept != [] {
        assert kept[0] in ys;
        assert before(x, kept[0]);
      }
    } else {
      FilterCommutesWithInsert(p, before, x, ys[1..]);
      FilterHead(p, ys[0], Insert(before, x, ys[1..]));
      if p(ys[0]) {
        var kept := Filter(p, ys);
        assert kept == [ys[0]] + Filter(p, ys[1..]);
        assert kept[1..] == Filter(p, ys[1..]);
      }
    }
  }

  /** Sorting what was kept is keeping from what was sorted. */
  lemma {:induction false} FilterCommutesWithSort<T(!new)>(p: T -> bool, before: (T, T) -> bool, xs: seq<T>)
    requires TotalPreorder(before)
    ensures Filter(p, Sort(before, xs)) == Sort(before, Filter(p, xs))
  {
    if xs != [] {
      FilterCommutesWithSort(p, before, xs[1..]);
      SortSorts(before, xs[1..]);
      FilterCommutesWithInsert(p, before, xs[0], Sort(before, xs[1..]));
      var kept := Filter(p, xs[1..]);
      assert ([xs[0]] + kept)[1..] == kept;
    }
  }

  /** Filtering first by something weaker changes nothing. */
  lemma {:induction false} WeakerFilterFirst<T>(strong: T -> bool, weak: T -> bool, xs: seq<T>)
    requires forall x | x in xs && strong(x) :: weak(x)
    ensures Filter(strong, Filter(weak, xs)) == Filter(strong, xs)
  {
    if xs != [] {
      WeakerFilterFirst(strong, weak, xs[1..]);
      if weak(xs[0]) {
        FilterHead(strong, xs[0], Filter(weak, xs[1..]));
      }
    }
  }

  lemma {:induction false} SameFilter<T>(p: T -> bool, q: T -> bool, xs: seq<T>)
    requires forall x | x in xs :: p(x) == q(x)
    ensures Filter(p, xs) == Filter(q, xs)
  {
    if xs != [] {
      SameFilter(p, q, xs[1..]);
    }
  }

  lemma {:induction false} FilterKeepsAll<T>(p: T -> bool, xs: seq<T>)
    requires forall x | x in xs :: p(x)
    ensures Filter(p, xs) == xs
  {
    if xs != [] {
      FilterKeepsAll(p, xs[1..]);
    }
  }
}
