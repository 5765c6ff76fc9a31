/** Weekly holdings with hysteresis: who stays, who enters, and how old each holding is. */
module Holdings {
  import opened Base
  import opened Sequences

  datatype Holding = Holding(id: Id, age: nat)

  datatype Rules = Rules(targetCount: nat, entryRank: nat, exitRank: nat, minWeeks: nat, maxWeeks: nat)

  ghost predicate Distinct(ids: seq<Id>) {
    forall i, j | 0 <= i < j < |ids| :: ids[i] != ids[j]
  }

  ghost predicate DistinctIds(holdings: seq<Holding>) {
    forall i, j | 0 <= i < j < |holdings| :: holdings[i].id != holdings[j].id
  }

  ghost predicate Holds(holdings: seq<Holding>, id: Id) {
    exists k | 0 <= k < |holdings| :: holdings[k].id == id
  }

  /** One-based rank; one past the end for a name that is not ranked. */
  function Rank(ranked: seq<Id>, id: Id): (r: nat)
    ensures 1 <= r <= |ranked| + 1
    ensures id in ranked <==> r <= |ranked|
    ensures id in ranked ==> ranked[r - 1] == id
  {
    if ranked == [] || ranked[0] == id then 1 else 1 + Rank(ranked[1..], id)
  }

  predicate Stays(rules: Rules, ranked: seq<Id>, prior: Holding) {
    var rank := Rank(ranked, prior.id);
    && prior.id in ranked
    && (|| prior.age < rules.minWeeks
        || (prior.age < rules.maxWeeks && rank <= rules.exitRank)
        || (prior.age >= rules.maxWeeks && rank <= rules.entryRank))
  }

  /** A holding carried over from the week before, one week older. */
  ghost predicate Carried(rules: Rules, ranked: seq<Id>, previous: seq<Holding>, h: Holding) {
    h.age >= 1 && Holding(h.id, h.age - 1) in previous && Stays(rules, ranked, Holding(h.id, h.age - 1))
  }

  /** A name allowed in by its rank that was not held the week before. */
  ghost predicate Entered(rules: Rules, ranked: seq<Id>, previous: seq<Holding>, h: Holding) {
    h.age == 1 && h.id in ranked && Rank(ranked, h.id) <= rules.entryRank && !Holds(previous, h.id)
  }

  function ByRank(ranked: seq<Id>): (Holding, Holding) -> bool {
    (x: Holding, y: Holding) => Rank(ranked, x.id) <= Rank(ranked, y.id)
  }

  ghost predicate InRankOrder(ranked: seq<Id>, holdings: seq<Holding>) {
    forall i, j | 0 <= i < j < |holdings| :: Rank(ranked, holdings[i].id) < Rank(ranked, holdings[j].id)
  }

  lemma {:induction false} RankAt(ranked: seq<Id>, k: nat)
    requires Distinct(ranked) && k < |ranked|
    ensures Rank(ranked, ranked[k]) == k + 1
  {
    var r := Rank(ranked, ranked[k]);
    assert ranked[r - 1] == ranked[k];
  }

  /** A name near enough to enter is near enough to stay, whatever its age. */
  lemma EntryRankStays(rules: Rules, ranked: seq<Id>, prior: Holding)
    requires rules.entryRank <= rules.exitRank && prior.id in ranked && Rank(ranked, prior.id) <= rules.entryRank
    ensures Stays(rules, ranked, prior)
  {
  }

  method Retain(ranked: seq<Id>, previous: seq<Holding>, rules: Rules) returns (retained: seq<Holding>)
    requires DistinctIds(previous)
    ensures DistinctIds(retained)
    ensures forall h :: h in retained <==> Carried(rules, ranked, previous, h)
  {
    hide Stays;
    retained := [];
    for i := 0 to |previous|
      invariant DistinctIds(retained)
      invariant forall h | h in retained :: exists k | 0 <= k < i :: h == Holding(previous[k].id, previous[k].age + 1)
      invariant forall h :: h in retained <==> Carried(rules, ranked, previous[..i], h)
    {
      var prior := previous[i];
      assert previous[..i + 1] == previous[..i] + [prior];
      if Stays(rules, ranked, prior) {
        assert forall h | h in retained :: h.id != prior.id;
        retained := retained + [Holding(prior.id, prior.age + 1)];
      }
    }
    assert previous[..|previous|] == previous;
  }

  lemma SortByRank(ranked: seq<Id>, holdings: seq<Holding>)
    requires Distinct(ranked) && DistinctIds(holdings) && forall h | h in holdings :: h.id in ranked
    ensures var sorted := Sort(ByRank(ranked), holdings);
            && |sorted| == |holdings| && InRankOrder(ranked, sorted) && DistinctIds(sorted)
            && forall h :: h in sorted <==> h in holdings
  {
    hide Rank, Sort, InRankOrder, DistinctIds, Sorted;
    var sorted := Sort(ByRank(ranked), holdings);
    SortSorts(ByRank(ranked), holdings);
    forall h
      ensures h in sorted <==> h in holdings
    {
      SortKeepsMembers(ByRank(ranked), holdings, h);
    }
    SortedByRank(ranked, holdings, sorted);
  }

  lemma SortedByRank(ranked: seq<Id>, holdings: seq<Holding>, sorted: seq<Holding>)
    requires Sorted(ByRank(ranked), sorted) && multiset(holdings) == multiset(sorted) && DistinctIds(holdings)
    requires forall h | h in sorted :: h.id in ranked
    ensures |sorted| == |holdings| && InRankOrder(ranked, sorted) && DistinctIds(sorted)
  {
    hide Rank, DistinctIds;
    assert |multiset(sorted)| == |multiset(holdings)|;
    forall i, j | 0 <= i < j < |sorted|
      ensures Rank(ranked, sorted[i].id) < Rank(ranked, sorted[j].id)
    {
      assert ByRank(ranked)(sorted[i], sorted[j]);
      SortedIdsDiffer(holdings, sorted, i, j);
      RanksDiffer(ranked, sorted[i].id, sorted[j].id);
    }
    RankOrderIsDistinct(ranked, sorted);
  }

  lemma RanksDiffer(ranked: seq<Id>, x: Id, y: Id)
    requires x in ranked && x != y
    ensures Rank(ranked, x) != Rank(ranked, y)
  {
    hide Rank;
  }

  lemma SortedIdsDiffer(holdings: seq<Holding>, sorted: seq<Holding>, i: nat, j: nat)
    requires multiset(holdings) == multiset(sorted) && DistinctIds(holdings) && i < j < |sorted|
    ensures sorted[i].id != sorted[j].id
  {
    if sorted[i] == sorted[j] {
      OccursTwice(sorted, i, j);
      DistinctOccursOnce(holdings, sorted[i]);
    } else {
      assert sorted[i] in multiset(holdings) && sorted[j] in multiset(holdings);
    }
  }

  lemma OccursTwice(holdings: seq<Holding>, i: nat, j: nat)
    requires i < j < |holdings| && holdings[i] == holdings[j]
    ensures multiset(holdings)[holdings[i]] >= 2
  {
    assert holdings == holdings[..j] + holdings[j..];
    assert holdings[i] in holdings[..j] && holdings[i] in holdings[j..];
  }

  lemma {:induction false} DistinctOccursOnce(holdings: seq<Holding>, h: Holding)
    requires DistinctIds(holdings)
    ensures multiset(holdings)[h] <= 1
  {
    if holdings != [] {
      assert holdings == [holdings[0]] + holdings[1..];
      DistinctOccursOnce(holdings[1..], h);
      if holdings[0] == h {
        assert h !in holdings[1..];
      }
    }
  }

  /** The entry loop: fills free slots from the front of the ranking and stops at the entry rank. */
  method Fill(ranked: seq<Id>, rules: Rules, kept: seq<Holding>) returns (held: seq<Holding>)
    requires Distinct(ranked) && DistinctIds(kept) && |kept| <= rules.targetCount
    ensures |kept| <= |held| <= rules.targetCount && DistinctIds(held) && held[..|kept|] == kept
    ensures forall k | |kept| <= k < |held| ::
              held[k].age == 1 && held[k].id in ranked && Rank(ranked, held[k].id) <= rules.entryRank
    ensures forall id | id in ranked && Rank(ranked, id) <= rules.entryRank && !Holds(held, id) ::
              |held| == rules.targetCount
              && forall k | |kept| <= k < |held| :: Rank(ranked, held[k].id) < Rank(ranked, id)
  {
    hide Rank;
    held := kept;
    var i := 0;
    while i < |ranked| && !(|held| >= rules.targetCount || Rank(ranked, ranked[i]) > rules.entryRank)
      invariant 0 <= i <= |ranked| && |kept| <= |held| <= rules.targetCount && DistinctIds(held)
      invariant held[..|kept|] == kept
      invariant forall k | |kept| <= k < |held| ::
                  held[k].age == 1 && held[k].id in ranked && Rank(ranked, held[k].id) <= rules.entryRank
                  && Rank(ranked, held[k].id) <= i
      invariant forall k | 0 <= k < i :: Holds(held, ranked[k])
    {
      RankAt(ranked, i);
      if !HasId(held, ranked[i]) {
        ghost var before := held;
        held := held + [Holding(ranked[i], 1)];
        assert held[|before|].id == ranked[i];
        assert forall k | 0 <= k < |before| :: held[k] == before[k];
      }
      i := i + 1;
    }
    forall id | id in ranked && Rank(ranked, id) <= rules.entryRank && !Holds(held, id)
      ensures Rank(ranked, id) > i && |held| == rules.targetCount
    {
      if i < |ranked| {
        RankAt(ranked, i);
      }
    }
  }

  predicate HasId(holdings: seq<Holding>, id: Id)
    ensures HasId(holdings, id) <==> Holds(holdings, id)
  {
    holdings != [] && (holdings[0].id == id || HasId(holdings[1..], id))
  }

  /** Who may be held, and at what age; and nobody is passed over except for names with a better claim:
      those carried over before newcomers, and better ranks first. */
  ghost predicate Fair(rules: Rules, ranked: seq<Id>, previous: seq<Holding>, held: seq<Holding>) {
    && (forall h | h in held :: Carried(rules, ranked, previous, h) || Entered(rules, ranked, previous, h))
    && (forall h | Carried(rules, ranked, previous, h) && h !in held ::
          |held| == rules.targetCount
          && forall g | g in held :: Carried(rules, ranked, previous, g) && Rank(ranked, g.id) < Rank(ranked, h.id))
    && (forall id | id in ranked && Rank(ranked, id) <= rules.entryRank && !Holds(held, id) ::
          |held| == rules.targetCount
          && forall g | g in held :: Carried(rules, ranked, previous, g) || Rank(ranked, g.id) < Rank(ranked, id))
  }

  /** The weekly selection, in rank order and never above the target count. */
  method SelectHoldings(ranked: seq<Id>, previous: seq<Holding>, rules: Rules) returns (held: seq<Holding>)
    requires Distinct(ranked) && DistinctIds(previous) && rules.entryRank < rules.exitRank
    ensures |held| <= rules.targetCount && InRankOrder(ranked, held)
    ensures Fair(rules, ranked, previous, held)
  {
    hide Rank, Sort, Fair, Carried;
    var retained := Retain(ranked, previous, rules);
    CarriedAreRanked(ranked, previous, rules, retained);
    SortByRank(ranked, retained);
    var sorted := Sort(ByRank(ranked), retained);
    var kept := if |sorted| <= rules.targetCount then sorted else sorted[..rules.targetCount];
    var filled := Fill(ranked, rules, kept);
    FilledIsFair(ranked, previous, rules, sorted, kept, filled);
    CarriedAreRanked(ranked, previous, rules, sorted);
    FilledAreRanked(ranked, sorted, kept, filled);
    SortByRank(ranked, filled);
    held := Sort(ByRank(ranked), filled);
    FairInAnyOrder(rules, ranked, previous, filled, held);
  }

  lemma CarriedAreRanked(ranked: seq<Id>, previous: seq<Holding>, rules: Rules, retained: seq<Holding>)
    requires forall h | h in retained :: Carried(rules, ranked, previous, h)
    ensures forall h | h in retained :: h.id in ranked
  {
  }

  lemma FilledAreRanked(ranked: seq<Id>, sorted: seq<Holding>, kept: seq<Holding>, filled: seq<Holding>)
    requires |kept| <= |sorted| && kept == sorted[..|kept|] && |kept| <= |filled| && filled[..|kept|] == kept
    requires forall h | h in sorted :: h.id in ranked
    requires forall k | |kept| <= k < |filled| :: filled[k].id in ranked
    ensures forall h | h in filled :: h.id in ranked
  {
    forall k | 0 <= k < |filled|
      ensures filled[k].id in ranked
    {
      if k < |kept| {
        assert filled[k] == sorted[k];
      }
    }
  }

  lemma FairInAnyOrder(rules: Rules, ranked: seq<Id>, previous: seq<Holding>, filled: seq<Holding>, held: seq<Holding>)
    requires Fair(rules, ranked, previous, filled) && |held| == |filled| && forall h :: h in held <==> h in filled
    ensures Fair(rules, ranked, previous, held)
  {
    hide Rank, Carried, Entered;
    forall id | Holds(filled, id)
      ensures Holds(held, id)
    {
      var k :| 0 <= k < |filled| && filled[k].id == id;
      assert filled[k] in held;
    }
  }

  lemma FilledIsFair(ranked: seq<Id>, previous: seq<Holding>, rules: Rules, sorted: seq<Holding>,
                     kept: seq<Holding>, filled: seq<Holding>)
    requires rules.entryRank < rules.exitRank && InRankOrder(ranked, sorted)
    requires forall h :: h in sorted <==> Carried(rules, ranked, previous, h)
    requires kept == if |sorted| <= rules.targetCount then sorted else sorted[..rules.targetCount]
    requires |kept| <= |filled| <= rules.targetCount && DistinctIds(filled) && filled[..|kept|] == kept
    requires forall k | |kept| <= k < |filled| ::
               filled[k].age == 1 && filled[k].id in ranked && Rank(ranked, filled[k].id) <= rules.entryRank
    requires forall id | id in ranked && Rank(ranked, id) <= rules.entryRank && !Holds(filled, id) ::
               |filled| == rules.targetCount
               && forall k | |kept| <= k < |filled| :: Rank(ranked, filled[k].id) < Rank(ranked, id)
    ensures Fair(rules, ranked, previous, filled)
  {
    hide Rank, Carried;
    forall k | 0 <= k < |filled|
      ensures if k < |kept| then Carried(rules, ranked, previous, filled[k])
              else Entered(rules, ranked, previous, filled[k])
    {
      if k < |kept| {
        assert filled[k] == kept[k] && kept[k] in sorted;
      } else {
        NewcomerWasNotHeld(ranked, previous, rules, filled, |kept|, k);
      }
    }
    forall h | Carried(rules, ranked, previous, h) && h !in filled
      ensures |filled| == rules.targetCount
      ensures forall g | g in filled :: Carried(rules, ranked, previous, g) && Rank(ranked, g.id) < Rank(ranked, h.id)
    {
      DroppedForBetterRanks(ranked, rules, sorted, kept, filled, h);
    }
  }

  lemma DroppedForBetterRanks(ranked: seq<Id>, rules: Rules, sorted: seq<Holding>, kept: seq<Holding>,
                              filled: seq<Holding>, h: Holding)
    requires InRankOrder(ranked, sorted) && h in sorted && h !in filled
    requires kept == if |sorted| <= rules.targetCount then sorted else sorted[..rules.targetCount]
    requires |kept| <= |filled| <= rules.targetCount && filled[..|kept|] == kept
    ensures |filled| == |kept| == rules.targetCount
    ensures forall g | g in filled :: g in sorted && Rank(ranked, g.id) < Rank(ranked, h.id)
  {
    hide Rank;
    assert forall i | 0 <= i < |kept| :: filled[i] == sorted[i] && filled[i] in filled;
    var j :| 0 <= j < |sorted| && sorted[j] == h;
    assert filled == kept;
  }

  lemma OlderIsCarried(rules: Rules, ranked: seq<Id>, previous: seq<Holding>, prior: Holding)
    requires prior in previous && Stays(rules, ranked, prior)
    ensures Carried(rules, ranked, previous, Holding(prior.id, prior.age + 1))
  {
    assert Holding(prior.id, prior.age + 1 - 1) == prior;
  }

  /** Once everyone carried over fits, a name in a filled slot cannot have been held before: at that
      rank it would have stayed. */
  lemma NewcomerWasNotHeld(ranked: seq<Id>, previous: seq<Holding>, rules: Rules, filled: seq<Holding>, kept: nat,
      k: nat)
    requires rules.entryRank < rules.exitRank && DistinctIds(filled) && kept <= k < |filled|
    requires forall h | Carried(rules, ranked, previous, h) :: h in filled[..kept]
    requires filled[k].id in ranked && Rank(ranked, filled[k].id) <= rules.entryRank
    ensures !Holds(previous, filled[k].id)
  {
    hide Rank, Stays, Carried;
    if Holds(previous, filled[k].id) {
      var j :| 0 <= j < |previous| && previous[j].id == filled[k].id;
      EntryRankStays(rules, ranked, previous[j]);
      OlderIsCarried(rules, ranked, previous, previous[j]);
    }
  }

  /** The point of the age: a name held last week and still held is exactly one week older. */
  lemma AgesNeverReset(rules: Rules, ranked: seq<Id>, previous: seq<Holding>, held: seq<Holding>, h: Holding,
      prior: Holding)
    requires Fair(rules, ranked, previous, held) && DistinctIds(previous)
    requires h in held && prior in previous && prior.id == h.id
    ensures h.age == prior.age + 1
  {
    hide Rank, Stays;
    var j :| 0 <= j < |previous| && previous[j] == prior;
    assert Holds(previous, h.id);
  }

  // ----- the clauses leave no choice

  lemma {:induction false} DistinctFillTheirSet(holdings: seq<Holding>)
    requires DistinctIds(holdings)
    ensures |set h | h in holdings| == |holdings|
  {
    if holdings != [] {
      var last := holdings[|holdings| - 1];
      var rest := holdings[..|holdings| - 1];
      DistinctFillTheirSet(rest);
      assert (set h | h in holdings) == (set h | h in rest) + {last};
      assert last !in rest;
    }
  }

  lemma OutsiderExists(left: seq<Holding>, right: seq<Holding>, h: Holding) returns (g: Holding)
    requires DistinctIds(left) && DistinctIds(right) && |left| <= |right| && h in left && h !in right
    ensures g in right && g !in left
  {
    DistinctFillTheirSet(left);
    DistinctFillTheirSet(right);
    var all, other := (set x | x in left), (set x | x in right);
    if forall x | x in other :: x in left {
      SubsetIsSmaller(other, all - {h});
      assert false;
    }
    g :| g in other && g !in left;
  }

  lemma {:induction false} SubsetIsSmaller(small: set<Holding>, large: set<Holding>)
    requires small <= large
    ensures |small| <= |large|
  {
    assert large == small + (large - small);
  }

  lemma FairHoldsTheSame(rules: Rules, ranked: seq<Id>, previous: seq<Holding>,
                         left: seq<Holding>, right: seq<Holding>, h: Holding)
    requires Fair(rules, ranked, previous, left) && Fair(rules, ranked, previous, right)
    requires DistinctIds(left) && DistinctIds(right) && |left| <= rules.targetCount && |right| <= rules.targetCount
    requires h in left
    ensures h in right
  {
    hide Rank, Stays;
    if h !in right {
      if !Carried(rules, ranked, previous, h) {
        NewcomersMatch(rules, ranked, previous, right, h);
      }
      var g := OutsiderExists(left, right, h);
      if !Carried(rules, ranked, previous, g) {
        NewcomersMatch(rules, ranked, previous, left, g);
      }
    }
  }

  lemma NewcomersMatch(rules: Rules, ranked: seq<Id>, previous: seq<Holding>, held: seq<Holding>, h: Holding)
    requires Fair(rules, ranked, previous, held) && Entered(rules, ranked, previous, h) && h !in held
    ensures !Holds(held, h.id)
  {
    hide Rank, Stays;
    forall k | 0 <= k < |held|
      ensures held[k].id != h.id
    {
      assert held[k] in held;
    }
  }

  lemma {:induction false} RankOrderIsUnique(ranked: seq<Id>, left: seq<Holding>, right: seq<Holding>)
    requires InRankOrder(ranked, left) && InRankOrder(ranked, right)
    requires forall h :: h in left <==> h in right
    ensures left == right
  {
    hide Rank;
    assert forall k | 0 <= k < |left| :: left[k] in right;
    assert forall k | 0 <= k < |right| :: right[k] in left;
    if left == [] || right == [] {
    } else {
      FirstIsLeast(ranked, left, right[0]);
      FirstIsLeast(ranked, right, left[0]);
      assert left[0] == right[0];
      forall h
        ensures h in left[1..] <==> h in right[1..]
      {
        RestIsWithoutFirst(ranked, left, h);
        RestIsWithoutFirst(ranked, right, h);
      }
      RankOrderIsUnique(ranked, left[1..], right[1..]);
      assert left == [left[0]] + left[1..] && right == [right[0]] + right[1..];
    }
  }

  lemma FirstIsLeast(ranked: seq<Id>, holdings: seq<Holding>, h: Holding)
    requires InRankOrder(ranked, holdings) && h in holdings
    ensures Rank(ranked, holdings[0].id) < Rank(ranked, h.id) || h == holdings[0]
  {
    hide Rank;
    var k :| 0 <= k < |holdings| && holdings[k] == h;
  }

  lemma RestIsWithoutFirst(ranked: seq<Id>, holdings: seq<Holding>, h: Holding)
    requires InRankOrder(ranked, holdings) && holdings != []
    ensures h in holdings[1..] <==> h in holdings && h != holdings[0]
  {
    hide Rank;
    assert holdings == [holdings[0]] + holdings[1..];
    if h in holdings[1..] {
      var k :| 0 <= k < |holdings[1..]| && holdings[1..][k] == h;
      assert holdings[k + 1] == h;
    }
  }

  lemma RankOrderIsDistinct(ranked: seq<Id>, holdings: seq<Holding>)
    requires InRankOrder(ranked, holdings)
    ensures DistinctIds(holdings)
  {
  }

  /** Rank order, the target count and fairness fix the selection completely. */
  lemma SelectionIsUnique(rules: Rules, ranked: seq<Id>, previous: seq<Holding>, left: seq<Holding>,
      right: seq<Holding>)
    requires InRankOrder(ranked, left) && |left| <= rules.targetCount && Fair(rules, ranked, previous, left)
    requires InRankOrder(ranked, right) && |right| <= rules.targetCount && Fair(rules, ranked, previous, right)
    ensures left == right
  {
    hide Fair, Rank;
    RankOrderIsDistinct(ranked, left);
    RankOrderIsDistinct(ranked, right);
    forall h
      ensures h in left <==> h in right
    {
      if h in left {
        FairHoldsTheSame(rules, ranked, previous, left, right, h);
      }
      if h in right {
        FairHoldsTheSame(rules, ranked, previous, right, left, h);
      }
    }
    RankOrderIsUnique(ranked, left, right);
  }

  /** When a held name leaves: it is no longer ranked; or, past the protected weeks, it has fallen behind the exit rank;
      or, past the limit of weeks, behind the entry rank. */
  lemma LeavesExactlyWhen(rules: Rules, ranked: seq<Id>, prior: Holding)
    ensures !Stays(rules, ranked, prior) <==>
            || prior.id !in ranked
            || (&& rules.minWeeks <= prior.age
                && Rank(ranked, prior.id)
                   > if rules.maxWeeks <= prior.age then rules.entryRank else rules.exitRank)
  {
  }
}
