/** The greedy count of holding periods that do not overlap. */
module Nonoverlap {
  predicate Increasing(indices: seq<int>) {
    forall i, j | 0 <= i < j < |indices| :: indices[i] < indices[j]
  }

  /** Entries spaced at least h apart; a period may start on the day another ends. */
  predicate Spaced(chosen: seq<int>, h: int) {
    forall i | 0 < i < |chosen| :: chosen[i - 1] + h <= chosen[i]
  }

  /** Chosen in order from the list. */
  predicate Subsequence(chosen: seq<int>, from: seq<int>)
    decreases |from|
  {
    if chosen == [] then true
    else if from == [] then false
    else if chosen[0] == from[0] then Subsequence(chosen[1..], from[1..])
    else Subsequence(chosen, from[1..])
  }

  /** Take every index that is not before `ready`. */
  function Greedy(indices: seq<int>, ready: int, h: int): (chosen: seq<int>)
    decreases |indices|
  {
    if indices == [] then []
    else if indices[0] >= ready then [indices[0]] + Greedy(indices[1..], indices[0] + h, h)
    else Greedy(indices[1..], ready, h)
  }

  method Count(indices: seq<int>, h: int) returns (count: nat)
    requires forall i | 0 <= i < |indices| :: indices[i] >= 0
    ensures count == |Greedy(indices, -1, h)|
  {
    var last := -h - 1;
    count := 0;
    for k := 0 to |indices|
      invariant count + |Greedy(indices[k..], last + h, h)| == |Greedy(indices, -1, h)|
    {
      var i := indices[k];
      if i >= last + h {
        count := count + 1;
        last := i;
      }
    }
  }

  lemma {:induction false} SubsequenceOfTail(chosen: seq<int>, from: seq<int>)
    requires from != [] && Subsequence(chosen, from[1..])
    ensures Subsequence(chosen, from)
    decreases |from|, 0
  {
    if chosen != [] && chosen[0] == from[0] {
      DropHead(chosen, from[1..]);
    }
  }

  lemma {:induction false} DropHead(chosen: seq<int>, from: seq<int>)
    requires chosen != [] && Subsequence(chosen, from)
    ensures Subsequence(chosen[1..], from)
    decreases |from|, 1
  {
    if chosen[0] == from[0] {
      if chosen[1..] != [] {
        SubsequenceOfTail(chosen[1..], from);
      }
    } else {
      DropHead(chosen, from[1..]);
      if chosen[1..] != [] {
        SubsequenceOfTail(chosen[1..], from);
      }
    }
  }

  /** The greedy choice is itself a legal one. */
  lemma {:induction false} GreedyIsLegal(indices: seq<int>, ready: int, h: int)
    ensures var chosen := Greedy(indices, ready, h);
            Subsequence(chosen, indices) && Spaced(chosen, h) && (chosen != [] ==> chosen[0] >= ready)
    decreases |indices|
  {
    if indices != [] {
      if indices[0] >= ready {
        GreedyIsLegal(indices[1..], indices[0] + h, h);
        var chosen := Greedy(indices, ready, h);
        assert chosen[1..] == Greedy(indices[1..], indices[0] + h, h);
      } else {
        GreedyIsLegal(indices[1..], ready, h);
        if Greedy(indices, ready, h) != [] {
          SubsequenceOfTail(Greedy(indices, ready, h), indices);
        }
      }
    }
  }

  /** Starting earlier cannot hurt, and waiting for one more cannot help by more than one. */
  lemma {:induction false} EarlierIsNoWorse(indices: seq<int>, ready: int, later: int, h: int)
    requires Increasing(indices) && ready <= later
    ensures |Greedy(indices, ready, h)| >= |Greedy(indices, later, h)|
    decreases |indices|
  {
    if indices != [] {
      var rest := indices[1..];
      if indices[0] >= later {
      } else if indices[0] >= ready {
        OneMore(rest, indices[0] + h, later, indices[0], h);
      } else {
        EarlierIsNoWorse(rest, ready, later, h);
      }
    }
  }

  /** Having taken `taken` below `later`, the greedy rest loses at most one against a fresh start. */
  lemma {:induction false} OneMore(indices: seq<int>, ready: int, later: int, taken: int, h: int)
    requires Increasing(indices) && taken < later && ready == taken + h
    requires forall i | 0 <= i < |indices| :: indices[i] > taken
    ensures 1 + |Greedy(indices, ready, h)| >= |Greedy(indices, later, h)|
    decreases |indices|
  {
    if indices != [] {
      var rest := indices[1..];
      if indices[0] >= later {
        if indices[0] >= ready {
        } else {
          EarlierIsNoWorse(rest, ready, indices[0] + h, h);
        }
      } else if indices[0] >= ready {
        OneMore(rest, indices[0] + h, later, indices[0], h);
      } else {
        OneMore(rest, ready, later, taken, h);
      }
    }
  }

  /** Exchange argument: no spaced choice from the list is longer than the greedy one. */
  lemma {:induction false} NothingBeatsGreedy(indices: seq<int>, chosen: seq<int>, ready: int, h: int)
    requires Increasing(indices) && Subsequence(chosen, indices) && Spaced(chosen, h)
    requires chosen != [] ==> chosen[0] >= ready
    ensures |chosen| <= |Greedy(indices, ready, h)|
    decreases |indices|
  {
    if chosen != [] {
      var rest := indices[1..];
      if chosen[0] == indices[0] {
        NothingBeatsGreedy(rest, chosen[1..], indices[0] + h, h);
      } else {
        NothingBeatsGreedy(rest, chosen, ready, h);
        if indices[0] >= ready {
          NothingBeatsGreedyAfter(rest, indices[0], ready, h);
        }
      }
    }
  }

  lemma NothingBeatsGreedyAfter(rest: seq<int>, taken: int, ready: int, h: int)
    requires Increasing(rest) && taken >= ready && forall i | 0 <= i < |rest| :: rest[i] > taken
    ensures 1 + |Greedy(rest, taken + h, h)| >= |Greedy(rest, ready, h)|
  {
    EveryReadyIsTheSame(rest, ready, taken + 1, h);
    OneMore(rest, taken + h, taken + 1, taken, h);
  }

  /** Any two thresholds below the whole list choose alike. */
  lemma EveryReadyIsTheSame(indices: seq<int>, ready: int, later: int, h: int)
    requires ready <= later && forall i | 0 <= i < |indices| :: indices[i] >= later
    ensures Greedy(indices, ready, h) == Greedy(indices, later, h)
  {
  }

  /** For every increasing list of nonnegative indices and every horizon, the count is attained by a
      legal choice and is the most any legal choice attains. */
  lemma CountIsMaximal(indices: seq<int>, chosen: seq<int>, h: int)
    requires Increasing(indices) && forall i | 0 <= i < |indices| :: indices[i] >= 0
    requires Subsequence(chosen, indices) && Spaced(chosen, h)
    ensures |chosen| <= |Greedy(indices, -1, h)|
    ensures Subsequence(Greedy(indices, -1, h), indices) && Spaced(Greedy(indices, -1, h), h)
  {
    GreedyIsLegal(indices, -1, h);
    if chosen != [] {
      HeadIsListed(chosen, indices);
    }
    NothingBeatsGreedy(indices, chosen, -1, h);
  }

  lemma {:induction false} HeadIsListed(chosen: seq<int>, from: seq<int>)
    requires chosen != [] && Subsequence(chosen, from)
    ensures chosen[0] in from
    decreases |from|
  {
    if chosen[0] != from[0] {
      HeadIsListed(chosen, from[1..]);
    }
  }
}
