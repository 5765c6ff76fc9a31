/** Vocabulary shared by every module: results, identifiers and order enums.
    Identifiers are numbered in their sort order and dates are day ordinals. */
module Base {
  datatype Option<+T> = None | Some(value: T)

  /** A raised exception is `Err`, carrying the error code the program raises. */
  datatype Result<+T> = Ok(value: T) | Err(code: string) {
    predicate IsFailure() {
      Err?
    }

    function PropagateFailure<U>(): Result<U>
      requires Err?
    {
      Err(code)
    }

    function Extract(): T
      requires Ok?
    {
      value
    }
  }

  type Id = nat
  type EventId = nat
  type Date = int

  datatype Side = BUY | SELL
  datatype Asset = A_SHARE | CSI300_ETF

  /** `dict.get(key, 0)` */
  function Get(m: map<Id, int>, key: Id): int {
    if key in m then m[key] else 0
  }

  function Min(a: int, b: int): int {
    if a <= b then a else b
  }

  function Max(a: int, b: int): int {
    if a >= b then a else b
  }

  function MinReal(a: real, b: real): real {
    if a <= b then a else b
  }

  function MaxReal(a: real, b: real): real {
    if a >= b then a else b
  }

  predicate IsLeast(s: Id, ids: set<Id>) {
    s in ids && forall x | x in ids :: s <= x
  }

  lemma {:induction false} LeastExists(ids: set<Id>)
    requires ids != {}
    ensures exists s :: IsLeast(s, ids)
  {
    var first :| first in ids;
    var rest := ids - {first};
    if rest == {} {
      assert ids == {first};
      assert IsLeast(first, ids);
    } else {
      LeastExists(rest);
      var other :| IsLeast(other, rest);
      LeastOfMore(ids, first, other);
    }
  }

  lemma LeastOfMore(ids: set<Id>, first: Id, other: Id)
    requires first in ids && IsLeast(other, ids - {first})
    ensures IsLeast(Min(first, other), ids)
  {
    forall x | x in ids
      ensures Min(first, other) <= x
    {
      assert x == first || x in ids - {first};
    }
  }

  function Least(ids: set<Id>): (s: Id)
    requires ids != {}
    ensures s in ids && forall x | x in ids :: s <= x
  {
    LeastExists(ids);
    var s :| IsLeast(s, ids);
    s
  }

  /** The members in increasing order, as `sorted` gives them. */
  function InOrder(ids: set<Id>): (r: seq<Id>)
    ensures forall s :: s in r <==> s in ids
  {
    if ids == {} then [] else [Least(ids)] + InOrder(ids - {Least(ids)})
  }

  function SumOver(f: Id -> real, ids: seq<Id>): real {
    if ids == [] then 0.0 else f(ids[0]) + SumOver(f, ids[1..])
  }
}
