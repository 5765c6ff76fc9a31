/** Exact decimal arithmetic over `real`: fen and price-tick rounding. */
module Numeric {
  function Ceiling(x: real): (n: int)
    ensures n as real - 1.0 < x <= n as real
  {
    -((-x).Floor)
  }

  /** ROUND_HALF_UP: halves move away from zero. */
  function RoundHalfUp(x: real): (n: int)
    ensures x >= 0.0 ==> 0 <= n && n as real - 0.5 <= x < n as real + 0.5
    ensures x <= 0.0 ==> n <= 0 && n as real - 0.5 < x <= n as real + 0.5
  {
    if x >= 0.0 then (x + 0.5).Floor else -((0.5 - x).Floor)
  }

  /** ROUND_HALF_EVEN, the default of `Decimal.quantize`. */
  function RoundHalfEven(x: real): (n: int)
    ensures n as real - 0.5 <= x <= n as real + 0.5
    ensures x == n as real - 0.5 || x == n as real + 0.5 ==> n % 2 == 0
  {
    var n := x.Floor;
    var rest := x - n as real;
    if rest < 0.5 then n else if rest > 0.5 then n + 1 else if n % 2 == 0 then n else n + 1
  }

  function QuantizeFen(x: real): real {
    RoundHalfUp(x * 100.0) as real / 100.0
  }

  function QuantizeTrillionth(x: real): real {
    RoundHalfEven(x * 1000000000000.0) as real / 1000000000000.0
  }

  function QuantizePrice(value: real, tick: real): real
    requires tick > 0.0
  {
    RoundHalfUp(value / tick) as real * tick
  }

  function Ticks(n: int, tick: real): real {
    n as real * tick
  }

  ghost predicate OnTick(price: real, tick: real) {
    exists n: int :: price == Ticks(n, tick)
  }

  lemma RoundHalfUpMonotone(x: real, y: real)
    requires x <= y
    ensures RoundHalfUp(x) <= RoundHalfUp(y)
  {
    if x >= 0.0 {
      assert (x + 0.5).Floor <= (y + 0.5).Floor;
    } else if y < 0.0 {
      assert (0.5 - y).Floor <= (0.5 - x).Floor;
    }
  }

  lemma QuantizeFenMonotone(x: real, y: real)
    requires x <= y
    ensures QuantizeFen(x) <= QuantizeFen(y)
  {
    RoundHalfUpMonotone(x * 100.0, y * 100.0);
  }

  lemma DivideThenMultiply(x: real, tick: real)
    requires tick > 0.0
    ensures x / tick * tick == x
  {
  }

  lemma QuotientIsUnique(q: real, x: real, n: real)
    requires n > 0.0 && q * n == x
    ensures q == x / n
  {
    assert x / n * n == x;
    assert (q - x / n) * n == 0.0;
  }

  lemma QuotientIsMonotone(x: real, y: real, n: real)
    requires x <= y && n > 0.0
    ensures x / n <= y / n
  {
    var gap := (y - x) / n;
    assert gap >= 0.0;
    DivideThenMultiply(x, n);
    DivideThenMultiply(y - x, n);
    QuotientIsUnique(x / n + gap, y, n);
  }

  lemma MulMonotone(x: real, y: real, k: real)
    requires x <= y && k >= 0.0
    ensures x * k <= y * k
  {
    assert (y - x) * k >= 0.0;
  }

  lemma MulStrictlyMonotone(x: real, y: real, k: real)
    requires x < y && k > 0.0
    ensures x * k < y * k
  {
    assert (y - x) * k > 0.0;
  }

  lemma ScaleQuotient(q: real, bound: real, tick: real, x: real)
    requires tick > 0.0 && q * tick == x
    ensures bound <= q ==> bound * tick <= x
    ensures bound < q ==> bound * tick < x
    ensures q <= bound ==> x <= bound * tick
    ensures q < bound ==> x < bound * tick
  {
    if bound < q {
      MulStrictlyMonotone(bound, q, tick);
    } else if q < bound {
      MulStrictlyMonotone(q, bound, tick);
    }
  }

  lemma TickFloor(x: real, tick: real)
    requires tick > 0.0
    ensures Ticks((x / tick).Floor, tick) <= x < Ticks((x / tick).Floor + 1, tick)
  {
    var q := x / tick;
    var n := q.Floor;
    DivideThenMultiply(x, tick);
    ScaleQuotient(q, n as real, tick, x);
    ScaleQuotient(q, (n + 1) as real, tick, x);
  }

  lemma TickCeiling(x: real, tick: real)
    requires tick > 0.0
    ensures Ticks(Ceiling(x / tick) - 1, tick) < x <= Ticks(Ceiling(x / tick), tick)
  {
    var q := x / tick;
    var n := Ceiling(q);
    DivideThenMultiply(x, tick);
    ScaleQuotient(q, n as real, tick, x);
    ScaleQuotient(q, (n - 1) as real, tick, x);
  }

  lemma TicksAreOrdered(m: int, n: int, tick: real)
    requires tick > 0.0 && m <= n
    ensures Ticks(m, tick) <= Ticks(n, tick)
  {
    MulMonotone(m as real, n as real, tick);
  }

  /** Two consecutive ticks bracket nothing: a multiple not above x is not above its floor. */
  lemma LargestTick(x: real, tick: real, n: int)
    requires tick > 0.0 && Ticks(n, tick) <= x
    ensures n <= (x / tick).Floor
  {
    var f := (x / tick).Floor;
    TickFloor(x, tick);
    if n >= f + 1 {
      TicksAreOrdered(f + 1, n, tick);
    }
  }

  lemma SmallestTick(x: real, tick: real, n: int)
    requires tick > 0.0 && x <= Ticks(n, tick)
    ensures Ceiling(x / tick) <= n
  {
    var c := Ceiling(x / tick);
    TickCeiling(x, tick);
    if n <= c - 1 {
      TicksAreOrdered(n, c - 1, tick);
    }
  }

  /** Dividing a whole number of ticks by the tick gives that number back, rounded either way. */
  lemma FloorOfInteger(n: int, tick: real)
    requires tick > 0.0
    ensures (Ticks(n, tick) / tick).Floor == n
    ensures Ceiling(Ticks(n, tick) / tick) == n
  {
    assert n as real * tick / tick == n as real;
  }
}
