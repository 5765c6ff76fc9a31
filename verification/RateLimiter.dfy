/** Token buckets taken several at a time under ordered locks. One locked region is one atomic step,
    so any schedule of threads is a log of steps; clocks only have to be nondecreasing per gate. */
module RateLimiter {
  import opened Base
  import opened Numeric

  type GateId = nat

  type Rate = r: real | r > 0.0 witness 1.0

  datatype Gate = Gate(rate: Rate, capacity: real, tokens: real, updated: real, cooldown: real)

  predicate ValidGate(g: Gate) {
    g.capacity >= 1.0 && 0.0 <= g.tokens <= g.capacity
  }

  function Earned(rate: real, seconds: real): real {
    MaxReal(0.0, seconds) * rate
  }

  /** Tokens available at `now`. */
  function Level(g: Gate, now: real): real {
    MinReal(g.capacity, g.tokens + Earned(g.rate, now - g.updated))
  }

  function Refill(g: Gate, now: real): Gate {
    g.(tokens := Level(g, now), updated := now)
  }

  function Wait(g: Gate, now: real): real
  {
    MaxReal(g.cooldown - now, (1.0 - Level(g, now)) / g.rate)
  }

  predicate Ready(g: Gate, now: real) {
    g.cooldown <= now && Level(g, now) >= 1.0
  }

  function AfterTry(g: Gate, now: real, granted: bool): Gate {
    var refilled := Refill(g, now);
    if granted then refilled.(tokens := refilled.tokens - 1.0) else refilled
  }

  function AfterDefer(g: Gate, now: real, seconds: real): Gate {
    g.(cooldown := MaxReal(g.cooldown, now + seconds))
  }

  // ----- the objects

  class TokenBucket {
    const rate: Rate
    const capacity: real
    var tokens: real
    var updatedAt: real
    var cooldownUntil: real

    function State(): Gate
      reads this
    {
      Gate(rate, capacity, tokens, updatedAt, cooldownUntil)
    }

    ghost predicate Valid()
      reads this
    {
      ValidGate(State())
    }

    constructor (callsPerMinute: real, capacity: nat, now: real)
      requires callsPerMinute > 0.0 && capacity >= 1
      ensures Valid() && State() == Gate(callsPerMinute / 60.0, capacity as real, capacity as real, now, now)
    {
      rate := callsPerMinute / 60.0;
      this.capacity := capacity as real;
      tokens := capacity as real;
      updatedAt, cooldownUntil := now, now;
    }

    /** What building a gate gives: a full one that is not cooling down, or the error of a rate or capacity that is
        not positive. */
    static method Create(callsPerMinute: real, capacity: int, now: real) returns (r: Result<TokenBucket>)
      ensures r.Err? <==> callsPerMinute <= 0.0 || capacity < 1
      ensures r.Err? ==> r.code == "ValueError"
      ensures r.Ok? ==>
                && fresh(r.value) && r.value.Valid()
                && r.value.State() == Gate(callsPerMinute / 60.0, capacity as real, capacity as real, now, now)
    {
      if callsPerMinute <= 0.0 || capacity < 1 {
        return Err("ValueError");
      }
      var gate := new TokenBucket(callsPerMinute, capacity, now);
      return Ok(gate);
    }

    method Defer(now: real, seconds: real)
      requires Valid()
      modifies this
      ensures Valid() && State() == AfterDefer(old(State()), now, seconds)
    {
      cooldownUntil := MaxReal(cooldownUntil, now + seconds);
    }
  }

  ghost predicate Distinct(gates: seq<TokenBucket>) {
    forall i, j | 0 <= i < j < |gates| :: gates[i] != gates[j]
  }

  /** One pass of the acquisition loop with all locks held: refill every gate at its own clock
      reading, then take one permit from each, or none from any. A refusal names how long the
      slowest gate needs. */
  method TryAcquireMany(gates: seq<TokenBucket>, nows: seq<real>) returns (granted: bool, delay: real)
    requires |nows| == |gates| && Distinct(gates) && forall i | 0 <= i < |gates| :: gates[i].Valid()
    modifies gates
    ensures forall i | 0 <= i < |gates| :: gates[i].State() == AfterTry(old(gates[i].State()), nows[i], granted)
    ensures granted <==> forall i | 0 <= i < |gates| :: Ready(old(gates[i].State()), nows[i])
    ensures forall i | 0 <= i < |gates| :: Wait(old(gates[i].State()), nows[i]) <= delay
    ensures granted <==> delay <= 0.0
    ensures delay == 0.0 || exists i :: 0 <= i < |gates| && delay == Wait(old(gates[i].State()), nows[i])
  {
    hide Level;
    delay := RefillAll(gates, nows);
    granted := delay <= 0.0;
    if granted {
      TakeAll(gates);
    }
  }

  method RefillAll(gates: seq<TokenBucket>, nows: seq<real>) returns (delay: real)
    requires |nows| == |gates| && Distinct(gates)
    modifies gates
    ensures forall i | 0 <= i < |gates| :: gates[i].State() == Refill(old(gates[i].State()), nows[i])
    ensures forall i | 0 <= i < |gates| :: Wait(old(gates[i].State()), nows[i]) <= delay
    ensures delay == 0.0 || exists i :: 0 <= i < |gates| && delay == Wait(old(gates[i].State()), nows[i])
    ensures delay <= 0.0 <==> forall i | 0 <= i < |gates| :: Ready(old(gates[i].State()), nows[i])
  {
    delay := 0.0;
    for i := 0 to |gates|
      invariant delay == 0.0 || exists k :: 0 <= k < i && delay == Wait(old(gates[k].State()), nows[k])
      invariant delay >= 0.0
      invariant forall k | 0 <= k < i :: gates[k].State() == Refill(old(gates[k].State()), nows[k])
      invariant forall k | i <= k < |gates| :: gates[k].State() == old(gates[k].State())
      invariant forall k | 0 <= k < i :: Wait(old(gates[k].State()), nows[k]) <= delay
      invariant delay <= 0.0 <==> forall k | 0 <= k < i :: Ready(old(gates[k].State()), nows[k])
    {
      var wait := RefillOne(gates[i], nows[i]);
      WaitMeansNotReady(old(gates[i].State()), nows[i]);
      hide Level, Wait, Ready;
      delay := MaxReal(delay, wait);
    }
  }

  method RefillOne(gate: TokenBucket, now: real) returns (wait: real)
    modifies gate
    ensures gate.State() == Refill(old(gate.State()), now)
    ensures wait == Wait(old(gate.State()), now)
  {
    gate.tokens := MinReal(gate.capacity, gate.tokens + MaxReal(0.0, now - gate.updatedAt) * gate.rate);
    gate.updatedAt := now;
    wait := MaxReal(gate.cooldownUntil - now, (1.0 - gate.tokens) / gate.rate);
  }

  method TakeAll(gates: seq<TokenBucket>)
    requires Distinct(gates)
    modifies gates
    ensures forall i | 0 <= i < |gates| ::
              gates[i].State() == old(gates[i].State()).(tokens := old(gates[i].tokens) - 1.0)
  {
    for i := 0 to |gates|
      invariant forall k | 0 <= k < i ::
                  gates[k].State() == old(gates[k].State()).(tokens := old(gates[k].tokens) - 1.0)
      invariant forall k | i <= k < |gates| :: gates[k].State() == old(gates[k].State())
    {
      gates[i].tokens := gates[i].tokens - 1.0;
    }
  }

  lemma WaitMeansNotReady(g: Gate, now: real)
    ensures Wait(g, now) <= 0.0 <==> Ready(g, now)
  {
    var missing := 1.0 - Level(g, now);
    DivideThenMultiply(missing, g.rate);
    SignOfQuotient(missing, g.rate);
  }

  lemma SignOfQuotient(x: real, n: real)
    requires n > 0.0
    ensures x / n <= 0.0 <==> x <= 0.0
  {
    if x <= 0.0 {
      QuotientIsMonotone(x, 0.0, n);
    } else {
      DivideThenMultiply(x, n);
    }
  }

  // ----- any schedule of threads is a log of atomic steps

  datatype Op = AcquireMany(clocks: map<GateId, real>) | Defer(gate: GateId, now: real, seconds: real)

  type System = map<GateId, Gate>

  predicate Granted(sys: System, op: Op) {
    op.AcquireMany? && forall k | k in op.clocks :: k in sys && Ready(sys[k], op.clocks[k])
  }

  function Exec(sys: System, op: Op): System {
    match op
    case AcquireMany(clocks) =>
      map k | k in sys :: if k in clocks then AfterTry(sys[k], clocks[k], Granted(sys, op)) else sys[k]
    case Defer(gate, now, seconds) =>
      map k | k in sys :: if k == gate then AfterDefer(sys[k], now, seconds) else sys[k]
  }

  function ExecAll(sys: System, log: seq<Op>): System
    decreases |log|
  {
    if log == [] then sys else ExecAll(Exec(sys, log[0]), log[1..])
  }

  predicate Reads(op: Op, k: GateId) {
    op.AcquireMany? && k in op.clocks
  }

  function Grants(sys: System, log: seq<Op>, k: GateId): nat
    decreases |log|
  {
    if log == [] then 0
    else
      (if Reads(log[0], k) && Granted(sys, log[0]) then 1 else 0) + Grants(Exec(sys, log[0]), log[1..], k)
  }

  /** The clock readings of one gate never go back. */
  predicate OnTime(log: seq<Op>, k: GateId, start: real, end: real)
    decreases |log|
  {
    if log == [] then start <= end
    else if Reads(log[0], k) then start <= log[0].clocks[k] && OnTime(log[1..], k, log[0].clocks[k], end)
    else OnTime(log[1..], k, start, end)
  }

  lemma EarnedAdds(rate: real, first: real, second: real)
    requires rate >= 0.0 && first >= 0.0 && second >= 0.0
    ensures Earned(rate, first + second) == Earned(rate, first) + Earned(rate, second)
    ensures 0.0 <= Earned(rate, first) <= Earned(rate, first + second)
  {
    MulMonotone(first, first + second, rate);
    MulMonotone(0.0, first, rate);
  }

  lemma LevelGrowsAtRate(g: Gate, a: real, b: real)
    requires ValidGate(g) && g.updated <= a <= b
    ensures Level(g, b) <= Level(g, a) + Earned(g.rate, b - a)
    ensures 0.0 <= Level(g, a) <= Level(g, b)
  {
    EarnedAdds(g.rate, a - g.updated, b - a);
    EarnedAdds(g.rate, b - a, 0.0);
    assert a - g.updated + (b - a) == b - g.updated;
  }

  lemma ExecKeepsGate(sys: System, op: Op, k: GateId)
    requires k in sys && ValidGate(sys[k]) && (Reads(op, k) ==> sys[k].updated <= op.clocks[k])
    ensures var g := Exec(sys, op)[k];
            && ValidGate(g) && g.rate == sys[k].rate && g.capacity == sys[k].capacity
            && g.cooldown >= sys[k].cooldown
            && g.updated == (if Reads(op, k) then op.clocks[k] else sys[k].updated)
            && g.tokens == (if Reads(op, k) then
                              Level(sys[k], op.clocks[k]) - (if Granted(sys, op) then 1.0 else 0.0)
                            else sys[k].tokens)
  {
    if Reads(op, k) {
      LevelGrowsAtRate(sys[k], sys[k].updated, op.clocks[k]);
    }
  }

  /** Permits granted, plus what is left, never exceed what was there plus what was earned. */
  lemma {:induction false} PermitsAreEarned(sys: System, log: seq<Op>, k: GateId, start: real, end: real)
    requires k in sys && ValidGate(sys[k]) && sys[k].updated <= start && OnTime(log, k, start, end)
    ensures start <= end
    ensures Grants(sys, log, k) as real <= Level(sys[k], start) + Earned(sys[k].rate, end - start)
    decreases |log|
  {
    var g := sys[k];
    if log == [] {
      LevelGrowsAtRate(g, start, start);
      EarnedAdds(g.rate, end - start, 0.0);
    } else {
      var op := log[0];
      var next := Exec(sys, op);
      if Reads(op, k) {
        var now := op.clocks[k];
        ExecKeepsGate(sys, op, k);
        PermitsAreEarned(next, log[1..], k, now, end);
        LevelAtUpdate(next[k]);
        LevelGrowsAtRate(g, start, now);
        EarnedAdds(g.rate, now - start, end - now);
        assert now - start + (end - now) == end - start;
      } else {
        SkippedStep(sys, op, k, start);
        PermitsAreEarned(next, log[1..], k, start, end);
      }
    }
  }

  lemma LevelAtUpdate(g: Gate)
    requires ValidGate(g)
    ensures Level(g, g.updated) == g.tokens
  {
  }

  lemma SkippedStep(sys: System, op: Op, k: GateId, now: real)
    requires k in sys && ValidGate(sys[k]) && !Reads(op, k)
    ensures var g := Exec(sys, op)[k];
            ValidGate(g) && g.updated == sys[k].updated && Level(g, now) == Level(sys[k], now) && g.rate == sys[k].rate
  {
  }

  lemma {:induction false} HistoryKeepsGate(sys: System, log: seq<Op>, k: GateId, start: real, end: real)
    requires k in sys && ValidGate(sys[k]) && sys[k].updated <= start && OnTime(log, k, start, end)
    ensures var g := ExecAll(sys, log);
            k in g && ValidGate(g[k]) && g[k].updated <= end && g[k].rate == sys[k].rate
            && g[k].capacity == sys[k].capacity && g[k].cooldown >= sys[k].cooldown
    decreases |log|
  {
    if log == [] {
    } else {
      ExecKeepsGate(sys, log[0], k);
      HistoryKeepsGate(Exec(sys, log[0]), log[1..], k,
                       if Reads(log[0], k) then log[0].clocks[k] else start, end);
    }
    PermitsAreEarned(sys, log, k, start, end);
  }

  /** The rate limit. In any schedule, after any history, a gate grants at most its capacity plus rate
      times T permits in any window of length T. */
  lemma WindowIsRateLimited(
    sys: System, history: seq<Op>, window: seq<Op>, k: GateId, start: real, from: real, until: real)
    requires k in sys && ValidGate(sys[k]) && sys[k].updated <= start
    requires OnTime(history, k, start, from) && OnTime(window, k, from, until)
    ensures Grants(ExecAll(sys, history), window, k) as real
            <= sys[k].capacity + Earned(sys[k].rate, until - from)
  {
    hide Earned;
    var reached := ExecAll(sys, history);
    HistoryKeepsGate(sys, history, k, start, from);
    PermitsAreEarned(reached, window, k, from, until);
    assert Level(reached[k], from) <= sys[k].capacity;
  }

  /** Cooldowns only extend, and no permit is granted before one ends. */
  lemma NothingGrantedDuringCooldown(
    sys: System, now: real, seconds: real, between: seq<Op>, k: GateId, start: real, end: real, op: Op)
    requires k in sys && ValidGate(sys[k]) && sys[k].updated <= start && OnTime(between, k, start, end)
    requires var reached := ExecAll(Exec(sys, Defer(k, now, seconds)), between);
             Reads(op, k) && Granted(reached, op)
    ensures op.clocks[k] >= now + seconds
  {
    var deferred := Exec(sys, Defer(k, now, seconds));
    HistoryKeepsGate(deferred, between, k, start, end);
  }

  /** Several gates are taken together: one token from each, or, when any is not ready, from none. */
  lemma AllPermitsOrNone(sys: System, op: Op)
    requires op.AcquireMany? && forall k | k in op.clocks :: k in sys
    ensures (forall k | k in op.clocks :: Exec(sys, op)[k].tokens == Level(sys[k], op.clocks[k]) - 1.0)
         || (forall k | k in op.clocks :: Exec(sys, op)[k].tokens == Level(sys[k], op.clocks[k]))
    ensures (exists k | k in op.clocks :: !Ready(sys[k], op.clocks[k])) ==>
              forall k | k in op.clocks :: Exec(sys, op)[k].tokens == Level(sys[k], op.clocks[k])
    ensures forall k | k in sys && k !in op.clocks :: Exec(sys, op)[k] == sys[k]
  {
  }

  /** The reported delay is enough: retried that much later, undisturbed, the acquisition succeeds. */
  lemma RetryAfterDelaySucceeds(sys: System, op: Op, retry: Op, delay: real)
    requires op.AcquireMany? && retry.AcquireMany? && retry.clocks.Keys == op.clocks.Keys && !Granted(sys, op)
    requires forall k | k in op.clocks ::
               && k in sys && ValidGate(sys[k]) && sys[k].updated <= op.clocks[k]
               && Wait(sys[k], op.clocks[k]) <= delay && op.clocks[k] + delay <= retry.clocks[k]
    requires delay >= 0.0
    ensures Granted(Exec(sys, op), retry)
  {
    forall k | k in retry.clocks
      ensures Ready(Exec(sys, op)[k], retry.clocks[k])
    {
      ExecKeepsGate(sys, op, k);
      EnoughIsEarned(Exec(sys, op)[k], op.clocks[k], retry.clocks[k], delay);
    }
  }

  lemma EnoughIsEarned(g: Gate, now: real, later: real, delay: real)
    requires ValidGate(g) && g.updated == now && delay >= 0.0
    requires (1.0 - g.tokens) / g.rate <= delay && now + delay <= later
    ensures Level(g, later) >= 1.0
  {
    var seconds := later - now;
    var needed := (1.0 - g.tokens) / g.rate;
    DivideThenMultiply(1.0 - g.tokens, g.rate);
    MulMonotone(needed, seconds, g.rate);
    assert needed * g.rate == 1.0 - g.tokens;
    assert Earned(g.rate, seconds) >= 1.0 - g.tokens;
  }
}
