/** When decisions are carried out: each one on its own effective day, later than the day it was made on, and only
    once. */
module Schedules {
  import opened Base
  import opened Reducer
  import opened Engine
  import opened Books

  /** What the strategy decides at the close of day `k` of a run, from the state that replaying that close's ledger
      gives, and the day it is for. */
  function Made(inputs: Inputs, days: seq<Date>, k: nat): Option<(Date, Due)>
    requires k < |days|
  {
    var closed := RunDays(inputs, days[..k + 1]);
    if closed.Err? || !inputs.isDecisionDay(days[k]) then None
    else if inputs.stateful then
      var state := Replay(inputs.capital, closed.value.account.ledger);
      var decision := if state.Ok? then inputs.decide(days[k], state.value) else Err(state.code);
      if decision.Ok? then Some((decision.value.effective, TradeIntents(decision.value.intents))) else None
    else
      var allocation := inputs.allocate(days[k]);
      if allocation.Ok? then Some((allocation.value.effective, TargetWeights(allocation.value.targets))) else None
  }

  lemma MadeInPrefix(inputs: Inputs, days: seq<Date>, n: nat, k: nat)
    requires k < n <= |days|
    ensures Made(inputs, days[..n], k) == Made(inputs, days, k)
  {
    assert days[..n][..k + 1] == days[..k + 1];
    hide RunDays;
  }

  /** The decision of day `k` is for that date. */
  ghost predicate IsFor(inputs: Inputs, days: seq<Date>, k: nat, date: Date) {
    k < |days| && Made(inputs, days, k).Some? && Made(inputs, days, k).value.0 == date
  }

  ghost predicate SomeIsFor(inputs: Inputs, days: seq<Date>, date: Date) {
    exists k: nat :: IsFor(inputs, days, k, date)
  }

  /** Every decision is for a later day; what is pending is exactly the decisions whose day has not come. */
  ghost predicate Scheduled(inputs: Inputs, days: seq<Date>, pending: map<Date, Due>) {
    && (forall k: nat, date | IsFor(inputs, days, k, date) ::
          && days[k] < date
          && (date !in days ==> date in pending && pending[date] == Made(inputs, days, k).value.1))
    && forall date | date in pending :: date !in days && SomeIsFor(inputs, days, date)
  }

  /** What the closing decision adds. */
  lemma DecidingAdds(inputs: Inputs, run: Run, day: Date, capital: real)
    requires CursorMatches(run, capital) && DecideDay(inputs, run, day).Ok?
    ensures var next := DecideDay(inputs, run, day).value;
            && next.account == run.account
            && (!inputs.isDecisionDay(day) ==> next.pending == run.pending)
            && (inputs.isDecisionDay(day) && inputs.stateful ==>
                  var state := Replay(capital, run.account.ledger);
                  && state.Ok? && inputs.decide(day, state.value).Ok?
                  && var d := inputs.decide(day, state.value).value;
                     && day < d.effective && d.effective !in run.pending
                     && next.pending == run.pending[d.effective := TradeIntents(d.intents)])
            && (inputs.isDecisionDay(day) && !inputs.stateful ==>
                  && inputs.allocate(day).Ok?
                  && var a := inputs.allocate(day).value;
                     && day < a.effective && a.effective !in run.pending
                     && next.pending == run.pending[a.effective := TargetWeights(a.targets)])
  {
    CursorSurvives(run, run.account.ledger, capital);
    hide Replay, Fold;
  }

  /** A closing decision is refused with the strategy's own error, or with that of its kind when it is not for a later
      day or is for a day that already has one. */
  lemma DecisionIsRefusedExactlyWhen(inputs: Inputs, run: Run, day: Date, capital: real)
    requires CursorMatches(run, capital) && Replay(capital, run.account.ledger).Ok? && inputs.isDecisionDay(day)
    ensures inputs.stateful ==>
              var d := inputs.decide(day, Replay(capital, run.account.ledger).value);
              Answers(DecideDay(inputs, run, day), d.Err?, if d.Err? then d.code else "STRATEGY_INTENT_INVALID",
                      d.Ok? && (d.value.effective <= day || d.value.effective in run.pending))
    ensures !inputs.stateful ==>
              var a := inputs.allocate(day);
              Answers(DecideDay(inputs, run, day), a.Err?, if a.Err? then a.code else "PORTFOLIO_INVALID_TARGET",
                      a.Ok? && (a.value.effective <= day || a.value.effective in run.pending))
  {
    CursorSurvives(run, run.account.ledger, capital);
    hide Replay, Fold;
  }

  predicate Answers(r: Result<Run>, failed: bool, code: string, misplaced: bool) {
    (r.Err? <==> failed || misplaced) && (r.Err? ==> r.code == code)
  }

  /** One more day: its own decision is carried out and gone, and the closing one comes in. */
  ghost predicate OneDayOn(
    inputs: Inputs, days: seq<Date>, before: map<Date, Due>, after: map<Date, Due>)
    requires days != []
  {
    var n := |days| - 1;
    var made := Made(inputs, days, n);
    if made.None? then after == before - {days[n]}
    else
      && days[n] < made.value.0 && made.value.0 !in before - {days[n]}
      && after == (before - {days[n]})[made.value.0 := made.value.1]
  }

  lemma ClosingKeepsPending(inputs: Inputs, run: Run, morning: Morning, day: Date)
    requires CloseDay(inputs, run, morning, day).Ok?
    ensures CloseDay(inputs, run, morning, day).value.pending == run.pending - {day}
  {
    hide RecordAll, DayContribution, FiguresOf;
  }

  /** A day up to its closing decision. */
  lemma DayCloses(inputs: Inputs, run: Run, day: Date) returns (closed: Run)
    requires SoundInputs(inputs) && GoodRun(inputs, run, day) && RunDay(inputs, run, day).Ok?
    ensures CursorMatches(closed, inputs.capital) && closed.pending == run.pending - {day}
    ensures DecideDay(inputs, closed, day) == RunDay(inputs, run, day)
  {
    hide OpenDay, CloseDay, DecideDay, Good, DailyMatches, CursorMatches;
    var morning := OpenDay(inputs, run, day).value;
    closed := CloseDay(inputs, run, morning, day).value;
    OpenDayKeepsGood(inputs, run, day);
    RunKeepsItsCursor(inputs, run, day);
    CloseDayKeepsGood(inputs, run, morning, day);
    ClosingKeepsPending(inputs, run, morning, day);
  }

  lemma RunKeepsItsCursor(inputs: Inputs, run: Run, day: Date)
    requires GoodRun(inputs, run, day)
    ensures CursorMatches(run, inputs.capital) && run.strategy.capital == inputs.capital
  {
  }

  lemma DayMovesOn(inputs: Inputs, days: seq<Date>)
    requires SoundInputs(inputs) && Increasing(days) && days != [] && RunDays(inputs, days).Ok?
    ensures var n := |days| - 1;
            && RunDays(inputs, days[..n]).Ok?
            && OneDayOn(inputs, days, RunDays(inputs, days[..n]).value.pending, RunDays(inputs, days).value.pending)
  {
    hide RunDay, DecideDay, GoodRun, CursorMatches, OneDayOn, Start, Made, Increasing, SoundInputs;
    var n := |days| - 1;
    GoodUpToTheLast(inputs, days);
    var before := RunDays(inputs, days[..n]).value;
    var closed := DayCloses(inputs, before, days[n]);
    LastDecision(inputs, days, closed, before.pending);
  }

  lemma GoodUpToTheLast(inputs: Inputs, days: seq<Date>)
    requires SoundInputs(inputs) && Increasing(days) && days != [] && RunDays(inputs, days).Ok?
    ensures var n := |days| - 1;
            RunDays(inputs, days[..n]).Ok? && GoodRun(inputs, RunDays(inputs, days[..n]).value, days[n])
  {
    hide RunDay, GoodRun, Start;
    EveryRunIsGood(inputs, days[..|days| - 1], days[|days| - 1]);
  }

  lemma LastDecision(inputs: Inputs, days: seq<Date>, closed: Run, before: map<Date, Due>)
    requires days != [] && RunDays(inputs, days).Ok? && CursorMatches(closed, inputs.capital)
    requires DecideDay(inputs, closed, days[|days| - 1]) == RunDays(inputs, days)
    requires closed.pending == before - {days[|days| - 1]}
    ensures OneDayOn(inputs, days, before, RunDays(inputs, days).value.pending)
  {
    hide RunDays, DecideDay, Replay, CursorMatches;
    var n := |days| - 1;
    DecidingAdds(inputs, closed, days[n], inputs.capital);
    assert days[..n + 1] == days;
  }

  lemma ScheduleMovesOn(inputs: Inputs, days: seq<Date>, before: map<Date, Due>, after: map<Date, Due>)
    requires Increasing(days) && days != []
    requires Scheduled(inputs, days[..|days| - 1], before) && OneDayOn(inputs, days, before, after)
    ensures Scheduled(inputs, days, after)
  {
    hide Made;
    var n := |days| - 1;
    assert forall d :: d in days <==> d in days[..n] || d == days[n];
    forall k: nat, date | IsFor(inputs, days, k, date)
      ensures days[k] < date
      ensures date !in days ==> date in after && after[date] == Made(inputs, days, k).value.1
    {
      if k < n {
        MadeInPrefix(inputs, days, n, k);
        assert IsFor(inputs, days[..n], k, date);
      }
    }
    forall date | date in after
      ensures date !in days && SomeIsFor(inputs, days, date)
    {
      if date in before && date != days[n] {
        assert SomeIsFor(inputs, days[..n], date);
        var k: nat :| IsFor(inputs, days[..n], k, date);
        MadeInPrefix(inputs, days, n, k);
        assert IsFor(inputs, days, k, date);
      } else {
        assert IsFor(inputs, days, n, date);
      }
    }
  }

  /** In any run, of either kind of decision: what is pending after any days is exactly the decisions made on them
      for days not yet visited, each for a day after the one it was made on. */
  lemma {:induction false} PendingIsExact(inputs: Inputs, days: seq<Date>)
    requires SoundInputs(inputs) && Increasing(days) && RunDays(inputs, days).Ok?
    ensures Scheduled(inputs, days, RunDays(inputs, days).value.pending)
    decreases |days|
  {
    hide Scheduled, RunDays, OneDayOn;
    if days == [] {
      NothingIsPending(inputs);
    } else {
      DayMovesOn(inputs, days);
      PendingIsExact(inputs, days[..|days| - 1]);
      ScheduleMovesOn(inputs, days, RunDays(inputs, days[..|days| - 1]).value.pending,
                      RunDays(inputs, days).value.pending);
    }
  }

  lemma NothingIsPending(inputs: Inputs)
    requires RunDays(inputs, []).Ok?
    ensures Scheduled(inputs, [], RunDays(inputs, []).value.pending)
  {
  }

  /** So a day carries out a decision if and only if one was made for it on an earlier day, and it is that one. */
  lemma DueIsTheDecision(inputs: Inputs, days: seq<Date>, day: Date, k: nat)
    requires SoundInputs(inputs) && Increasing(days + [day]) && RunDays(inputs, days).Ok?
    ensures var pending := RunDays(inputs, days).value.pending;
            && (day in pending <==> SomeIsFor(inputs, days, day))
            && (IsFor(inputs, days, k, day) ==> pending[day] == Made(inputs, days, k).value.1 && days[k] < day)
  {
    hide RunDays, Made;
    assert forall i | 0 <= i < |days| :: (days + [day])[i] == days[i];
    assert (days + [day])[|days|] == day;
    PendingIsExact(inputs, days);
  }

  lemma LastIsForAnotherDay(inputs: Inputs, days: seq<Date>, j: nat, date: Date)
    requires SoundInputs(inputs) && Increasing(days) && days != [] && RunDays(inputs, days).Ok?
    requires IsFor(inputs, days[..|days| - 1], j, date)
    ensures !IsFor(inputs, days, |days| - 1, date)
  {
    hide RunDays, Made;
    var n := |days| - 1;
    DayMovesOn(inputs, days);
    PendingIsExact(inputs, days[..n]);
    assert date in days[..n] ==> date < days[n];
  }

  /** No two decisions of a run are for the same day. */
  lemma DecisionsAreForDifferentDays(inputs: Inputs, days: seq<Date>, j: nat, k: nat, date: Date)
    requires SoundInputs(inputs) && Increasing(days) && RunDays(inputs, days).Ok?
    requires j < k && IsFor(inputs, days, j, date)
    ensures !IsFor(inputs, days, k, date)
  {
    hide RunDays, Made;
    if k < |days| {
      var upTo := days[..k + 1];
      PrefixesRun(inputs, days, k + 1);
      MadeInPrefix(inputs, days, k + 1, k);
      MadeInPrefix(inputs, days, k, j);
      assert upTo[..k] == days[..k];
      LastIsForAnotherDay(inputs, upTo, j, date);
    }
  }

  lemma {:induction false} PrefixesRun(inputs: Inputs, days: seq<Date>, n: nat)
    requires n <= |days| && RunDays(inputs, days).Ok?
    ensures RunDays(inputs, days[..n]).Ok?
    decreases |days|
  {
    hide RunDay;
    if n == |days| {
      assert days[..n] == days;
    } else {
      var last := |days| - 1;
      PrefixesRun(inputs, days[..last], n);
      assert days[..last][..n] == days[..n];
    }
  }
}
