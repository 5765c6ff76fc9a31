/** Point-in-time financial rows: each announced income record becomes a row visible from the next
    open day, with its revision number, quarter and trailing profit, and loss streak. */
module FinancialRows {
  import opened Base
  import opened Numeric
  import opened Sequences

  /** A report period as the number yyyymmdd; periods are quarter ends. */
  type Period = nat

  datatype Income = Income(
    security: Id, period: Period, actualDate: Option<Date>, announcedDate: Option<Date>, updateFlag: nat,
    profit: Option<real>, source: nat)

  datatype Indicator = Indicator(
    security: Id, period: Period, announcedDate: Option<Date>, updateFlag: nat, roeYearly: Option<real>, source: nat)

  datatype Row = Row(
    security: Id, period: Period, announced: Date, available: Date, revision: nat,
    ytd: Option<real>, quarterly: Option<real>, trailing: Option<real>, roe: Option<real>,
    losses: Option<nat>, income: nat, indicator: Option<nat>)

  /** The actual announcement date wins over the planned one. */
  function Announced(i: Income): Option<Date> {
    if i.actualDate.Some? then i.actualDate else i.announcedDate
  }

  function NextOpen(after: Date, openDays: seq<Date>): Option<Date> {
    if openDays == [] then None
    else
      var rest := NextOpen(after, openDays[1..]);
      if openDays[0] > after && (rest.None? || openDays[0] < rest.value) then Some(openDays[0]) else rest
  }

  lemma {:induction false} NextOpenIsFirst(after: Date, openDays: seq<Date>)
    ensures NextOpen(after, openDays).Some? ==>
              NextOpen(after, openDays).value in openDays && NextOpen(after, openDays).value > after
    ensures forall day | day in openDays && day > after ::
              NextOpen(after, openDays).Some? && NextOpen(after, openDays).value <= day
  {
    if openDays != [] {
      NextOpenIsFirst(after, openDays[1..]);
      assert forall day | day in openDays :: day == openDays[0] || day in openDays[1..];
    }
  }

  lemma NextOpenIsMonotone(early: Date, late: Date, openDays: seq<Date>)
    requires early <= late && NextOpen(late, openDays).Some?
    ensures NextOpen(early, openDays).Some? && NextOpen(early, openDays).value <= NextOpen(late, openDays).value
  {
    NextOpenIsFirst(early, openDays);
    NextOpenIsFirst(late, openDays);
  }

  function AvailableFrom(announced: Option<Date>, openDays: seq<Date>): Option<Date> {
    if announced.None? then None else NextOpen(announced.value, openDays)
  }

  /** Was this announced record available by the day? */
  predicate AvailableBy(announced: Option<Date>, openDays: seq<Date>, day: Date) {
    var from := AvailableFrom(announced, openDays);
    from.Some? && from.value <= day
  }

  function Ytd(i: Option<Income>): Option<real> {
    if i.None? || i.value.profit.None? then None
    else Some(RoundHalfUp(i.value.profit.value * 10000.0 * 10000.0) as real / 10000.0)
  }

  /** `max` over a key: the first of the largest. */
  function Latest<T>(before: (T, T) -> bool, xs: seq<T>): Option<T> {
    if xs == [] then None
    else
      var init := Latest(before, xs[..|xs| - 1]);
      var last := xs[|xs| - 1];
      if init.Some? && before(last, init.value) then init else Some(last)
  }

  function ByAnnouncement(): (Income, Income) -> bool {
    (x: Income, y: Income) =>
      var a, b := Announced(x), Announced(y);
      if a.Some? && b.Some? && a.value != b.value then a.value < b.value else x.updateFlag <= y.updateFlag
  }

  function ByIndicatorDate(): (Indicator, Indicator) -> bool {
    (x: Indicator, y: Indicator) =>
      var a, b := x.announcedDate, y.announcedDate;
      if a.Some? && b.Some? && a.value != b.value then a.value < b.value else x.updateFlag <= y.updateFlag
  }

  function VisibleIncome(s: Id, period: Period, asOf: Date): Income -> bool {
    (i: Income) => i.security == s && i.period == period && Announced(i).Some? && Announced(i).value <= asOf
  }

  function VisibleIndicator(s: Id, period: Period, asOf: Date): Indicator -> bool {
    (i: Indicator) => i.security == s && i.period == period && i.announcedDate.Some? && i.announcedDate.value <= asOf
  }

  function Component(incomes: seq<Income>, s: Id, period: Period, asOf: Date): Option<Income> {
    Latest(ByAnnouncement(), Filter(VisibleIncome(s, period, asOf), incomes))
  }

  function Year(period: Period): nat { period / 10000 }
  function Month(period: Period): nat { period / 100 % 100 }
  function Quarter(period: Period): nat { Month(period) / 3 }

  function PreviousQuarter(period: Period): Option<Period> {
    var quarter := Quarter(period);
    if quarter <= 1 then None
    else Some(Year(period) * 10000 + (quarter - 1) * 300 + if quarter == 2 || quarter == 5 then 31 else 30)
  }

  function YearEndBefore(period: Period): Period {
    Max((Year(period) - 1) * 10000 + 1231, 0)
  }

  function SamePeriodBefore(period: Period): Period {
    Max(period - 10000, 0)
  }

  function QuarterProfit(quarter: nat, current: Option<real>, previous: Option<real>): Option<real> {
    if current.None? || quarter < 1 || quarter > 4 then None
    else if quarter == 1 then current
    else if previous.None? then None
    else Some(current.value - previous.value)
  }

  function TrailingProfit(quarter: nat, current: Option<real>, fullYear: Option<real>,
      same: Option<real>): Option<real> {
    if current.None? || quarter < 1 || quarter > 4 then None
    else if quarter == 4 then current
    else if fullYear.None? || same.None? then None
    else Some(current.value + fullYear.value - same.value)
  }

  function AnnualizedRoe(roe: Option<real>): Option<real> {
    if roe.None? then None
    else Some(RoundHalfUp(roe.value / 100.0 * 1000000000000.0) as real / 1000000000000.0)
  }

  /** The row of one record, computed only from what had been announced by its own announcement. */
  function RowOf(
    incomes: seq<Income>, indicators: seq<Indicator>, i: Income, announced: Date, available: Date, revision: nat): Row
  {
    var s, period := i.security, i.period;
    var quarter := Quarter(period);
    var current := Ytd(Some(i));
    var previousQuarter :=
      if PreviousQuarter(period).None? then None
      else Component(incomes, s, PreviousQuarter(period).value, announced);
    var fullYear := Component(incomes, s, YearEndBefore(period), announced);
    var same := Component(incomes, s, SamePeriodBefore(period), announced);
    var indicator := Latest(ByIndicatorDate(), Filter(VisibleIndicator(s, period, announced), indicators));
    Row(s, period, announced, available, revision, current,
        QuarterProfit(quarter, current, Ytd(previousQuarter)),
        TrailingProfit(quarter, current, Ytd(fullYear), Ytd(same)),
        AnnualizedRoe(if indicator.None? then None else indicator.value.roeYearly),
        None, i.source, if indicator.None? then None else Some(indicator.value.source))
  }

  /** Records without any date sort last, as the text of a missing date does. */
  function SortKey(i: Income): (Id, Period, bool, Date, nat) {
    var a := Announced(i);
    (i.security, i.period, a.None?, if a.Some? then a.value else 0, i.updateFlag)
  }

  function BySecurityPeriodDate(): (Income, Income) -> bool {
    (x: Income, y: Income) =>
      var a, b := SortKey(x), SortKey(y);
      if a.0 != b.0 then a.0 < b.0
      else if a.1 != b.1 then a.1 < b.1
      else if a.2 != b.2 then !a.2
      else if a.3 != b.3 then a.3 < b.3
      else a.4 <= b.4
  }

  type Revisions = map<(Id, Period), nat>

  function Revised(revisions: Revisions, key: (Id, Period)): nat {
    (if key in revisions then revisions[key] else 0) + 1
  }

  /** The main loop over sorted records, with the running revision numbers. */
  function RowsFrom(
    incomes: seq<Income>, indicators: seq<Indicator>, openDays: seq<Date>, rest: seq<Income>,
    revisions: Revisions): seq<Row>
    decreases |rest|
  {
    if rest == [] then []
    else
      var i := rest[0];
      var available := AvailableFrom(Announced(i), openDays);
      if available.None? then RowsFrom(incomes, indicators, openDays, rest[1..], revisions)
      else
        var key := (i.security, i.period);
        var revision := Revised(revisions, key);
        [RowOf(incomes, indicators, i, Announced(i).value, available.value, revision)]
        + RowsFrom(incomes, indicators, openDays, rest[1..], revisions[key := revision])
  }

  // ----- loss streaks

  function SeenBy(current: Row): Row -> bool {
    (row: Row) => row.security == current.security && row.period <= current.period && row.available <= current.available
  }

  predicate Newer(row: Row, prior: Row) {
    row.available > prior.available || (row.available == prior.available && row.revision > prior.revision)
  }

  /** The dictionary of latest rows by period, in insertion order. */
  function Remember(latest: seq<Row>, row: Row): seq<Row> {
    if latest == [] then [row]
    else if latest[0].period == row.period then [if Newer(row, latest[0]) then row else latest[0]] + latest[1..]
    else [latest[0]] + Remember(latest[1..], row)
  }

  function LatestByPeriod(visible: seq<Row>): seq<Row> {
    if visible == [] then [] else Remember(LatestByPeriod(visible[..|visible| - 1]), visible[|visible| - 1])
  }

  function NewestPeriodFirst(): (Row, Row) -> bool {
    (x: Row, y: Row) => x.period >= y.period
  }

  /** Losing quarters from the newest backwards; unknown when a missing profit ends the streak. */
  function LossStreak(rows: seq<Row>): Option<nat> {
    if rows == [] then Some(0)
    else if rows[0].quarterly.None? then None
    else if rows[0].quarterly.value >= 0.0 then Some(0)
    else
      var rest := LossStreak(rows[1..]);
      if rest.None? then None else Some(rest.value + 1)
  }

  function Losses(output: seq<Row>, current: Row): Option<nat> {
    LossStreak(Sort(NewestPeriodFirst(), LatestByPeriod(Filter(SeenBy(current), output))))
  }

  function WithLosses(output: seq<Row>, rows: seq<Row>): (r: seq<Row>)
    ensures |r| == |rows|
  {
    if rows == [] then [] else [rows[0].(losses := Losses(output, rows[0]))] + WithLosses(output, rows[1..])
  }

  function ByPublication(): (Row, Row) -> bool {
    (x: Row, y: Row) =>
      if x.security != y.security then x.security < y.security
      else if x.period != y.period then x.period < y.period
      else if x.announced != y.announced then x.announced < y.announced
      else x.revision <= y.revision
  }

  function Derived(incomes: seq<Income>, indicators: seq<Indicator>, openDays: seq<Date>): seq<Row> {
    RowsFrom(incomes, indicators, openDays, Sort(BySecurityPeriodDate(), incomes), map[])
  }

  function Rows(incomes: seq<Income>, indicators: seq<Indicator>, openDays: seq<Date>): seq<Row> {
    var output := Derived(incomes, indicators, openDays);
    Sort(ByPublication(), WithLosses(output, output))
  }

  // ----- the loops

  method CountLosses(output: seq<Row>, current: Row) returns (losses: Option<nat>)
    ensures losses == Losses(output, current)
  {
    var latest: seq<Row> := [];
    var visible := Filter(SeenBy(current), output);
    for i := 0 to |visible|
      invariant latest == LatestByPeriod(visible[..i])
    {
      assert visible[..i + 1][..i] == visible[..i];
      latest := Remember(latest, visible[i]);
    }
    assert visible[..|visible|] == visible;
    var ordered := Sort(NewestPeriodFirst(), latest);
    var count: nat, i: nat := 0, 0;
    while i < |ordered|
      invariant i <= |ordered|
      invariant LossStreak(ordered)
             == if LossStreak(ordered[i..]).None? then None else Some(count + LossStreak(ordered[i..]).value)
    {
      if ordered[i].quarterly.None? {
        return None;
      }
      if ordered[i].quarterly.value >= 0.0 {
        return Some(count);
      }
      count, i := count + 1, i + 1;
    }
    return Some(count);
  }

  method DeriveRows(incomes: seq<Income>, indicators: seq<Indicator>, openDays: seq<Date>) returns (output: seq<Row>)
    ensures output == Derived(incomes, indicators, openDays)
  {
    hide RowOf;
    output := [];
    var revisions: Revisions := map[];
    var ordered := Sort(BySecurityPeriodDate(), incomes);
    for n := 0 to |ordered|
      invariant output + RowsFrom(incomes, indicators, openDays, ordered[n..], revisions)
             == Derived(incomes, indicators, openDays)
    {
      var i := ordered[n];
      assert ordered[n..][1..] == ordered[n + 1..];
      var available := AvailableFrom(Announced(i), openDays);
      if available.Some? {
        var key := (i.security, i.period);
        revisions := revisions[key := Revised(revisions, key)];
        output := output + [RowOf(incomes, indicators, i, Announced(i).value, available.value, revisions[key])];
      }
    }
  }

  /** Writes the loss column in place. */
  method FillLosses(derived: seq<Row>) returns (output: seq<Row>)
    ensures output == WithLosses(derived, derived)
  {
    hide Losses;
    output := derived;
    for n := 0 to |output|
      invariant |output| == |derived|
      invariant forall k | n <= k < |output| :: output[k] == derived[k]
      invariant forall k | 0 <= k < |output| :: output[k].(losses := None) == derived[k].(losses := None)
      invariant output[..n] + WithLosses(derived, derived[n..]) == WithLosses(derived, derived)
    {
      LossesIgnoreTheColumn(output, derived, output[n]);
      var losses := CountLosses(output, output[n]);
      assert derived[n..][1..] == derived[n + 1..];
      assert (output[..n] + [output[n].(losses := losses)]) + WithLosses(derived, derived[n + 1..])
          == output[..n] + WithLosses(derived, derived[n..]);
      output := output[n := output[n].(losses := losses)];
    }
  }

  method ComputeRows(incomes: seq<Income>, indicators: seq<Indicator>, openDays: seq<Date>) returns (output: seq<Row>)
    ensures output == Rows(incomes, indicators, openDays)
  {
    output := DeriveRows(incomes, indicators, openDays);
    output := FillLosses(output);
    output := Sort(ByPublication(), output);
  }

  /** The loop fills the loss column of rows it still reads; nothing it reads is that column. */
  lemma {:induction false} LossesIgnoreTheColumn(output: seq<Row>, derived: seq<Row>, current: Row)
    requires |output| == |derived|
    requires forall k | 0 <= k < |output| :: output[k].(losses := None) == derived[k].(losses := None)
    ensures Losses(output, current) == Losses(derived, current)
  {
    FilterIgnoresTheColumn(output, derived, current);
    var a, b := Filter(SeenBy(current), output), Filter(SeenBy(current), derived);
    LatestIgnoresTheColumn(a, b);
    SortIgnoresTheColumn(LatestByPeriod(a), LatestByPeriod(b));
    StreakIgnoresTheColumn(Sort(NewestPeriodFirst(), LatestByPeriod(a)), Sort(NewestPeriodFirst(), LatestByPeriod(b)));
  }

  ghost predicate SameButLosses(a: seq<Row>, b: seq<Row>) {
    |a| == |b| && forall k | 0 <= k < |a| :: a[k].(losses := None) == b[k].(losses := None)
  }

  lemma {:induction false} FilterIgnoresTheColumn(a: seq<Row>, b: seq<Row>, current: Row)
    requires SameButLosses(a, b)
    ensures SameButLosses(Filter(SeenBy(current), a), Filter(SeenBy(current), b))
  {
    if a != [] {
      assert a[0].(losses := None) == b[0].(losses := None);
      FilterIgnoresTheColumn(a[1..], b[1..], current);
    }
  }

  lemma {:induction false} RememberIgnoresTheColumn(a: seq<Row>, b: seq<Row>, x: Row, y: Row)
    requires SameButLosses(a, b) && x.(losses := None) == y.(losses := None)
    ensures SameButLosses(Remember(a, x), Remember(b, y))
  {
    if a != [] {
      assert a[0].(losses := None) == b[0].(losses := None);
      RememberIgnoresTheColumn(a[1..], b[1..], x, y);
    }
  }

  lemma {:induction false} LatestIgnoresTheColumn(a: seq<Row>, b: seq<Row>)
    requires SameButLosses(a, b)
    ensures SameButLosses(LatestByPeriod(a), LatestByPeriod(b))
  {
    if a != [] {
      var n := |a| - 1;
      LatestIgnoresTheColumn(a[..n], b[..n]);
      RememberIgnoresTheColumn(LatestByPeriod(a[..n]), LatestByPeriod(b[..n]), a[n], b[n]);
    }
  }

  lemma {:induction false} InsertIgnoresTheColumn(x: Row, y: Row, a: seq<Row>, b: seq<Row>)
    requires SameButLosses(a, b) && x.(losses := None) == y.(losses := None)
    ensures SameButLosses(Insert(NewestPeriodFirst(), x, a), Insert(NewestPeriodFirst(), y, b))
  {
    if a != [] {
      assert a[0].(losses := None) == b[0].(losses := None);
      InsertIgnoresTheColumn(x, y, a[1..], b[1..]);
    }
  }

  lemma {:induction false} SortIgnoresTheColumn(a: seq<Row>, b: seq<Row>)
    requires SameButLosses(a, b)
    ensures SameButLosses(Sort(NewestPeriodFirst(), a), Sort(NewestPeriodFirst(), b))
  {
    if a != [] {
      SortIgnoresTheColumn(a[1..], b[1..]);
      InsertIgnoresTheColumn(a[0], b[0], Sort(NewestPeriodFirst(), a[1..]), Sort(NewestPeriodFirst(), b[1..]));
    }
  }

  lemma {:induction false} StreakIgnoresTheColumn(a: seq<Row>, b: seq<Row>)
    requires SameButLosses(a, b)
    ensures LossStreak(a) == LossStreak(b)
  {
    if a != [] {
      assert a[0].(losses := None) == b[0].(losses := None);
      StreakIgnoresTheColumn(a[1..], b[1..]);
    }
  }
}
