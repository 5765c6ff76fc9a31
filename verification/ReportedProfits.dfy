/** What the columns of a financial row mean: which filing it comes from, which revision it is, its quarterly and
    trailing profit in terms of the profits to date visible at its announcement, and its loss streak. */
module ReportedProfits {
  import opened Base
  import opened Sequences
  import opened FinancialRows

  // ----- rows and filings

  /** The row that one filing gives, apart from its revision number and loss streak. */
  ghost predicate ComesFrom(
    incomes: seq<Income>, indicators: seq<Indicator>, openDays: seq<Date>, row: Row, i: Income)
  {
    && i in incomes && AvailableFrom(Announced(i), openDays).Some?
    && row.(losses := None)
       == RowOf(incomes, indicators, i, Announced(i).value, AvailableFrom(Announced(i), openDays).value, row.revision)
  }

  /** A row publishes a filing: its actual date, or else its announced one, and the first open day after that. */
  ghost predicate Publishes(row: Row, i: Income, openDays: seq<Date>) {
    && row.security == i.security && row.period == i.period && row.income == i.source
    && (if i.actualDate.Some? then i.actualDate else i.announcedDate) == Some(row.announced)
    && row.available in openDays && row.announced < row.available
    && (forall day | day in openDays && row.announced < day :: row.available <= day)
    && (row.ytd.Some? <==> i.profit.Some?) && (row.ytd.Some? ==> Reports(i, row.ytd.value))
  }

  lemma ComesFromPublishes(
    incomes: seq<Income>, indicators: seq<Indicator>, openDays: seq<Date>, row: Row, i: Income)
    requires ComesFrom(incomes, indicators, openDays, row, i)
    ensures Publishes(row, i, openDays)
  {
    hide Component, Latest, QuarterProfit, TrailingProfit, NextOpen;
    NextOpenIsFirst(Announced(i).value, openDays);
    ProfitToDateIsReported(i);
  }

  lemma {:induction false} LoopRowsComeFrom(
    incomes: seq<Income>, indicators: seq<Indicator>, openDays: seq<Date>, rest: seq<Income>, revisions: Revisions,
    row: Row)
    returns (i: Income)
    requires row in RowsFrom(incomes, indicators, openDays, rest, revisions)
    ensures i in rest && AvailableFrom(Announced(i), openDays).Some?
    ensures row == RowOf(incomes, indicators, i, Announced(i).value,
                         AvailableFrom(Announced(i), openDays).value, row.revision)
    decreases |rest|
  {
    hide RowOf, NextOpen;
    i := rest[0];
    var available := AvailableFrom(Announced(i), openDays);
    if available.None? {
      i := LoopRowsComeFrom(incomes, indicators, openDays, rest[1..], revisions, row);
    } else {
      var key := (i.security, i.period);
      var revision := Revised(revisions, key);
      var first := RowOf(incomes, indicators, i, Announced(i).value, available.value, revision);
      if row == first {
        RowsCarryTheirRevision(incomes, indicators, i, Announced(i).value, available.value, revision);
      } else {
        i := LoopRowsComeFrom(incomes, indicators, openDays, rest[1..], revisions[key := revision], row);
      }
    }
  }

  lemma RowsCarryTheirRevision(
    incomes: seq<Income>, indicators: seq<Indicator>, i: Income, announced: Date, available: Date, revision: nat)
    ensures RowOf(incomes, indicators, i, announced, available, revision).revision == revision
  {
    hide Component, Latest, QuarterProfit, TrailingProfit;
  }

  lemma {:induction false} EveryFilingGivesARow(
    incomes: seq<Income>, indicators: seq<Indicator>, openDays: seq<Date>, rest: seq<Income>, revisions: Revisions,
    i: Income)
    returns (row: Row)
    requires i in rest && AvailableFrom(Announced(i), openDays).Some?
    ensures row in RowsFrom(incomes, indicators, openDays, rest, revisions)
    ensures row == RowOf(incomes, indicators, i, Announced(i).value,
                         AvailableFrom(Announced(i), openDays).value, row.revision)
    decreases |rest|
  {
    hide RowOf, NextOpen;
    var first := rest[0];
    var available := AvailableFrom(Announced(first), openDays);
    var key := (first.security, first.period);
    var revision := Revised(revisions, key);
    if i == first {
      row := RowOf(incomes, indicators, i, Announced(i).value, available.value, revision);
      RowsCarryTheirRevision(incomes, indicators, i, Announced(i).value, available.value, revision);
    } else if available.None? {
      row := EveryFilingGivesARow(incomes, indicators, openDays, rest[1..], revisions, i);
    } else {
      row := EveryFilingGivesARow(incomes, indicators, openDays, rest[1..], revisions[key := revision], i);
    }
  }

  lemma SortIsTotal()
    ensures TotalPreorder(BySecurityPeriodDate()) && TotalPreorder(ByPublication())
  {
  }

  lemma {:induction false} LossesAddTheColumn(output: seq<Row>, rows: seq<Row>, k: nat)
    requires k < |rows|
    ensures WithLosses(output, rows)[k] == rows[k].(losses := Losses(output, rows[k]))
  {
    hide Losses;
    if k > 0 {
      LossesAddTheColumn(output, rows[1..], k - 1);
    }
  }

  /** The published rows are the derived ones with their loss streaks. */
  lemma PublishedRow(incomes: seq<Income>, indicators: seq<Indicator>, openDays: seq<Date>, row: Row)
    returns (derived: Row)
    requires row in Rows(incomes, indicators, openDays)
    ensures derived in Derived(incomes, indicators, openDays)
    ensures row == derived.(losses := Losses(Derived(incomes, indicators, openDays), derived))
  {
    hide Derived, Losses;
    var output := Derived(incomes, indicators, openDays);
    SortIsTotal();
    SortKeepsMembers(ByPublication(), WithLosses(output, output), row);
    var k :| 0 <= k < |output| && WithLosses(output, output)[k] == row;
    LossesAddTheColumn(output, output, k);
    derived := output[k];
  }

  lemma DerivedHasNoLosses(
    incomes: seq<Income>, indicators: seq<Indicator>, i: Income, announced: Date, available: Date, revision: nat)
    ensures RowOf(incomes, indicators, i, announced, available, revision).losses == None
  {
    hide Component, Latest, QuarterProfit, TrailingProfit;
  }

  /** Every published row comes from a filing that becomes available. */
  lemma RowsComeFromFilings(incomes: seq<Income>, indicators: seq<Indicator>, openDays: seq<Date>, row: Row)
    returns (i: Income)
    requires row in Rows(incomes, indicators, openDays)
    ensures ComesFrom(incomes, indicators, openDays, row, i) && Publishes(row, i, openDays)
  {
    hide Publishes, RowOf, Losses, NextOpen, Rows;
    var derived := PublishedRow(incomes, indicators, openDays, row);
    var ordered := Sort(BySecurityPeriodDate(), incomes);
    i := LoopRowsComeFrom(incomes, indicators, openDays, ordered, map[], derived);
    SortIsTotal();
    SortKeepsMembers(BySecurityPeriodDate(), incomes, i);
    DerivedHasNoLosses(incomes, indicators, i, Announced(i).value, AvailableFrom(Announced(i), openDays).value,
                       derived.revision);
    ComesFromPublishes(incomes, indicators, openDays, row, i);
  }

  /** Every filing that becomes available is published. */
  lemma FilingsGiveRows(incomes: seq<Income>, indicators: seq<Indicator>, openDays: seq<Date>, i: Income)
    returns (row: Row)
    requires i in incomes && Announced(i).Some? && exists day | day in openDays :: Announced(i).value < day
    ensures row in Rows(incomes, indicators, openDays) && Publishes(row, i, openDays)
  {
    hide RowOf, Losses, NextOpen, Publishes;
    NextOpenIsFirst(Announced(i).value, openDays);
    var ordered := Sort(BySecurityPeriodDate(), incomes);
    SortIsTotal();
    SortKeepsMembers(BySecurityPeriodDate(), incomes, i);
    var derived := EveryFilingGivesARow(incomes, indicators, openDays, ordered, map[], i);
    var output := Derived(incomes, indicators, openDays);
    var k :| 0 <= k < |output| && output[k] == derived;
    LossesAddTheColumn(output, output, k);
    row := WithLosses(output, output)[k];
    SortKeepsMembers(ByPublication(), WithLosses(output, output), row);
    DerivedHasNoLosses(incomes, indicators, i, Announced(i).value, AvailableFrom(Announced(i), openDays).value,
                       derived.revision);
    ComesFromPublishes(incomes, indicators, openDays, row, i);
  }

  // ----- profits

  /** The quarter ends, as numbers yyyymmdd. */
  function QuarterEnd(year: nat, quarter: nat): Period {
    year * 10000 + quarter * 300 + if quarter == 1 || quarter == 4 then 31 else 30
  }

  /** A filing of that security and period announced by then. */
  predicate Seen(i: Income, s: Id, period: Period, asOf: Date) {
    i.security == s && i.period == period && Announced(i).Some? && Announced(i).value <= asOf
  }

  /** The reported profit, ten thousand times, to four decimals. */
  predicate Reports(i: Income, profit: real) {
    && i.profit.Some?
    && -0.00005 <= profit - i.profit.value * 10000.0 <= 0.00005
  }

  /** The profit to date a row sees for a quarter: its own, or that of the latest other filing announced by its
      announcement. */
  function ToDate(incomes: seq<Income>, row: Row, year: nat, quarter: nat): Option<real> {
    if QuarterEnd(year, quarter) == row.period then row.ytd
    else Ytd(Component(incomes, row.security, QuarterEnd(year, quarter), row.announced))
  }

  lemma {:induction false} LatestIsLatest<T(!new)>(before: (T, T) -> bool, xs: seq<T>)
    requires forall x, y :: before(x, y) || before(y, x)
    requires forall x, y, z | x in xs && y in xs && z in xs && before(x, y) && before(y, z) :: before(x, z)
    ensures Latest(before, xs).None? <==> xs == []
    ensures Latest(before, xs).Some? ==>
              Latest(before, xs).value in xs && forall x | x in xs :: before(x, Latest(before, xs).value)
  {
    if xs != [] {
      var init, last := xs[..|xs| - 1], xs[|xs| - 1];
      LatestIsLatest(before, init);
      assert forall x | x in xs :: x in init || x == last;
    }
  }

  lemma {:induction false} FilterKeeps<T>(p: T -> bool, xs: seq<T>, x: T)
    ensures x in Filter(p, xs) <==> x in xs && p(x)
  {
    if xs != [] {
      FilterKeeps(p, xs[1..], x);
    }
  }

  /** The filing a row looks back to is the latest one announced by the row's announcement, of those announced the
      same day one with the highest update flag; there is none exactly when nothing was announced by then. */
  lemma LooksBackToTheLatest(incomes: seq<Income>, s: Id, period: Period, asOf: Date)
    ensures Component(incomes, s, period, asOf).None? <==> forall i | i in incomes :: !Seen(i, s, period, asOf)
    ensures var found := Component(incomes, s, period, asOf);
            found.Some? ==>
              && found.value in incomes && Seen(found.value, s, period, asOf)
              && forall i | i in incomes && Seen(i, s, period, asOf) ::
                   || Announced(i).value < Announced(found.value).value
                   || (Announced(i) == Announced(found.value) && i.updateFlag <= found.value.updateFlag)
  {
    var visible := Filter(VisibleIncome(s, period, asOf), incomes);
    forall i
      ensures i in visible <==> i in incomes && Seen(i, s, period, asOf)
    {
      FilterKeeps(VisibleIncome(s, period, asOf), incomes, i);
    }
    LatestIsLatest(ByAnnouncement(), visible);
  }

  /** The profit to date is the reported one, rounded. */
  lemma ProfitToDateIsReported(i: Income)
    ensures Ytd(Some(i)).Some? <==> i.profit.Some?
    ensures Ytd(Some(i)).Some? ==> Reports(i, Ytd(Some(i)).value)
  {
  }

  /** One quarter's profit: what it adds to the profit to date. */
  function QuarterAlone(incomes: seq<Income>, row: Row, year: nat, quarter: nat): real
    requires ToDate(incomes, row, year, quarter).Some?
    requires quarter > 1 ==> ToDate(incomes, row, year, quarter - 1).Some?
  {
    ToDate(incomes, row, year, quarter).value
    - if quarter > 1 then ToDate(incomes, row, year, quarter - 1).value else 0.0
  }

  ghost predicate Sees(incomes: seq<Income>, row: Row, year: nat, first: nat, last: nat) {
    forall k: nat | first <= k <= last :: ToDate(incomes, row, year, k).Some?
  }

  /** The row sees every profit to date that four single quarters up to its own need. */
  ghost predicate SeesFourQuarters(incomes: seq<Income>, row: Row, year: nat, quarter: nat) {
    year > 0 && Sees(incomes, row, year, 1, quarter) && (quarter < 4 ==> Sees(incomes, row, year - 1, quarter, 4))
  }

  /** The sum of the four latest single quarters. */
  function LastFour(incomes: seq<Income>, row: Row, year: nat, quarter: nat): real
    requires 1 <= quarter <= 4 && SeesFourQuarters(incomes, row, year, quarter)
  {
    if quarter == 4 then
      QuarterAlone(incomes, row, year, 1) + QuarterAlone(incomes, row, year, 2)
      + QuarterAlone(incomes, row, year, 3) + QuarterAlone(incomes, row, year, 4)
    else if quarter == 3 then
      QuarterAlone(incomes, row, year - 1, 4)
      + QuarterAlone(incomes, row, year, 1) + QuarterAlone(incomes, row, year, 2)
      + QuarterAlone(incomes, row, year, 3)
    else if quarter == 2 then
      QuarterAlone(incomes, row, year - 1, 3) + QuarterAlone(incomes, row, year - 1, 4)
      + QuarterAlone(incomes, row, year, 1) + QuarterAlone(incomes, row, year, 2)
    else
      QuarterAlone(incomes, row, year - 1, 2) + QuarterAlone(incomes, row, year - 1, 3)
      + QuarterAlone(incomes, row, year - 1, 4) + QuarterAlone(incomes, row, year, 1)
  }

  lemma Digits(year: nat, rest: nat)
    requires rest < 10000
    ensures (year * 10000 + rest) / 10000 == year && (year * 10000 + rest) / 100 % 100 == rest / 100
  {
    var period := year * 10000 + rest;
    assert period / 100 == year * 100 + rest / 100;
    assert period / 100 % 100 == rest / 100;
  }

  lemma QuarterOfItsEnd(year: nat, quarter: nat)
    requires 1 <= quarter <= 4
    ensures Year(QuarterEnd(year, quarter)) == year && Quarter(QuarterEnd(year, quarter)) == quarter
  {
    Digits(year, quarter * 300 + if quarter == 1 || quarter == 4 then 31 else 30);
  }

  lemma QuarterEnds(year: nat, quarter: nat)
    requires 1 <= quarter <= 4
    ensures var period := QuarterEnd(year, quarter);
            && Quarter(period) == quarter && Year(period) == year
            && PreviousQuarter(period) == (if quarter == 1 then None else Some(QuarterEnd(year, quarter - 1)))
            && (year > 0 ==>
                  && YearEndBefore(period) == QuarterEnd(year - 1, 4)
                  && SamePeriodBefore(period) == QuarterEnd(year - 1, quarter))
  {
    QuarterOfItsEnd(year, quarter);
    hide Year, Quarter;
  }

  lemma QuarterEndsDiffer(year: nat, quarter: nat, y: nat, q: nat)
    requires 1 <= quarter <= 4 && 1 <= q <= 4 && QuarterEnd(year, quarter) == QuarterEnd(y, q)
    ensures y == year && q == quarter
  {
    QuarterOfItsEnd(year, quarter);
    QuarterOfItsEnd(y, q);
    hide QuarterEnd, Year, Quarter;
  }

  /** A row's profits. Its profit to date is its own filing's. The quarter's profit added to the profit to date of the
      quarter before gives it back. The trailing profit is the profit to date at a year end; before, it exists exactly
      when last year's full and same profits to date are visible; and it is the sum of the four latest single quarters
      whenever every profit to date they need is visible. */
  lemma ProfitsOfARow(
    incomes: seq<Income>, indicators: seq<Indicator>, openDays: seq<Date>, row: Row, year: nat, quarter: nat)
    requires row in Rows(incomes, indicators, openDays)
    requires year > 0 && 1 <= quarter <= 4 && row.period == QuarterEnd(year, quarter)
    ensures row.quarterly.Some? <==>
            row.ytd.Some? && (quarter > 1 ==> ToDate(incomes, row, year, quarter - 1).Some?)
    ensures row.quarterly.Some? ==>
              row.quarterly.value + (if quarter > 1 then ToDate(incomes, row, year, quarter - 1).value else 0.0)
              == row.ytd.value
    ensures row.trailing.Some? <==>
            row.ytd.Some? && (quarter < 4 ==>
                                && ToDate(incomes, row, year - 1, 4).Some?
                                && ToDate(incomes, row, year - 1, quarter).Some?)
    ensures quarter == 4 ==> row.trailing == row.ytd
    ensures SeesFourQuarters(incomes, row, year, quarter) ==>
              row.trailing == Some(LastFour(incomes, row, year, quarter))
  {
    hide Rows, Component, Ytd, NextOpen, QuarterEnd, Latest, Year, Quarter, PreviousQuarter, YearEndBefore;
    hide SamePeriodBefore;
    var i := RowsComeFromFilings(incomes, indicators, openDays, row);
    QuarterEnds(year, quarter);
    if quarter > 1 && QuarterEnd(year, quarter - 1) == row.period {
      QuarterEndsDiffer(year, quarter, year, quarter - 1);
    }
    if QuarterEnd(year - 1, quarter) == row.period {
      QuarterEndsDiffer(year, quarter, year - 1, quarter);
    }
    if QuarterEnd(year - 1, 4) == row.period {
      QuarterEndsDiffer(year, quarter, year - 1, 4);
    }
    assert ToDate(incomes, row, year, quarter) == row.ytd;
    if SeesFourQuarters(incomes, row, year, quarter) {
      assert ToDate(incomes, row, year, quarter).Some?;
      assert quarter < 4 ==> ToDate(incomes, row, year - 1, 4).Some? && ToDate(incomes, row, year - 1, quarter).Some?;
    }
  }

  // ----- return on equity

  predicate SeenIndicator(x: Indicator, s: Id, period: Period, asOf: Date) {
    x.security == s && x.period == period && x.announcedDate.Some? && x.announcedDate.value <= asOf
  }

  /** A row's return on equity is the yearly percentage of the latest indicator record announced by its own
      announcement, as a fraction to twelve decimals; there is none exactly when no such record gives one. */
  lemma ReturnOfARow(incomes: seq<Income>, indicators: seq<Indicator>, openDays: seq<Date>, row: Row)
    returns (latest: Option<Indicator>)
    requires row in Rows(incomes, indicators, openDays)
    ensures latest.None? <==> forall x | x in indicators :: !SeenIndicator(x, row.security, row.period, row.announced)
    ensures latest.Some? ==>
              && latest.value in indicators && SeenIndicator(latest.value, row.security, row.period, row.announced)
              && forall x | x in indicators && SeenIndicator(x, row.security, row.period, row.announced) ::
                   || x.announcedDate.value < latest.value.announcedDate.value
                   || (x.announcedDate == latest.value.announcedDate && x.updateFlag <= latest.value.updateFlag)
    ensures row.indicator == if latest.None? then None else Some(latest.value.source)
    ensures row.roe.Some? <==> latest.Some? && latest.value.roeYearly.Some?
    ensures row.roe.Some? ==>
              -0.00000000005 <= 100.0 * row.roe.value - latest.value.roeYearly.value <= 0.00000000005
  {
    hide Rows, NextOpen, Component, QuarterProfit, TrailingProfit;
    var i := RowsComeFromFilings(incomes, indicators, openDays, row);
    var visible := Filter(VisibleIndicator(row.security, row.period, row.announced), indicators);
    forall x
      ensures x in visible <==> x in indicators && SeenIndicator(x, row.security, row.period, row.announced)
    {
      FilterKeeps(VisibleIndicator(row.security, row.period, row.announced), indicators, x);
    }
    LatestIsLatest(ByIndicatorDate(), visible);
    latest := Latest(ByIndicatorDate(), visible);
    if latest.Some? && latest.value.roeYearly.Some? {
      PercentageIsClose(latest.value.roeYearly.value);
    }
  }

  lemma PercentageIsClose(percent: real)
    ensures AnnualizedRoe(Some(percent)).Some?
    ensures -0.00000000005 <= 100.0 * AnnualizedRoe(Some(percent)).value - percent <= 0.00000000005
  {
  }

  // ----- revision numbers

  /** The rows of one security and period. */
  function CountOf(rows: seq<Row>, s: Id, period: Period): nat {
    if rows == [] then 0
    else (if rows[0].security == s && rows[0].period == period then 1 else 0) + CountOf(rows[1..], s, period)
  }

  lemma CountFromTheFirst(first: Row, more: seq<Row>, k: nat, s: Id, period: Period)
    requires 0 < k <= |more| + 1
    ensures CountOf(([first] + more)[..k], s, period)
            == (if first.security == s && first.period == period then 1 else 0) + CountOf(more[..k - 1], s, period)
  {
    assert ([first] + more)[..k][1..] == more[..k - 1] && ([first] + more)[..k][0] == first;
  }

  lemma {:induction false} LoopCountsRevisions(
    incomes: seq<Income>, indicators: seq<Indicator>, openDays: seq<Date>, rest: seq<Income>, revisions: Revisions,
    k: nat)
    requires k < |RowsFrom(incomes, indicators, openDays, rest, revisions)|
    ensures var rows := RowsFrom(incomes, indicators, openDays, rest, revisions);
            var key := (rows[k].security, rows[k].period);
            rows[k].revision
            == CountOf(rows[..k], key.0, key.1) + 1 + if key in revisions then revisions[key] else 0
    decreases |rest|
  {
    hide NextOpen;
    var i := rest[0];
    var available := AvailableFrom(Announced(i), openDays);
    if available.None? {
      LoopCountsRevisions(incomes, indicators, openDays, rest[1..], revisions, k);
    } else {
      var key := (i.security, i.period);
      var revision := Revised(revisions, key);
      var first := RowOf(incomes, indicators, i, Announced(i).value, available.value, revision);
      RowIsOf(incomes, indicators, i, Announced(i).value, available.value, revision);
      hide RowOf;
      var more := RowsFrom(incomes, indicators, openDays, rest[1..], revisions[key := revision]);
      var rows := RowsFrom(incomes, indicators, openDays, rest, revisions);
      assert rows == [first] + more;
      if k > 0 {
        LoopCountsRevisions(incomes, indicators, openDays, rest[1..], revisions[key := revision], k - 1);
        CountFromTheFirst(first, more, k, rows[k].security, rows[k].period);
        hide CountOf;
      }
    }
  }

  lemma RowIsOf(
    incomes: seq<Income>, indicators: seq<Indicator>, i: Income, announced: Date, available: Date, revision: nat)
    ensures var row := RowOf(incomes, indicators, i, announced, available, revision);
            row.security == i.security && row.period == i.period && row.revision == revision
            && row.announced == announced && row.available == available
  {
    hide Component, Latest, QuarterProfit, TrailingProfit;
  }

  /** A row's revision number is its place among the rows of its security and period, in derivation order. */
  lemma RevisionsCount(incomes: seq<Income>, indicators: seq<Indicator>, openDays: seq<Date>, k: nat)
    requires k < |Derived(incomes, indicators, openDays)|
    ensures var rows := Derived(incomes, indicators, openDays);
            rows[k].revision == CountOf(rows[..k], rows[k].security, rows[k].period) + 1
  {
    LoopCountsRevisions(incomes, indicators, openDays, Sort(BySecurityPeriodDate(), incomes), map[], k);
  }

  lemma {:induction false} LoopKeepsOrder(
    incomes: seq<Income>, indicators: seq<Indicator>, openDays: seq<Date>, rest: seq<Income>, revisions: Revisions,
    j: nat, k: nat)
    requires Sorted(BySecurityPeriodDate(), rest)
    requires j < k < |RowsFrom(incomes, indicators, openDays, rest, revisions)|
    ensures var rows := RowsFrom(incomes, indicators, openDays, rest, revisions);
            rows[j].security == rows[k].security && rows[j].period == rows[k].period ==>
              rows[j].announced <= rows[k].announced
    decreases |rest|
  {
    hide NextOpen, RowOf;
    var i := rest[0];
    var available := AvailableFrom(Announced(i), openDays);
    assert Sorted(BySecurityPeriodDate(), rest[1..]);
    if available.None? {
      LoopKeepsOrder(incomes, indicators, openDays, rest[1..], revisions, j, k);
    } else {
      var key := (i.security, i.period);
      var revision := Revised(revisions, key);
      var next := revisions[key := revision];
      var more := RowsFrom(incomes, indicators, openDays, rest[1..], next);
      if j > 0 {
        LoopKeepsOrder(incomes, indicators, openDays, rest[1..], next, j - 1, k - 1);
      } else {
        RowIsOf(incomes, indicators, i, Announced(i).value, available.value, revision);
        var later := LoopRowsComeFrom(incomes, indicators, openDays, rest[1..], next, more[k - 1]);
        RowIsOf(incomes, indicators, later, Announced(later).value,
                AvailableFrom(Announced(later), openDays).value, more[k - 1].revision);
        var n :| 0 < n < |rest| && rest[n] == later;
        assert BySecurityPeriodDate()(rest[0], rest[n]);
      }
    }
  }

  /** And that order is the order of announcement. */
  lemma RevisionsFollowAnnouncements(
    incomes: seq<Income>, indicators: seq<Indicator>, openDays: seq<Date>, j: nat, k: nat)
    requires j < k < |Derived(incomes, indicators, openDays)|
    ensures var rows := Derived(incomes, indicators, openDays);
            rows[j].security == rows[k].security && rows[j].period == rows[k].period ==>
              rows[j].announced <= rows[k].announced
  {
    SortIsTotal();
    SortSorts(BySecurityPeriodDate(), incomes);
    LoopKeepsOrder(incomes, indicators, openDays, Sort(BySecurityPeriodDate(), incomes), map[], j, k);
  }

  // ----- loss streaks

  /** Some row of the list has that row's period and is available later, or then too and of no earlier revision. */
  ghost predicate Covers(rows: seq<Row>, x: Row) {
    exists e | e in rows ::
      && e.period == x.period
      && (x.available < e.available || (x.available == e.available && x.revision <= e.revision))
  }

  ghost predicate PeriodsDiffer(rows: seq<Row>) {
    forall i, j | 0 <= i < j < |rows| :: rows[i].period != rows[j].period
  }

  /** One row per period, each the newest seen of it. */
  ghost predicate NewestOfEach(latest: seq<Row>, seen: seq<Row>) {
    && (forall row | row in latest :: row in seen)
    && PeriodsDiffer(latest)
    && forall row | row in seen :: Covers(latest, row)
  }

  lemma {:induction false} RememberedRows(latest: seq<Row>, row: Row, x: Row)
    requires x in Remember(latest, row)
    ensures x in latest || x == row
  {
    if latest != [] && latest[0].period != row.period {
      if x != latest[0] {
        RememberedRows(latest[1..], row, x);
      }
    }
  }

  lemma {:induction false} RememberCovers(latest: seq<Row>, row: Row, x: Row)
    requires x == row || Covers(latest, x)
    ensures Covers(Remember(latest, row), x)
  {
    var r := Remember(latest, row);
    if latest == [] || latest[0].period == row.period {
      assert r[0] in r;
      if x != row {
        var e :| e in latest && e.period == x.period
                  && (x.available < e.available || (x.available == e.available && x.revision <= e.revision));
        assert e == latest[0] || e in latest[1..];
        assert e != latest[0] ==> e in r;
      }
    } else {
      var rest := Remember(latest[1..], row);
      assert r == [latest[0]] + rest;
      if x != row {
        var e :| e in latest && e.period == x.period
                  && (x.available < e.available || (x.available == e.available && x.revision <= e.revision));
        if e == latest[0] {
          assert e in r;
          return;
        }
        assert e in latest[1..];
      }
      RememberCovers(latest[1..], row, x);
      var e :| e in rest && e.period == x.period
                  && (x.available < e.available || (x.available == e.available && x.revision <= e.revision));
      assert e in r;
    }
  }

  lemma {:induction false} RememberKeepsPeriods(latest: seq<Row>, row: Row)
    requires PeriodsDiffer(latest)
    ensures PeriodsDiffer(Remember(latest, row))
  {
    hide Newer;
    if latest != [] && latest[0].period != row.period {
      RememberKeepsPeriods(latest[1..], row);
      var r := Remember(latest[1..], row);
      forall k | 0 <= k < |r|
        ensures r[k].period != latest[0].period
      {
        PeriodsComeFrom(latest[1..], row, k);
      }
    }
  }

  lemma {:induction false} PeriodsComeFrom(latest: seq<Row>, row: Row, k: nat)
    requires k < |Remember(latest, row)|
    ensures var r := Remember(latest, row);
            r[k].period == row.period || exists i | 0 <= i < |latest| :: latest[i].period == r[k].period
  {
    if latest != [] && latest[0].period != row.period && k > 0 {
      PeriodsComeFrom(latest[1..], row, k - 1);
      if Remember(latest[1..], row)[k - 1].period != row.period {
        var i :| 0 <= i < |latest[1..]| && latest[1..][i].period == Remember(latest[1..], row)[k - 1].period;
        assert latest[i + 1].period == Remember(latest, row)[k].period;
      }
    }
  }

  lemma {:induction false} LatestByPeriodIsNewest(seen: seq<Row>)
    ensures NewestOfEach(LatestByPeriod(seen), seen)
  {
    hide Remember, Newer, PeriodsDiffer, Covers;
    if seen != [] {
      var n := |seen| - 1;
      var before, row := LatestByPeriod(seen[..n]), seen[n];
      LatestByPeriodIsNewest(seen[..n]);
      var after := LatestByPeriod(seen);
      assert after == Remember(before, row);
      RememberKeepsPeriods(before, row);
      forall x | x in after
        ensures x in seen
      {
        RememberedRows(before, row, x);
      }
      forall x | x in seen
        ensures Covers(after, x)
      {
        assert x in seen[..n] || x == row;
        RememberCovers(before, row, x);
      }
    } else {
      NothingDiffers();
    }
  }

  lemma NothingDiffers()
    ensures PeriodsDiffer([])
  {
  }

  predicate Loses(row: Row) {
    row.quarterly.Some? && row.quarterly.value < 0.0
  }

  lemma PeriodOrderIsTotal()
    ensures TotalPreorder(NewestPeriodFirst())
  {
  }

  /** The rows a loss streak looks at: of the security, up to the row's period, available when the row is. */
  predicate LooksAt(row: Row, x: Row) {
    x.security == row.security && x.period <= row.period && x.available <= row.available
  }

  /** The newest row of each period a row looks at, latest period first. */
  ghost predicate Quarters(output: seq<Row>, row: Row, quarters: seq<Row>) {
    && (forall x | x in quarters :: x in output && LooksAt(row, x))
    && (forall i, j | 0 <= i < j < |quarters| :: quarters[i].period > quarters[j].period)
    && forall x | x in output && LooksAt(row, x) :: Covers(quarters, x)
  }

  /** The first `n` rows lose, and the next does not. */
  ghost predicate Front(quarters: seq<Row>, n: nat) {
    && n <= |quarters| && (forall k | 0 <= k < n :: Loses(quarters[k])) && (n < |quarters| ==> !Loses(quarters[n]))
  }

  function StreakOf(quarters: seq<Row>, n: nat): Option<nat> {
    if n < |quarters| && quarters[n].quarterly.None? then None else Some(n)
  }

  /** The streak of rows: the losing ones in front, unknown when a row without a profit ends them. */
  ghost predicate IsStreak(quarters: seq<Row>, losses: Option<nat>) {
    exists n: nat :: Front(quarters, n) && losses == StreakOf(quarters, n)
  }

  lemma OneMoreInFront(rows: seq<Row>, n: nat)
    requires rows != [] && Loses(rows[0]) && Front(rows[1..], n)
    ensures Front(rows, n + 1)
  {
    hide Loses;
    forall k | 0 <= k < n + 1
      ensures Loses(rows[k])
    {
      assert k > 0 ==> rows[k] == rows[1..][k - 1];
    }
  }

  lemma {:induction false} StreakCountsLosses(rows: seq<Row>)
    ensures IsStreak(rows, LossStreak(rows))
  {
    hide Front;
    if rows != [] && Loses(rows[0]) {
      StreakCountsLosses(rows[1..]);
      var n: nat :| Front(rows[1..], n) && LossStreak(rows[1..]) == StreakOf(rows[1..], n);
      OneMoreInFront(rows, n);
      assert LossStreak(rows) == StreakOf(rows, n + 1);
    } else {
      NothingInFront(rows);
      assert LossStreak(rows) == StreakOf(rows, 0);
    }
  }

  lemma NothingInFront(rows: seq<Row>)
    requires rows == [] || !Loses(rows[0])
    ensures Front(rows, 0)
  {
  }

  lemma SeenAreLookedAt(output: seq<Row>, row: Row)
    ensures forall x :: x in Filter(SeenBy(row), output) <==> x in output && LooksAt(row, x)
  {
    hide Filter;
    forall x
      ensures x in Filter(SeenBy(row), output) <==> x in output && LooksAt(row, x)
    {
      FilterKeeps(SeenBy(row), output, x);
    }
  }

  lemma SortingKeepsCovers(latest: seq<Row>, x: Row)
    ensures Covers(latest, x) ==> Covers(Sort(NewestPeriodFirst(), latest), x)
  {
    hide Sort;
    PeriodOrderIsTotal();
    forall e
      ensures e in Sort(NewestPeriodFirst(), latest) <==> e in latest
    {
      SortKeepsMembers(NewestPeriodFirst(), latest, e);
    }
  }

  lemma SortedQuarters(output: seq<Row>, row: Row, latest: seq<Row>)
    requires NewestOfEach(latest, Filter(SeenBy(row), output))
    ensures Quarters(output, row, Sort(NewestPeriodFirst(), latest))
  {
    hide Sort, Filter, Covers, LooksAt, PeriodsDiffer;
    SeenAreLookedAt(output, row);
    PeriodOrderIsTotal();
    SortSorts(NewestPeriodFirst(), latest);
    forall x
      ensures x in Sort(NewestPeriodFirst(), latest) <==> x in latest
      ensures Covers(latest, x) ==> Covers(Sort(NewestPeriodFirst(), latest), x)
    {
      SortKeepsMembers(NewestPeriodFirst(), latest, x);
      SortingKeepsCovers(latest, x);
    }
    SortedPeriodsFall(latest, Sort(NewestPeriodFirst(), latest));
  }

  /** A row's loss streak. Of the rows of its security up to its period that are available when it is, take the newest
      of each period, latest period first: the streak is the number of losing quarters in front, or unknown when a
      quarter without a profit ends it. */
  lemma LossesOfARow(incomes: seq<Income>, indicators: seq<Indicator>, openDays: seq<Date>, row: Row)
    returns (quarters: seq<Row>)
    requires row in Rows(incomes, indicators, openDays)
    ensures Quarters(Derived(incomes, indicators, openDays), row, quarters) && IsStreak(quarters, row.losses)
  {
    hide Derived, Rows, Quarters, IsStreak, NewestOfEach, Filter, Sort, LatestByPeriod;
    var derived := PublishedRow(incomes, indicators, openDays, row);
    var output := Derived(incomes, indicators, openDays);
    var latest := LatestByPeriod(Filter(SeenBy(derived), output));
    LatestByPeriodIsNewest(Filter(SeenBy(derived), output));
    SortedQuarters(output, derived, latest);
    quarters := Sort(NewestPeriodFirst(), latest);
    StreakCountsLosses(quarters);
    LooksAlike(output, derived, row, quarters);
  }

  lemma LooksAlike(output: seq<Row>, a: Row, b: Row, quarters: seq<Row>)
    requires a.security == b.security && a.period == b.period && a.available == b.available
    requires Quarters(output, a, quarters)
    ensures Quarters(output, b, quarters)
  {
    hide Covers;
  }

  /** Sorting distinct periods gives strictly falling ones. */
  lemma SortedPeriodsFall(latest: seq<Row>, quarters: seq<Row>)
    requires Sorted(NewestPeriodFirst(), quarters) && multiset(quarters) == multiset(latest)
    requires PeriodsDiffer(latest)
    ensures forall i, j | 0 <= i < j < |quarters| :: quarters[i].period > quarters[j].period
  {
    forall i, j | 0 <= i < j < |quarters|
      ensures quarters[i].period > quarters[j].period
    {
      assert NewestPeriodFirst()(quarters[i], quarters[j]);
      if quarters[i].period == quarters[j].period {
        SamePeriodTwice(latest, quarters, i, j);
      }
    }
  }

  lemma SamePeriodTwice(latest: seq<Row>, quarters: seq<Row>, i: nat, j: nat)
    requires i < j < |quarters| && multiset(quarters) == multiset(latest)
    requires quarters[i].period == quarters[j].period
    ensures exists a, b | 0 <= a < b < |latest| :: latest[a].period == latest[b].period
  {
    var x, y := quarters[i], quarters[j];
    assert x in multiset(latest) && y in multiset(latest);
    if x != y {
      var a :| 0 <= a < |latest| && latest[a] == x;
      var b :| 0 <= b < |latest| && latest[b] == y;
      if a < b {
        assert latest[a].period == latest[b].period;
      } else {
        assert latest[b].period == latest[a].period;
      }
    } else {
      TwiceInTwo(quarters, i, j);
      CountedTwice(latest, x);
    }
  }

  lemma TwiceInTwo(rows: seq<Row>, i: nat, j: nat)
    requires i < j < |rows| && rows[i] == rows[j]
    ensures multiset(rows)[rows[i]] >= 2
  {
    assert rows == rows[..j] + rows[j..];
    assert rows[i] in rows[..j] && rows[j] in rows[j..];
  }

  lemma CountedTwice(rows: seq<Row>, x: Row)
    requires multiset(rows)[x] >= 2
    ensures exists a, b | 0 <= a < b < |rows| :: rows[a].period == rows[b].period
  {
    var a :| 0 <= a < |rows| && rows[a] == x;
    assert rows == rows[..a] + [rows[a]] + rows[a + 1..];
    assert multiset(rows) == multiset(rows[..a]) + multiset{x} + multiset(rows[a + 1..]);
    if x in rows[..a] {
      var b :| 0 <= b < a && rows[..a][b] == x;
      assert rows[b].period == rows[a].period;
    } else {
      assert x in rows[a + 1..];
      var b :| 0 <= b < |rows[a + 1..]| && rows[a + 1..][b] == x;
      assert rows[a].period == rows[a + 1 + b].period;
    }
  }
}
