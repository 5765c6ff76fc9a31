/** Point-in-time noninterference: what becomes available after a day cannot change any row that is
    available by that day. */
module PointInTime {
  import opened Base
  import opened Sequences
  import opened FinancialRows

  /** Records available by the cut-off day. */
  function Kept(openDays: seq<Date>, day: Date): Income -> bool {
    (i: Income) => AvailableBy(Announced(i), openDays, day)
  }

  function KeptIndicator(openDays: seq<Date>, day: Date): Indicator -> bool {
    (i: Indicator) => AvailableBy(i.announcedDate, openDays, day)
  }

  function RowBy(day: Date): Row -> bool {
    (row: Row) => row.available <= day
  }

  lemma EarlierIsAvailable(early: Date, late: Date, openDays: seq<Date>, day: Date)
    requires early <= late && AvailableBy(Some(late), openDays, day)
    ensures AvailableBy(Some(early), openDays, day)
  {
    NextOpenIsMonotone(early, late, openDays);
  }

  /** The earlier filing a row looks back to was announced by the row's own announcement, so cutting
      cannot remove it. */
  lemma ComponentSurvivesCut(
    incomes: seq<Income>, openDays: seq<Date>, day: Date, s: Id, period: Period, asOf: Date)
    requires AvailableBy(Some(asOf), openDays, day)
    ensures Component(Filter(Kept(openDays, day), incomes), s, period, asOf) == Component(incomes, s, period, asOf)
  {
    forall i | i in incomes && VisibleIncome(s, period, asOf)(i)
      ensures Kept(openDays, day)(i)
    {
      EarlierIsAvailable(Announced(i).value, asOf, openDays, day);
    }
    WeakerFilterFirst(VisibleIncome(s, period, asOf), Kept(openDays, day), incomes);
  }

  lemma IndicatorSurvivesCut(
    indicators: seq<Indicator>, openDays: seq<Date>, day: Date, s: Id, period: Period, asOf: Date)
    requires AvailableBy(Some(asOf), openDays, day)
    ensures Filter(VisibleIndicator(s, period, asOf), Filter(KeptIndicator(openDays, day), indicators))
            == Filter(VisibleIndicator(s, period, asOf), indicators)
  {
    forall i | i in indicators && VisibleIndicator(s, period, asOf)(i)
      ensures KeptIndicator(openDays, day)(i)
    {
      EarlierIsAvailable(i.announcedDate.value, asOf, openDays, day);
    }
    WeakerFilterFirst(VisibleIndicator(s, period, asOf), KeptIndicator(openDays, day), indicators);
  }

  lemma RowSurvivesCut(
    incomes: seq<Income>, indicators: seq<Indicator>, openDays: seq<Date>, day: Date,
    i: Income, announced: Date, available: Date, revision: nat)
    requires AvailableBy(Some(announced), openDays, day)
    ensures RowOf(Filter(Kept(openDays, day), incomes), Filter(KeptIndicator(openDays, day), indicators),
                  i, announced, available, revision)
            == RowOf(incomes, indicators, i, announced, available, revision)
  {
    var s, period := i.security, i.period;
    if PreviousQuarter(period).Some? {
      ComponentSurvivesCut(incomes, openDays, day, s, PreviousQuarter(period).value, announced);
    }
    ComponentSurvivesCut(incomes, openDays, day, s, YearEndBefore(period), announced);
    ComponentSurvivesCut(incomes, openDays, day, s, SamePeriodBefore(period), announced);
    IndicatorSurvivesCut(indicators, openDays, day, s, period, announced);
  }

  /** Revision counters of the full and the cut run agree wherever a kept record is still to come. */
  ghost predicate CountersAgree(
    full: Revisions, cut: Revisions, rest: seq<Income>, openDays: seq<Date>, day: Date)
  {
    forall i | i in rest && Kept(openDays, day)(i) ::
      Revised(full, (i.security, i.period)) == Revised(cut, (i.security, i.period))
  }

  /** Once a record of a period is too late, so is every later one of that period. */
  lemma LateStaysLate(rest: seq<Income>, openDays: seq<Date>, day: Date, j: Income)
    requires rest != [] && Sorted(BySecurityPeriodDate(), rest) && j in rest[1..]
    requires j.security == rest[0].security && j.period == rest[0].period
    requires AvailableFrom(Announced(rest[0]), openDays).Some? && !Kept(openDays, day)(rest[0])
    ensures !Kept(openDays, day)(j)
  {
    var k :| 0 < k < |rest| && rest[k] == j;
    assert BySecurityPeriodDate()(rest[0], rest[k]);
    if Kept(openDays, day)(j) {
      EarlierIsAvailable(Announced(rest[0]).value, Announced(j).value, openDays, day);
    }
  }

  /** The main loop on the cut input produces exactly the timely rows of the full one. */
  lemma {:induction false} LoopSurvivesCut(
    incomes: seq<Income>, indicators: seq<Indicator>, openDays: seq<Date>, day: Date,
    rest: seq<Income>, full: Revisions, cut: Revisions)
    requires Sorted(BySecurityPeriodDate(), rest) && CountersAgree(full, cut, rest, openDays, day)
    ensures RowsFrom(Filter(Kept(openDays, day), incomes), Filter(KeptIndicator(openDays, day), indicators), openDays,
                     Filter(Kept(openDays, day), rest), cut)
            == Filter(RowBy(day), RowsFrom(incomes, indicators, openDays, rest, full))
    decreases |rest|
  {
    hide RowOf;
    if rest != [] {
      var i := rest[0];
      var key := (i.security, i.period);
      var kept := Kept(openDays, day);
      var available := AvailableFrom(Announced(i), openDays);
      if available.None? {
        LoopSurvivesCut(incomes, indicators, openDays, day, rest[1..], full, cut);
      } else {
        var revision := Revised(full, key);
        var row := RowOf(incomes, indicators, i, Announced(i).value, available.value, revision);
        RowIsAvailableThen(incomes, indicators, i, Announced(i).value, available.value, revision);
        var nextFull := full[key := revision];
        FilterHead(RowBy(day), row, RowsFrom(incomes, indicators, openDays, rest[1..], nextFull));
        if kept(i) {
          RowSurvivesCut(incomes, indicators, openDays, day, i, Announced(i).value, available.value, revision);
          LoopSurvivesCut(incomes, indicators, openDays, day, rest[1..], nextFull, cut[key := revision]);
          var tail := Filter(kept, rest[1..]);
          assert ([i] + tail)[1..] == tail;
        } else {
          forall j | j in rest[1..] && kept(j)
            ensures Revised(nextFull, (j.security, j.period)) == Revised(cut, (j.security, j.period))
          {
            if (j.security, j.period) == key {
              LateStaysLate(rest, openDays, day, j);
            }
          }
          LoopSurvivesCut(incomes, indicators, openDays, day, rest[1..], nextFull, cut);
        }
      }
    }
  }

  lemma RowIsAvailableThen(
    incomes: seq<Income>, indicators: seq<Indicator>, i: Income, announced: Date, available: Date, revision: nat)
    ensures RowOf(incomes, indicators, i, announced, available, revision).available == available
  {
  }

  lemma DateOrderIsTotal()
    ensures TotalPreorder(BySecurityPeriodDate())
  {
  }

  lemma PublicationOrderIsTotal()
    ensures TotalPreorder(ByPublication())
  {
  }

  lemma DerivedSurvivesCut(incomes: seq<Income>, indicators: seq<Indicator>, openDays: seq<Date>, day: Date)
    ensures Derived(Filter(Kept(openDays, day), incomes), Filter(KeptIndicator(openDays, day), indicators), openDays)
            == Filter(RowBy(day), Derived(incomes, indicators, openDays))
  {
    DateOrderIsTotal();
    FilterCommutesWithSort(Kept(openDays, day), BySecurityPeriodDate(), incomes);
    SortSorts(BySecurityPeriodDate(), incomes);
    LoopSurvivesCut(incomes, indicators, openDays, day, Sort(BySecurityPeriodDate(), incomes), map[], map[]);
  }

  /** A timely row's loss streak reads timely rows only. */
  lemma LossesSurviveCut(output: seq<Row>, current: Row, day: Date)
    requires current.available <= day
    ensures Losses(Filter(RowBy(day), output), current) == Losses(output, current)
  {
    WeakerFilterFirst(SeenBy(current), RowBy(day), output);
  }

  lemma {:induction false} ColumnSurvivesCut(output: seq<Row>, rows: seq<Row>, day: Date)
    ensures WithLosses(Filter(RowBy(day), output), Filter(RowBy(day), rows))
            == Filter(RowBy(day), WithLosses(output, rows))
  {
    if rows != [] {
      hide Losses;
      ColumnSurvivesCut(output, rows[1..], day);
      var filled := rows[0].(losses := Losses(output, rows[0]));
      FilterHead(RowBy(day), filled, WithLosses(output, rows[1..]));
      if rows[0].available <= day {
        LossesSurviveCut(output, rows[0], day);
        var tail := Filter(RowBy(day), rows[1..]);
        assert ([rows[0]] + tail)[1..] == tail;
      }
    }
  }

  /** Noninterference. Deleting every income and indicator record that only becomes available after a
      day leaves the rows available by that day exactly as they were, in the same order: revision
      numbers, quarter and trailing profits, return on equity and loss streaks included. */
  lemma LaterRecordsCannotChangeEarlierRows(
    incomes: seq<Income>, indicators: seq<Indicator>, openDays: seq<Date>, day: Date)
    ensures Rows(Filter(Kept(openDays, day), incomes), Filter(KeptIndicator(openDays, day), indicators), openDays)
            == Filter(RowBy(day), Rows(incomes, indicators, openDays))
  {
    var output := Derived(incomes, indicators, openDays);
    DerivedSurvivesCut(incomes, indicators, openDays, day);
    ColumnSurvivesCut(output, output, day);
    PublicationOrderIsTotal();
    FilterCommutesWithSort(RowBy(day), ByPublication(), WithLosses(output, output));
  }

  // ----- cutting on the announcement date instead

  function AnnouncedBy(day: Date): Income -> bool {
    (i: Income) => Announced(i).Some? && Announced(i).value <= day
  }

  function IndicatorAnnouncedBy(day: Date): Indicator -> bool {
    (i: Indicator) => i.announcedDate.Some? && i.announcedDate.value <= day
  }

  function RowAnnouncedBy(day: Date): Row -> bool {
    (row: Row) => row.announced <= day
  }

  function CutByAnnouncement(
    incomes: seq<Income>, indicators: seq<Indicator>, openDays: seq<Date>, day: Date): seq<Row>
  {
    Rows(Filter(AnnouncedBy(day), incomes), Filter(IndicatorAnnouncedBy(day), indicators), openDays)
  }

  /** Deleting every record announced after the day leaves the rows announced by then as they were, whatever
      had been filed. */
  ghost predicate AnnouncementCutIsSafe(openDays: seq<Date>, day: Date) {
    forall incomes, indicators ::
      CutByAnnouncement(incomes, indicators, openDays, day)
      == Filter(RowAnnouncedBy(day), Rows(incomes, indicators, openDays))
  }

  /** Each row is available from the first open day after its announcement. */
  ghost predicate AvailableNext(rows: seq<Row>, openDays: seq<Date>) {
    forall row | row in rows :: NextOpen(row.announced, openDays) == Some(row.available)
  }

  lemma {:induction false} LoopRowsAreAvailableNext(
    incomes: seq<Income>, indicators: seq<Indicator>, openDays: seq<Date>, rest: seq<Income>, revisions: Revisions)
    ensures AvailableNext(RowsFrom(incomes, indicators, openDays, rest, revisions), openDays)
    decreases |rest|
  {
    hide NextOpen;
    if rest != [] {
      var i := rest[0];
      if AvailableFrom(Announced(i), openDays).Some? {
        var key := (i.security, i.period);
        LoopRowsAreAvailableNext(incomes, indicators, openDays, rest[1..], revisions[key := Revised(revisions, key)]);
      } else {
        LoopRowsAreAvailableNext(incomes, indicators, openDays, rest[1..], revisions);
      }
    }
  }

  lemma {:induction false} ColumnKeepsAvailability(output: seq<Row>, rows: seq<Row>, openDays: seq<Date>)
    requires AvailableNext(rows, openDays)
    ensures AvailableNext(WithLosses(output, rows), openDays)
  {
    hide NextOpen, Losses;
    if rows != [] {
      assert forall row | row in rows[1..] :: row in rows;
      ColumnKeepsAvailability(output, rows[1..], openDays);
    }
  }

  lemma RowsAreAvailableNext(incomes: seq<Income>, indicators: seq<Indicator>, openDays: seq<Date>)
    ensures AvailableNext(Rows(incomes, indicators, openDays), openDays)
  {
    hide NextOpen, RowsFrom, WithLosses, Sort;
    var output := Derived(incomes, indicators, openDays);
    LoopRowsAreAvailableNext(incomes, indicators, openDays, Sort(BySecurityPeriodDate(), incomes), map[]);
    ColumnKeepsAvailability(output, output, openDays);
    PublicationOrderIsTotal();
    forall row | row in Rows(incomes, indicators, openDays)
      ensures NextOpen(row.announced, openDays) == Some(row.available)
    {
      SortKeepsMembers(ByPublication(), WithLosses(output, output), row);
    }
  }

  /** When the day after is a trading day, announced by the day is available by the day after. */
  lemma CutBeforeATradingDay(incomes: seq<Income>, indicators: seq<Indicator>, openDays: seq<Date>, day: Date)
    requires NextOpen(day, openDays) == Some(day + 1)
    ensures CutByAnnouncement(incomes, indicators, openDays, day)
            == Filter(RowAnnouncedBy(day), Rows(incomes, indicators, openDays))
  {
    hide Rows, NextOpen;
    forall announced: Date
      ensures announced <= day <==> AvailableBy(Some(announced), openDays, day + 1)
    {
      NextOpenIsFirst(announced, openDays);
      NextOpenIsFirst(day, openDays);
    }
    SameFilter(AnnouncedBy(day), Kept(openDays, day + 1), incomes);
    SameFilter(IndicatorAnnouncedBy(day), KeptIndicator(openDays, day + 1), indicators);
    LaterRecordsCannotChangeEarlierRows(incomes, indicators, openDays, day + 1);
    var rows := Rows(incomes, indicators, openDays);
    RowsAreAvailableNext(incomes, indicators, openDays);
    forall row | row in rows
      ensures RowAnnouncedBy(day)(row) <==> RowBy(day + 1)(row)
    {
      assert AvailableBy(Some(row.announced), openDays, day + 1) <==> row.available <= day + 1;
    }
    SameFilter(RowAnnouncedBy(day), RowBy(day + 1), rows);
  }

  /** When no trading day follows, what was announced later never becomes a row and is never read by one. */
  lemma CutAfterTheLastTradingDay(incomes: seq<Income>, indicators: seq<Indicator>, openDays: seq<Date>, day: Date)
    requires NextOpen(day, openDays) == None
    ensures CutByAnnouncement(incomes, indicators, openDays, day)
            == Filter(RowAnnouncedBy(day), Rows(incomes, indicators, openDays))
  {
    hide Rows, NextOpen;
    AllAvailableByTheLastDay(incomes, indicators, openDays, day);
    var cutIncomes, cutIndicators := Filter(AnnouncedBy(day), incomes), Filter(IndicatorAnnouncedBy(day), indicators);
    AllAvailableByTheLastDay(cutIncomes, cutIndicators, openDays, day);
    LaterRecordsCannotChangeEarlierRows(incomes, indicators, openDays, day);
    LaterRecordsCannotChangeEarlierRows(cutIncomes, cutIndicators, openDays, day);
    forall announced: Date | AvailableBy(Some(announced), openDays, day)
      ensures announced <= day
    {
      NextOpenIsFirst(announced, openDays);
    }
    WeakerFilterFirst(Kept(openDays, day), AnnouncedBy(day), incomes);
    WeakerFilterFirst(KeptIndicator(openDays, day), IndicatorAnnouncedBy(day), indicators);
  }

  lemma AllAvailableByTheLastDay(incomes: seq<Income>, indicators: seq<Indicator>, openDays: seq<Date>, day: Date)
    requires NextOpen(day, openDays) == None
    ensures Filter(RowBy(day), Rows(incomes, indicators, openDays)) == Rows(incomes, indicators, openDays)
    ensures Filter(RowAnnouncedBy(day), Rows(incomes, indicators, openDays)) == Rows(incomes, indicators, openDays)
  {
    hide Rows, NextOpen;
    var rows := Rows(incomes, indicators, openDays);
    RowsAreAvailableNext(incomes, indicators, openDays);
    forall row | row in rows
      ensures RowBy(day)(row) && RowAnnouncedBy(day)(row)
    {
      NextOpenIsFirst(row.announced, openDays);
      NextOpenIsFirst(day, openDays);
    }
    FilterKeepsAll(RowBy(day), rows);
    FilterKeepsAll(RowAnnouncedBy(day), rows);
  }

  // ----- otherwise two filings show the difference

  function LossFiled(day: Date): Income {
    Income(1, 20200331, Some(day), None, 0, Some(-1.0), 0)
  }

  /** The same quarter, corrected to a profit. */
  function CorrectionFiled(day: Date): Income {
    Income(1, 20200331, Some(day), None, 0, Some(1.0), 1)
  }

  lemma FirstQuarterProfit(incomes: seq<Income>, i: Income, announced: Date, available: Date, revision: nat)
    requires i == LossFiled(announced) || i == CorrectionFiled(announced)
    ensures var row := RowOf(incomes, [], i, announced, available, revision);
            && row.security == 1 && row.period == 20200331 && row.announced == announced
            && row.available == available && row.revision == revision
            && row.quarterly == Some(if i == LossFiled(announced) then -10000.0 else 10000.0)
  {
    hide Component;
    assert Quarter(20200331) == 1;
    assert Ytd(Some(LossFiled(announced))) == Some(-10000.0);
    assert Ytd(Some(CorrectionFiled(announced))) == Some(10000.0);
  }

  lemma OneRowLosses(row: Row)
    requires row.quarterly.Some? && row.quarterly.value < 0.0
    ensures Losses([row], row) == Some(1)
  {
    FilterKeepsAll(SeenBy(row), [row]);
    assert [row][..0] == [] && [row][1..] == [];
    assert LatestByPeriod([]) == [] && LatestByPeriod([row]) == [row];
    assert Sort(NewestPeriodFirst(), []) == [] && Sort(NewestPeriodFirst(), [row]) == [row];
    assert LossStreak([row]) == Some(1);
  }

  lemma TwoRowsLosses(first: Row, second: Row)
    requires first.security == second.security && first.period == second.period && first.available == second.available
    requires first.revision < second.revision && second.quarterly.Some? && second.quarterly.value >= 0.0
    ensures Losses([first, second], first) == Some(0)
  {
    FilterKeepsAll(SeenBy(first), [first, second]);
    assert [first][..0] == [] && [first, second][..1] == [first];
    assert LatestByPeriod([]) == [] && LatestByPeriod([first]) == [first];
    assert LatestByPeriod([first, second]) == [second];
    assert [second][1..] == [] && Sort(NewestPeriodFirst(), []) == [];
    assert Sort(NewestPeriodFirst(), [second]) == [second];
  }

  lemma RowsOfTheLoss(openDays: seq<Date>, day: Date, next: Date)
    requires NextOpen(day, openDays) == Some(next)
    ensures var rows := Rows([LossFiled(day)], [], openDays);
            rows != [] && rows[0].losses == Some(1)
  {
    hide NextOpen, RowOf, Losses;
    var loss := LossFiled(day);
    var incomes := [loss];
    assert incomes[1..] == [];
    assert Sort(BySecurityPeriodDate(), incomes) == incomes;
    var row := RowOf(incomes, [], loss, day, next, 1);
    FirstQuarterProfit(incomes, loss, day, next, 1);
    assert RowsFrom(incomes, [], openDays, [], map[(1, 20200331) := 1]) == [];
    assert Derived(incomes, [], openDays) == [row];
    OneRowLosses(row);
    assert [row][1..] == [];
    assert WithLosses([row], [row]) == [row.(losses := Some(1))];
    var filled := [row.(losses := Some(1))];
    assert filled[1..] == [];
    assert Sort(ByPublication(), filled) == filled;
  }

  lemma RowsOfBoth(openDays: seq<Date>, day: Date, next: Date)
    requires NextOpen(day, openDays) == Some(next) && NextOpen(day + 1, openDays) == Some(next)
    ensures var timely := Filter(RowAnnouncedBy(day), Rows([LossFiled(day), CorrectionFiled(day + 1)], [], openDays));
            timely != [] && timely[0].losses == Some(0)
  {
    hide NextOpen, RowOf, Losses;
    var loss, correction := LossFiled(day), CorrectionFiled(day + 1);
    var incomes := [loss, correction];
    var key := (1, 20200331);
    BothInOrder(loss, correction);
    var first, second := RowOf(incomes, [], loss, day, next, 1), RowOf(incomes, [], correction, day + 1, next, 2);
    FirstQuarterProfit(incomes, loss, day, next, 1);
    FirstQuarterProfit(incomes, correction, day + 1, next, 2);
    BothDerived(openDays, incomes, first, second, day, next);
    TwoRowsLosses(first, second);
    var rows := [first, second];
    var filled := [first.(losses := Some(0)), second.(losses := Losses(rows, second))];
    assert rows[1..] == [second] && [second][1..] == [];
    assert WithLosses(rows, [second]) == [filled[1]];
    assert WithLosses(rows, rows) == filled;
    assert filled[1..] == [filled[1]] && [filled[1]][1..] == [];
    assert Sort(ByPublication(), [filled[1]]) == [filled[1]];
    assert Sort(ByPublication(), filled) == filled;
    assert [filled[0]] + [filled[1]] == filled;
    FilterHead(RowAnnouncedBy(day), filled[0], [filled[1]]);
  }

  lemma BothInOrder(loss: Income, correction: Income)
    requires BySecurityPeriodDate()(loss, correction)
    ensures Sort(BySecurityPeriodDate(), [loss, correction]) == [loss, correction]
  {
    assert [loss, correction][1..] == [correction] && [correction][1..] == [];
    assert Sort(BySecurityPeriodDate(), [correction]) == [correction];
  }

  lemma BothDerived(openDays: seq<Date>, incomes: seq<Income>, first: Row, second: Row, day: Date, next: Date)
    requires NextOpen(day, openDays) == Some(next) && NextOpen(day + 1, openDays) == Some(next)
    requires incomes == [LossFiled(day), CorrectionFiled(day + 1)]
    requires first == RowOf(incomes, [], incomes[0], day, next, 1)
    requires second == RowOf(incomes, [], incomes[1], day + 1, next, 2)
    requires Sort(BySecurityPeriodDate(), incomes) == incomes
    ensures Derived(incomes, [], openDays) == [first, second]
  {
    hide NextOpen, RowOf, Sort;
    var key := (1, 20200331);
    assert incomes[1..] == [incomes[1]] && [incomes[1]][1..] == [];
    assert RowsFrom(incomes, [], openDays, [], map[key := 1][key := 2]) == [];
    assert RowsFrom(incomes, [], openDays, [incomes[1]], map[key := 1]) == [second];
  }

  /** With a closed day in between, a loss filed on the day and corrected the day after become available
      together, so the loss streak of the first already reads the second: cutting the second changes it. */
  lemma AnnouncementCutIsNotEnough(openDays: seq<Date>, day: Date)
    requires NextOpen(day, openDays).Some? && NextOpen(day, openDays).value != day + 1
    ensures var incomes := [LossFiled(day), CorrectionFiled(day + 1)];
            CutByAnnouncement(incomes, [], openDays, day) != Filter(RowAnnouncedBy(day), Rows(incomes, [], openDays))
  {
    hide Rows, NextOpen;
    var next := NextOpen(day, openDays).value;
    NextOpenIsFirst(day, openDays);
    NextOpenIsFirst(day + 1, openDays);
    var loss, correction := LossFiled(day), CorrectionFiled(day + 1);
    FilterHead(AnnouncedBy(day), correction, []);
    FilterHead(AnnouncedBy(day), loss, [correction]);
    assert [loss] + [correction] == [loss, correction] && [correction] + [] == [correction];
    assert Filter(AnnouncedBy(day), [loss, correction]) == [loss];
    RowsOfTheLoss(openDays, day, next);
    RowsOfBoth(openDays, day, next);
  }

  /** The exact condition: cutting on the announcement date is safe for every filing history if and only if
      the day after is a trading day, or none follows at all. */
  lemma AnnouncementCutIsSafeExactlyWhen(openDays: seq<Date>, day: Date)
    ensures AnnouncementCutIsSafe(openDays, day)
            <==> NextOpen(day, openDays) == None || NextOpen(day, openDays) == Some(day + 1)
  {
    hide Rows, NextOpen, CutByAnnouncement;
    if NextOpen(day, openDays) == None {
      forall incomes, indicators
        ensures CutByAnnouncement(incomes, indicators, openDays, day)
                == Filter(RowAnnouncedBy(day), Rows(incomes, indicators, openDays))
      {
        CutAfterTheLastTradingDay(incomes, indicators, openDays, day);
      }
    } else if NextOpen(day, openDays) == Some(day + 1) {
      forall incomes, indicators
        ensures CutByAnnouncement(incomes, indicators, openDays, day)
                == Filter(RowAnnouncedBy(day), Rows(incomes, indicators, openDays))
      {
        CutBeforeATradingDay(incomes, indicators, openDays, day);
      }
    } else {
      AnnouncementCutIsNotEnough(openDays, day);
    }
  }
}
