/** Commission, transfer fee and stamp duty of one fill. */
module FeeSchedule {
  import opened Base
  import opened Numeric

  datatype FeeRates = FeeRates(commission: real, minimum: real, transfer: real, stamp: real)

  datatype Fees = Fees(commission: real, transfer: real, stamp: real) {
    function Total(): real {
      commission + transfer + stamp
    }
  }

  /** `history` holds the dated equity rates in ascending order of effective date. */
  datatype FeeModel = FeeModel(equity: FeeRates, etf: FeeRates, history: seq<(Date, FeeRates)>)

  const CURRENT := FeeRates(0.0003, 5.0, 0.00001, 0.0005)
  const SEPTEMBER_2008: Date := 733304
  const APRIL_2022: Date := 738274
  const AUGUST_2023: Date := 738760

  const DEFAULT := FeeModel(
    CURRENT,
    FeeRates(0.0003, 5.0, 0.0, 0.0),
    [(SEPTEMBER_2008, FeeRates(0.0003, 5.0, 0.00002, 0.001)),
     (APRIL_2022, FeeRates(0.0003, 5.0, 0.00001, 0.001)),
     (AUGUST_2023, CURRENT)])

  function LastEffective(history: seq<(Date, FeeRates)>, onDate: Date): Result<FeeRates> {
    if history == [] then Err("CONFIG_VALUE_INVALID")
    else if history[|history| - 1].0 <= onDate then Ok(history[|history| - 1].1)
    else LastEffective(history[..|history| - 1], onDate)
  }

  function RatesOn(model: FeeModel, asset: Asset, onDate: Date): Result<FeeRates> {
    if asset != A_SHARE then Ok(model.etf)
    else if model.history == [] then Ok(model.equity)
    else LastEffective(model.history, onDate)
  }

  function RawCommission(rates: FeeRates, gross: real): real {
    MaxReal(gross * rates.commission, rates.minimum)
  }

  function RawStamp(rates: FeeRates, asset: Asset, side: Side, gross: real): real {
    if side == SELL && asset == A_SHARE then gross * rates.stamp else 0.0
  }

  function RawTransfer(rates: FeeRates, gross: real): real {
    gross * rates.transfer
  }

  function RawTotal(rates: FeeRates, asset: Asset, side: Side, gross: real): real {
    RawCommission(rates, gross) + RawTransfer(rates, gross) + RawStamp(rates, asset, side, gross)
  }

  /** Rounds the total once; stamp duty, or commission where there is none, takes the residual. */
  function SplitRaw(rawCommission: real, rawTransfer: real, rawStamp: real): Fees {
    var total := QuantizeFen(rawCommission + rawTransfer + rawStamp);
    var commission := QuantizeFen(rawCommission);
    var transfer := QuantizeFen(rawTransfer);
    var stamp := total - commission - transfer;
    if rawStamp == 0.0 then Fees(commission + stamp, transfer, 0.0)
    else Fees(commission, transfer, stamp)
  }

  function Split(rates: FeeRates, asset: Asset, side: Side, gross: real): Fees {
    SplitRaw(RawCommission(rates, gross), RawTransfer(rates, gross), RawStamp(rates, asset, side, gross))
  }

  function Calculate(model: FeeModel, asset: Asset, side: Side, gross: real, onDate: Date): Result<Fees> {
    if gross == 0.0 then Ok(Fees(0.0, 0.0, 0.0))
    else if gross < 0.0 then Err("BACKTEST_ACCOUNT_CONSERVATION_BROKEN")
    else
      var rates :- RatesOn(model, asset, onDate);
      Ok(Split(rates, asset, side, gross))
  }

  predicate Nonnegative(rates: FeeRates) {
    rates.commission >= 0.0 && rates.minimum >= 0.0 && rates.transfer >= 0.0 && rates.stamp >= 0.0
  }

  /** A custom schedule whose fees can only grow with the amount traded. */
  predicate Sane(model: FeeModel) {
    && Nonnegative(model.equity)
    && Nonnegative(model.etf)
    && forall entry | entry in model.history :: Nonnegative(entry.1)
  }

  /** Splitting never loses or invents a fen, whatever the rates. */
  lemma ComponentsSumToRoundedTotal(model: FeeModel, asset: Asset, side: Side, gross: real, onDate: Date)
    requires gross > 0.0
    ensures Calculate(model, asset, side, gross, onDate).Ok? <==> RatesOn(model, asset, onDate).Ok?
    ensures Calculate(model, asset, side, gross, onDate).Ok? ==>
              Calculate(model, asset, side, gross, onDate).value.Total()
              == QuantizeFen(RawTotal(RatesOn(model, asset, onDate).value, asset, side, gross))
  {
  }

  lemma DefaultRates(asset: Asset, onDate: Date)
    ensures RatesOn(DEFAULT, asset, onDate).Ok? <==> asset == CSI300_ETF || SEPTEMBER_2008 <= onDate
    ensures RatesOn(DEFAULT, asset, onDate).Ok? ==>
              var rates := RatesOn(DEFAULT, asset, onDate).value;
              && Nonnegative(rates) && rates.commission == 0.0003 && rates.minimum == 5.0
              && (asset == A_SHARE ==> rates.stamp >= 0.0005 && rates.transfer <= 0.00002)
              && (asset == CSI300_ETF ==> rates.stamp == rates.transfer == 0.0)
  {
    var h := DEFAULT.history;
    assert h[..2][..1] == h[..1];
    assert LastEffective(h, onDate) ==
           if AUGUST_2023 <= onDate then Ok(h[2].1) else LastEffective(h[..2], onDate);
    assert LastEffective(h[..2], onDate) ==
           if APRIL_2022 <= onDate then Ok(h[1].1) else LastEffective(h[..1], onDate);
    assert LastEffective(h[..1], onDate) ==
           if SEPTEMBER_2008 <= onDate then Ok(h[0].1) else Err("CONFIG_VALUE_INVALID");
  }

  /** Adding a whole number of fen commutes with rounding to fen. */
  lemma QuantizeFenShift(x: real, fen: int)
    requires x >= 0.0 && fen >= 0
    ensures QuantizeFen(x + fen as real / 100.0) == QuantizeFen(x) + fen as real / 100.0
  {
    assert (x + fen as real / 100.0) * 100.0 == x * 100.0 + fen as real;
    assert (x * 100.0 + fen as real + 0.5).Floor == (x * 100.0 + 0.5).Floor + fen;
  }

  /** Under the built-in schedule every component is nonnegative, the residual stamp duty
      included, the minimum commission holds after the residual is folded in, and the only
      refusal is an equity trade before the schedule starts. */
  lemma DefaultFeesAreSane(asset: Asset, side: Side, gross: real, onDate: Date)
    requires gross > 0.0
    ensures Calculate(DEFAULT, asset, side, gross, onDate).Ok?
            <==> asset == CSI300_ETF || SEPTEMBER_2008 <= onDate
    ensures Calculate(DEFAULT, asset, side, gross, onDate).Ok? ==>
              var fees := Calculate(DEFAULT, asset, side, gross, onDate).value;
              && fees.commission >= 5.0 && fees.transfer >= 0.0 && fees.stamp >= 0.0
              && (side == BUY || asset == CSI300_ETF ==> fees.stamp == 0.0)
  {
    DefaultRates(asset, onDate);
    if RatesOn(DEFAULT, asset, onDate).Ok? {
      var rates := RatesOn(DEFAULT, asset, onDate).value;
      SplitIsSane(rates, asset, side, gross);
    }
  }

  lemma SplitIsSane(rates: FeeRates, asset: Asset, side: Side, gross: real)
    requires gross > 0.0 && Nonnegative(rates)
    requires rates.commission == 0.0003 && rates.minimum == 5.0
    requires asset == A_SHARE ==> rates.stamp >= 0.0005 && rates.transfer <= 0.00002
    requires asset == CSI300_ETF ==> rates.stamp == rates.transfer == 0.0
    ensures var fees := Split(rates, asset, side, gross);
            && fees.commission >= 5.0 && fees.transfer >= 0.0 && fees.stamp >= 0.0
            && (side == BUY || asset == CSI300_ETF ==> fees.stamp == 0.0)
  {
    Proportional(rates.transfer, gross);
    StampIsAtLeastFiveBasisPoints(rates, asset, side, gross);
    ResidualIsSane(RawCommission(rates, gross), RawTransfer(rates, gross), RawStamp(rates, asset, side, gross), gross);
  }

  lemma StampIsAtLeastFiveBasisPoints(rates: FeeRates, asset: Asset, side: Side, gross: real)
    requires gross > 0.0 && (asset == A_SHARE ==> rates.stamp >= 0.0005)
    ensures RawStamp(rates, asset, side, gross) == 0.0 || RawStamp(rates, asset, side, gross) >= 0.0005 * gross
  {
    var excess := rates.stamp - 0.0005;
    if side == SELL && asset == A_SHARE {
      Proportional(excess, gross);
      assert gross * rates.stamp == gross * excess + gross * 0.0005;
    }
  }

  lemma ResidualIsSane(c: real, t: real, s: real, gross: real)
    requires gross > 0.0 && c == MaxReal(gross * 0.0003, 5.0) && t >= 0.0
    requires s == 0.0 || s >= 0.0005 * gross
    ensures SplitRaw(c, t, s).commission >= 5.0
    ensures SplitRaw(c, t, s).transfer >= 0.0
    ensures SplitRaw(c, t, s).stamp >= 0.0
    ensures s == 0.0 ==> SplitRaw(c, t, s).stamp == 0.0
  {
    QuantizeFenShift(t, 500);
    QuantizeFenMonotone(5.0 + t, c + t + s);
    QuantizeFenMonotone(5.0, c);
    if c != 5.0 {
      RoundingLosesAtMostHalfAFen(c + t + s);
      RoundingLosesAtMostHalfAFen(c);
      RoundingLosesAtMostHalfAFen(t);
    }
  }

  lemma RoundingLosesAtMostHalfAFen(x: real)
    requires x >= 0.0
    ensures x - 0.005 <= QuantizeFen(x) <= x + 0.005
  {
  }

  /** The total fee of a side never falls when the amount grows; the binary searches need this. */
  lemma TotalIsMonotone(model: FeeModel, asset: Asset, side: Side, small: real, large: real, onDate: Date)
    requires Sane(model) && 0.0 <= small <= large
    requires Calculate(model, asset, side, large, onDate).Ok?
    ensures Calculate(model, asset, side, small, onDate).Ok?
    ensures 0.0 <= Calculate(model, asset, side, small, onDate).value.Total()
                <= Calculate(model, asset, side, large, onDate).value.Total()
  {
    if large > 0.0 {
      var rates := RatesOn(model, asset, onDate).value;
      RatesAreNonnegative(model, asset, onDate);
      RawTotalIsMonotone(rates, asset, side, small, large);
      QuantizeFenMonotone(RawTotal(rates, asset, side, small), RawTotal(rates, asset, side, large));
      QuantizeFenMonotone(0.0, RawTotal(rates, asset, side, small));
      if small > 0.0 {
        ComponentsSumToRoundedTotal(model, asset, side, small, onDate);
      }
      ComponentsSumToRoundedTotal(model, asset, side, large, onDate);
    }
  }

  lemma RawTotalIsMonotone(rates: FeeRates, asset: Asset, side: Side, small: real, large: real)
    requires Nonnegative(rates) && 0.0 <= small <= large
    ensures 0.0 <= RawTotal(rates, asset, side, small) <= RawTotal(rates, asset, side, large)
  {
    assert 0.0 <= RawCommission(rates, small) <= RawCommission(rates, large) by {
      MulMonotone(small, large, rates.commission);
      Proportional(rates.commission, small);
    }
    assert 0.0 <= RawTransfer(rates, small) <= RawTransfer(rates, large) by {
      MulMonotone(small, large, rates.transfer);
      Proportional(rates.transfer, small);
      assert RawTransfer(rates, small) == small * rates.transfer;
      assert RawTransfer(rates, large) == large * rates.transfer;
    }
    assert 0.0 <= RawStamp(rates, asset, side, small) <= RawStamp(rates, asset, side, large) by {
      MulMonotone(small, large, rates.stamp);
      Proportional(rates.stamp, small);
    }
  }

  lemma Proportional(rate: real, gross: real)
    requires rate >= 0.0 && gross >= 0.0
    ensures gross * rate >= 0.0
  {
  }

  lemma RatesAreNonnegative(model: FeeModel, asset: Asset, onDate: Date)
    requires Sane(model) && RatesOn(model, asset, onDate).Ok?
    ensures Nonnegative(RatesOn(model, asset, onDate).value)
  {
    if asset == A_SHARE && model.history != [] {
      LastEffectiveIsAnEntry(model.history, onDate);
    }
  }

  lemma LastEffectiveIsAnEntry(history: seq<(Date, FeeRates)>, onDate: Date)
    requires LastEffective(history, onDate).Ok?
    ensures exists entry :: entry in history && entry.0 <= onDate && entry.1 == LastEffective(history, onDate).value
  {
    var last := history[|history| - 1];
    if last.0 <= onDate {
      assert last in history;
    } else {
      LastEffectiveIsAnEntry(history[..|history| - 1], onDate);
    }
  }

  // ----- the fees of a trade in plain terms

  /** The rates that apply: the fund's own, or the last equity entry in force, or the equity rates without history. */
  ghost predicate InForce(model: FeeModel, asset: Asset, onDate: Date, rates: FeeRates) {
    if asset == CSI300_ETF then rates == model.etf
    else if model.history == [] then rates == model.equity
    else exists k | 0 <= k < |model.history| ::
           && model.history[k].0 <= onDate && model.history[k].1 == rates
           && forall later | k < later < |model.history| :: onDate < model.history[later].0
  }

  lemma {:induction false} LastEntryInForce(history: seq<(Date, FeeRates)>, onDate: Date)
    ensures LastEffective(history, onDate).Err? <==> forall k | 0 <= k < |history| :: onDate < history[k].0
    ensures LastEffective(history, onDate).Ok? ==>
              exists k | 0 <= k < |history| ::
                && history[k].0 <= onDate && history[k].1 == LastEffective(history, onDate).value
                && forall later | k < later < |history| :: onDate < history[later].0
  {
    if history != [] && onDate < history[|history| - 1].0 {
      var n := |history| - 1;
      LastEntryInForce(history[..n], onDate);
      if LastEffective(history[..n], onDate).Ok? {
        var k :| 0 <= k < n && history[..n][k].0 <= onDate
              && history[..n][k].1 == LastEffective(history[..n], onDate).value
              && forall later | k < later < n :: onDate < history[..n][later].0;
        forall later | k < later < |history|
          ensures onDate < history[later].0
        {
          assert later < n ==> history[later] == history[..n][later];
        }
        assert history[k] == history[..n][k];
      } else {
        forall k | 0 <= k < |history|
          ensures onDate < history[k].0
        {
          assert k < n ==> history[k] == history[..n][k];
        }
      }
    } else if history != [] {
      assert history[|history| - 1].0 <= onDate;
    }
  }

  /** To whole fen, halves upwards. */
  predicate ToFen(rounded: real, exact: real) {
    rounded * 100.0 == (rounded * 100.0).Floor as real && rounded - 0.005 <= exact < rounded + 0.005
  }

  lemma QuantizedToFen(x: real)
    requires x >= 0.0
    ensures ToFen(QuantizeFen(x), x)
  {
    var n := RoundHalfUp(x * 100.0);
    assert QuantizeFen(x) * 100.0 == n as real;
  }

  function Exactly(rates: FeeRates, asset: Asset, side: Side, gross: real): Fees {
    Fees(if gross * rates.commission >= rates.minimum then gross * rates.commission else rates.minimum,
         gross * rates.transfer,
         if side == BUY || asset == CSI300_ETF then 0.0 else gross * rates.stamp)
  }

  /** The fees of a trade under the rates in force on its date: commission by rate with a minimum, transfer by rate,
      stamp duty on share sales only. Their total is rounded once; transfer is rounded on its own; where there is a
      duty, commission is too and the duty takes the residual, and otherwise commission takes it. */
  lemma FeesMean(model: FeeModel, asset: Asset, side: Side, gross: real, onDate: Date) returns (rates: FeeRates)
    requires Sane(model) && gross > 0.0 && Calculate(model, asset, side, gross, onDate).Ok?
    ensures InForce(model, asset, onDate, rates)
    ensures var fees, exact := Calculate(model, asset, side, gross, onDate).value, Exactly(rates, asset, side, gross);
            && ToFen(fees.Total(), exact.Total()) && ToFen(fees.transfer, exact.transfer)
            && (exact.stamp == 0.0 ==> fees.stamp == 0.0)
            && (exact.stamp != 0.0 ==> ToFen(fees.commission, exact.commission))
  {
    rates := RatesOn(model, asset, onDate).value;
    RatesAreInForce(model, asset, onDate);
    RatesAreNonnegative(model, asset, onDate);
    SplitMeans(rates, asset, side, gross);
    hide RatesOn, InForce, Split, Exactly, ToFen;
  }

  lemma RatesAreInForce(model: FeeModel, asset: Asset, onDate: Date)
    requires RatesOn(model, asset, onDate).Ok?
    ensures InForce(model, asset, onDate, RatesOn(model, asset, onDate).value)
  {
    LastEntryInForce(model.history, onDate);
    hide LastEffective;
  }

  lemma SplitMeans(rates: FeeRates, asset: Asset, side: Side, gross: real)
    requires Nonnegative(rates) && gross > 0.0
    ensures var fees, exact := Split(rates, asset, side, gross), Exactly(rates, asset, side, gross);
            && ToFen(fees.Total(), exact.Total()) && ToFen(fees.transfer, exact.transfer)
            && (exact.stamp == 0.0 ==> fees.stamp == 0.0)
            && (exact.stamp != 0.0 ==> ToFen(fees.commission, exact.commission))
  {
    var exact := Exactly(rates, asset, side, gross);
    ExactlyIsRaw(rates, asset, side, gross);
    QuantizedToFen(exact.Total());
    QuantizedToFen(exact.transfer);
    QuantizedToFen(exact.commission);
    hide ToFen, QuantizeFen, RawCommission, RawTransfer, RawStamp, Exactly;
  }

  lemma ExactlyIsRaw(rates: FeeRates, asset: Asset, side: Side, gross: real)
    requires Nonnegative(rates) && gross > 0.0
    ensures var exact := Exactly(rates, asset, side, gross);
            && exact.commission == RawCommission(rates, gross) >= 0.0
            && exact.transfer == RawTransfer(rates, gross) >= 0.0
            && exact.stamp == RawStamp(rates, asset, side, gross) >= 0.0
  {
    Proportional(rates.commission, gross);
    Proportional(rates.transfer, gross);
    Proportional(rates.stamp, gross);
  }

  /** A trade is refused exactly when no equity entry is in force yet. */
  lemma FeesFailExactlyWhen(model: FeeModel, asset: Asset, side: Side, gross: real, onDate: Date)
    requires gross > 0.0
    ensures Calculate(model, asset, side, gross, onDate).Err? <==>
            && asset == A_SHARE && model.history != []
            && forall k | 0 <= k < |model.history| :: onDate < model.history[k].0
  {
    LastEntryInForce(model.history, onDate);
  }
}
