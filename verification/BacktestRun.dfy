/** The backtest as the program runs it: one pass over the bars, proved against Replay and Final. */
module BacktestRun {
  import opened Common
  import opened RealSeqs
  import opened Arith
  import opened Backtest
  import opened BacktestLedger
  import opened BacktestSignals
  import opened BacktestStatistics
  import Finance

  datatype BacktestResult = BacktestResult(
    totalTrades: nat, figures: TradeFigures, totalReturn: real, maximumDrawdown: real, marketExposure: real,
    totalCosts: real, equityCurve: seq<real>)

  /** The returns between neighbouring equity entries, skipping those that start at zero or less. */
  function PeriodReturns(equity: seq<real>): seq<real> {
    if |equity| < 2 then []
    else
      var rest, n := PeriodReturns(equity[..|equity| - 1]), |equity| - 1;
      if equity[n - 1] > 0.0 then rest + [equity[n] / equity[n - 1] - 1.0] else rest
  }

  /** On a positive curve the filter drops nothing and the returns telescope to the last value. */
  lemma {:induction false} PeriodReturnsTelescope(equity: seq<real>)
    requires |equity| >= 1 && Finance.Positive(equity)
    ensures |PeriodReturns(equity)| == |equity| - 1
    ensures forall i :: 0 <= i < |PeriodReturns(equity)| ==> PeriodReturns(equity)[i] > -1.0
    ensures equity[0] * Growth(PeriodReturns(equity)) == equity[|equity| - 1]
  {
    if |equity| >= 2 {
      var n := |equity| - 1;
      var rest := equity[..n];
      PeriodReturnsTelescope(rest);
      var g := equity[n] / equity[n - 1];
      DivPos(equity[n], equity[n - 1]);
      DivMul(equity[n], equity[n - 1]);
      GrowthAppend(PeriodReturns(rest), g - 1.0);
      assert rest[|rest| - 1] == equity[n - 1] && rest[0] == equity[0];
      hide Growth;
      MulAssoc(equity[0], Growth(PeriodReturns(rest)), g);
    }
  }

  /** A return takes one point of the curve to the next. */
  ghost predicate Takes(r: real, before: real, after: real) { (1.0 + r) * before == after }

  lemma RatioTakes(before: real, after: real)
    requires before > 0.0
    ensures Takes(after / before - 1.0, before, after)
  {
    DivMul(after, before);
  }

  /** On a positive curve each period return takes its point to the next one. */
  lemma {:induction false} PeriodReturnsInFigures(equity: seq<real>)
    requires |equity| >= 1 && Finance.Positive(equity)
    ensures |PeriodReturns(equity)| == |equity| - 1
    ensures forall i: nat :: i + 1 < |equity| ==> Takes(PeriodReturns(equity)[i], equity[i], equity[i + 1])
  {
    hide Takes;
    if |equity| >= 2 {
      var n := |equity| - 1;
      PeriodReturnsInFigures(equity[..n]);
      RatioTakes(equity[n - 1], equity[n]);
    }
  }

  lemma ReturnFromGrowth(first: real, growth: real, last: real)
    requires first > 0.0 && first * growth == last
    ensures last / first - 1.0 == growth - 1.0
  {
    DivUnique(last, first, growth);
  }

  /** Both the trade returns and the period returns compound to the total return. */
  lemma ReturnsTelescope(q: Request)
    requires ValidRequest(q)
    ensures Finance.Positive(Final(q).equity) && |Final(q).equity| == |q.bars| + 1
    ensures Final(q).equity[|q.bars|] / q.initialCapital - 1.0 == Growth(Final(q).trades) - 1.0
    ensures Final(q).equity[|q.bars|] / q.initialCapital - 1.0 == Growth(PeriodReturns(Final(q).equity)) - 1.0
  {
    hide Final; hide Growth; hide PeriodReturns; hide ValidRequest; hide Replay;
    FinalShape(q);
    TradesTelescope(q);
    PeriodReturnsTelescope(Final(q).equity);
    var last := Final(q).equity[|q.bars|];
    ReturnFromGrowth(q.initialCapital, Growth(Final(q).trades), last);
    ReturnFromGrowth(q.initialCapital, Growth(PeriodReturns(Final(q).equity)), last);
  }

  const EQUITY_FLOOR := 0.000000000001

  /** The floor the drawdown calculation puts under the equity curve. */
  function Floored(equity: seq<real>): seq<real> {
    seq(|equity|, i requires 0 <= i < |equity| => MaxReal(EQUITY_FLOOR, equity[i]))
  }

  /** A curve the floor does not touch. */
  ghost predicate AboveFloor(equity: seq<real>) { forall i :: 0 <= i < |equity| ==> equity[i] >= 0.000000000001 }

  /** Every point is the curve's, or a millionth of a millionth where the curve is below that. */
  ghost predicate FloorTold(floored: seq<real>, equity: seq<real>) {
    && |floored| == |equity|
    && forall i :: 0 <= i < |equity| ==>
         floored[i] == if equity[i] < 0.000000000001 then 0.000000000001 else equity[i]
  }

  /** The bar counts after which the run is long. */
  ghost function LongAfter(q: Request, k: nat): set<int>
    requires ValidRequest(q) && k <= |q.bars|
  {
    set j | 1 <= j <= k && Holding(q, j)
  }

  /** The invested-period counter counts exactly the bars after which the run is long. */
  lemma {:induction false} InvestedCountsLongBars(q: Request, k: nat)
    requires ValidRequest(q) && k <= |q.bars|
    ensures Replay(q, k).invested == |LongAfter(q, k)|
  {
    hide ValidRequest; hide Replay; hide Holding;
    if k == 0 {
      FirstReplay(q);
      assert LongAfter(q, 0) == {};
      return;
    }
    hide LongAfter;
    InvestedCountsLongBars(q, k - 1);
    InvestedStep(q, k - 1);
    LongAfterStep(q, k - 1);
  }

  lemma LongAfterStep(q: Request, k: nat)
    requires ValidRequest(q) && k < |q.bars|
    ensures |LongAfter(q, k + 1)| == |LongAfter(q, k)| + if Holding(q, k + 1) then 1 else 0
  {
    hide ValidRequest; hide Holding;
    assert LongAfter(q, k + 1) == if Holding(q, k + 1) then LongAfter(q, k) + {k + 1} else LongAfter(q, k);
  }

  lemma InvestedStep(q: Request, k: nat)
    requires ValidRequest(q) && k < |q.bars|
    ensures Replay(q, k + 1).invested == Replay(q, k).invested + if Holding(q, k + 1) then 1 else 0
  {
    hide Replay; hide Traded; hide WantsLong; hide Bought; hide Proceeds; hide SellCosts; hide BuyCosts;
    hide TradeReturn; hide Basis; hide BuyPrice; hide ValidRequest; hide Worth;
    StepCases(q, k);
  }

  /** The pass over the bars. */
  method TradeBars(q: Request)
    returns (cash: real, position: Option<Position>, totalCosts: real, invested: nat, equityCurve: seq<real>,
             trades: seq<real>)
    requires ValidRequest(q)
    ensures var a := Replay(q, |q.bars|);
      && cash == a.cash && position == a.position && totalCosts == a.totalCosts && invested == a.invested
      && equityCurve == a.equity && trades == a.trades
  {
    cash, totalCosts, invested := q.initialCapital, 0.0, 0;
    position := None;
    var closesSeen := [];
    equityCurve, trades := [cash], [];
    hide ValidBar; hide Replay; hide Signal; hide Liquid; hide BuyPrice; hide MarketValue; hide Traded;
    hide Bought; hide BuyCosts; hide Basis; hide Proceeds; hide SellCosts; hide TradeReturn; hide WantsLong;
    hide Decides;
    FirstReplay(q);
    for i := 0 to |q.bars|
      invariant Account(cash, position, totalCosts, equityCurve, trades, invested, closesSeen) == Replay(q, i)
    {
      var bar := q.bars[i];
      TradePossible(q, i);
      var desired := Signal(q.strategy, closesSeen, q.fast, q.slow);
      if Liquid(q, bar) && desired && position.None? {
        BuysOn(q, i);
        var bought := Bought(q, cash, bar);
        totalCosts := totalCosts + BuyCosts(q, bought, bar);
        position := Some(bought);
        cash := 0.0;
      } else if Liquid(q, bar) && !desired && position.Some? {
        SellsOn(q, i);
        var held := position.value;
        cash := Proceeds(q, held, bar);
        totalCosts := totalCosts + SellCosts(q, held, bar);
        trades := trades + [TradeReturn(cash, Basis(held))];
        position := None;
      } else {
        WaitsOn(q, i);
      }
      assert Account(cash, position, totalCosts, equityCurve, trades, invested, closesSeen)
        == Traded(q, Replay(q, i), bar);
      var equity := if position.None? then cash else MarketValue(position.value, bar);
      if position.Some? { invested := invested + 1; }
      equityCurve := equityCurve + [equity];
      closesSeen := closesSeen + [bar.close];
      ReplayStep(q, i);
    }
  }

  lemma TradePossible(q: Request, k: nat)
    requires ValidRequest(q) && k < |q.bars|
    ensures ValidBar(q.bars[k]) && BuyPrice(q, q.bars[k]) != 0.0
    ensures Replay(q, k).position.Some? ==> Basis(Replay(q, k).position.value) != 0.0
  {
    StepCases(q, k);
  }

  lemma BuysOn(q: Request, k: nat)
    requires ValidRequest(q) && k < |q.bars| && Liquid(q, q.bars[k]) && Replay(q, k).position.None?
    requires Signal(q.strategy, Replay(q, k).closes, q.fast, q.slow) && BuyPrice(q, q.bars[k]) != 0.0
    ensures Traded(q, Replay(q, k), q.bars[k]) == Buy(q, Replay(q, k), q.bars[k])
  {
    hide Replay; hide Bought; hide Signal; hide Liquid; hide BuyCosts;
  }

  lemma SellsOn(q: Request, k: nat)
    requires ValidRequest(q) && k < |q.bars| && Liquid(q, q.bars[k]) && Replay(q, k).position.Some?
    requires !Signal(q.strategy, Replay(q, k).closes, q.fast, q.slow) && Basis(Replay(q, k).position.value) != 0.0
    ensures Traded(q, Replay(q, k), q.bars[k]) == Sell(q, Replay(q, k), q.bars[k])
  {
    hide Replay; hide Proceeds; hide Signal; hide Liquid; hide SellCosts; hide Basis; hide TradeReturn;
  }

  lemma WaitsOn(q: Request, k: nat)
    requires ValidRequest(q) && k < |q.bars|
    requires var desired := Signal(q.strategy, Replay(q, k).closes, q.fast, q.slow);
      !Liquid(q, q.bars[k]) || desired == Replay(q, k).position.Some?
    ensures Traded(q, Replay(q, k), q.bars[k]) == Replay(q, k)
  {
    hide Replay; hide Signal; hide Liquid;
  }

  /** The trading part of a run: the pass over the bars and the forced liquidation. */
  method TradeAllBars(q: Request)
    returns (totalCosts: real, invested: nat, equityCurve: seq<real>, trades: seq<real>)
    requires ValidRequest(q)
    ensures totalCosts == Final(q).totalCosts && invested == Final(q).invested
    ensures equityCurve == Final(q).equity && trades == Final(q).trades
  {
    hide Replay; hide Basis; hide Proceeds; hide SellCosts; hide TradeReturn;
    var cash: real, position: Option<Position>;
    cash, position, totalCosts, invested, equityCurve, trades := TradeBars(q);
    if position.Some? {
      var last, held := q.bars[|q.bars| - 1], position.value;
      LastSaleFacts(q);
      cash := Proceeds(q, held, last);
      totalCosts := totalCosts + SellCosts(q, held, last);
      trades := trades + [TradeReturn(cash, Basis(held))];
      equityCurve := equityCurve[..|equityCurve| - 1] + [cash];
    }
  }

  method RunBacktest(q: Request)
    returns (result: BacktestResult, tradeReturns: seq<real>, periodReturns: seq<real>)
    requires ValidRequest(q)
    ensures tradeReturns == Final(q).trades
    ensures result.equityCurve == Final(q).equity
    ensures result.totalCosts == Final(q).totalCosts
    ensures result.totalTrades == |AllTrips(q)|
    ensures result.totalCosts
      == q.initialCapital + GrossProfit(q, AllTrips(q)) - result.equityCurve[|result.equityCurve| - 1]
    ensures result.totalReturn == Growth(tradeReturns) - 1.0
    ensures result.totalReturn == Growth(periodReturns) - 1.0
    ensures |periodReturns| == |q.bars|
    ensures TripsInPrices(q, tradeReturns, AllTrips(q))
    ensures result.marketExposure == |LongBars(q)| as real / |q.bars| as real
    ensures result.figures == FiguresOf(tradeReturns)
    ensures Finance.Positive(Floored(result.equityCurve))
    ensures Finance.IsMaximumDrawdown(Floored(result.equityCurve), result.maximumDrawdown)
    ensures FloorTold(Floored(result.equityCurve), result.equityCurve)
    ensures AboveFloor(result.equityCurve) ==> Floored(result.equityCurve) == result.equityCurve
  {
    hide Final; hide Growth; hide PeriodReturns; hide AllTrips; hide GrossProfit; hide ValidRequest;
    hide LongBars; hide Floored; hide Finance.IsMaximumDrawdown; hide FiguresOf; hide AboveFloor; hide FloorTold;
    hide TripsInPrices;
    var totalCosts, invested, equityCurve, trades := TradeAllBars(q);
    tradeReturns := trades;
    RunSummary(q);
    FlooredPositive(equityCurve);
    hide Finance.Positive;
    periodReturns := CollectPeriodReturns(equityCurve);
    var drawdown := Finance.MaximumDrawdown(Floored(equityCurve));
    result := BacktestResult(
      |trades|,
      FiguresOf(trades),
      equityCurve[|equityCurve| - 1] / q.initialCapital - 1.0,
      drawdown.value,
      invested as real / |q.bars| as real,
      totalCosts,
      equityCurve);
  }

  lemma FinalInvested(q: Request)
    requires ValidRequest(q)
    ensures ValidWindows(q) && Final(q).invested == |LongBars(q)|
  {
    hide Replay; hide Proceeds; hide SellCosts; hide TradeReturn; hide Basis; hide LongAfter; hide LongBars;
    InvestedCountsLongBars(q, |q.bars|);
    LongAfterIsLongBars(q);
  }

  lemma LongAfterIsLongBars(q: Request)
    requires ValidRequest(q)
    ensures ValidWindows(q) && LongAfter(q, |q.bars|) == LongBars(q)
  {
    LongExactlyWhen(q, 0);
    hide Replay; hide LastWordIsLong; hide ValidBars; hide UniqueAscendingDates;
    forall k: nat | k <= |q.bars| ensures Holding(q, k) == LongBy(q, k) { LongExactlyWhen(q, k); }
    hide Holding; hide LongBy;
  }

  lemma FlooredPositive(equity: seq<real>)
    ensures |Floored(equity)| == |equity| && Finance.Positive(Floored(equity))
    ensures FloorTold(Floored(equity), equity)
    ensures AboveFloor(equity) ==> Floored(equity) == equity
  {}

  /** Everything the reported figures rest on, for one run. */
  lemma RunSummary(q: Request)
    requires ValidRequest(q)
    ensures q.initialCapital > 0.0 && |q.bars| > 0 && |Final(q).equity| == |q.bars| + 1
    ensures Finance.Positive(Final(q).equity) && Final(q).equity[|q.bars|] == Final(q).cash
    ensures Final(q).totalCosts == q.initialCapital + GrossProfit(q, AllTrips(q)) - Final(q).cash
    ensures |Final(q).trades| == |AllTrips(q)|
    ensures ValidWindows(q) && Final(q).invested == |LongBars(q)|
    ensures TripsInPrices(q, Final(q).trades, AllTrips(q))
    ensures Final(q).equity[|q.bars|] / q.initialCapital - 1.0 == Growth(Final(q).trades) - 1.0
    ensures Final(q).equity[|q.bars|] / q.initialCapital - 1.0 == Growth(PeriodReturns(Final(q).equity)) - 1.0
  {
    hide Final; hide Growth; hide PeriodReturns; hide AllTrips; hide GrossProfit; hide Replay; hide TripOf;
    hide LongBars; hide TripsInPrices;
    TradesInPrices(q);
    FinalShape(q);
    FinalLedger(q);
    FinalTradesAreTrips(q);
    ReturnsTelescope(q);
    FinalInvested(q);
  }

  lemma FirstReplay(q: Request)
    requires ValidRequest(q)
    ensures Replay(q, 0) == Account(q.initialCapital, None, 0.0, [q.initialCapital], [], 0, [])
  {}

  lemma LastSaleFacts(q: Request)
    requires ValidRequest(q) && Replay(q, |q.bars|).position.Some?
    ensures Basis(Replay(q, |q.bars|).position.value) != 0.0
    ensures |Replay(q, |q.bars|).equity| == |q.bars| + 1
  {
    ReplayShape(q, |q.bars|);
    SaleFacts(q, Replay(q, |q.bars|).position.value, q.bars[|q.bars| - 1]);
  }

  method CollectPeriodReturns(equity: seq<real>) returns (returns_: seq<real>)
    requires |equity| >= 1 && Finance.Positive(equity)
    ensures returns_ == PeriodReturns(equity) && |returns_| == |equity| - 1
  {
    returns_ := [];
    for i := 1 to |equity|
      invariant returns_ == PeriodReturns(equity[..i])
    {
      assert equity[..i + 1][..i] == equity[..i];
      if equity[i - 1] > 0.0 { returns_ := returns_ + [equity[i] / equity[i - 1] - 1.0]; }
    }
    assert equity[..|equity|] == equity;
    PeriodReturnsTelescope(equity);
  }
}
