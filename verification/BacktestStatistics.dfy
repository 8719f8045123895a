/** The figures reported about a run's trades, and how they hang together. */
module BacktestStatistics {
  import opened Arith
  import opened Common
  import opened RealSeqs

  /** The trades on one side of zero, in their order. */
  function Winning(trades: seq<real>): seq<real> {
    if trades == [] then []
    else
      var last := trades[|trades| - 1];
      Winning(trades[..|trades| - 1]) + if last > 0.0 then [last] else []
  }

  function Losing(trades: seq<real>): seq<real> {
    if trades == [] then []
    else
      var last := trades[|trades| - 1];
      Losing(trades[..|trades| - 1]) + if last < 0.0 then [last] else []
  }

  datatype TradeFigures = TradeFigures(
    winRate: Option<real>, averageWin: Option<real>, averageLoss: Option<real>, profitFactor: Option<real>,
    expectancy: Option<real>)

  function MeanOf(s: seq<real>): Option<real> { if s == [] then None else Some(Mean(s)) }

  function GrossGain(trades: seq<real>): real { Sum(Winning(trades)) }

  function GrossLoss(trades: seq<real>): real {
    var losses := Sum(Losing(trades));
    if losses < 0.0 then -losses else losses
  }

  function Factor(gain: real, loss: real): real
    requires loss != 0.0
  {
    gain / loss
  }

  function FiguresOf(trades: seq<real>): TradeFigures {
    TradeFigures(
      if trades == [] then None else Some(|Winning(trades)| as real / |trades| as real),
      MeanOf(Winning(trades)),
      MeanOf(Losing(trades)),
      if GrossLoss(trades) != 0.0 then Some(Factor(GrossGain(trades), GrossLoss(trades))) else None,
      MeanOf(trades))
  }

  lemma SumStep(s: seq<real>, x: real)
    ensures Sum(s + [x]) == Sum(s) + x
  {
    assert (s + [x])[..|s|] == s;
  }

  /** Gains and losses account for the whole result, and neither side is empty of value when it has trades. */
  lemma {:induction false} GainsAndLosses(trades: seq<real>)
    ensures Sum(trades) == Sum(Winning(trades)) + Sum(Losing(trades))
    ensures if Winning(trades) == [] then Sum(Winning(trades)) == 0.0 else Sum(Winning(trades)) > 0.0
    ensures if Losing(trades) == [] then Sum(Losing(trades)) == 0.0 else Sum(Losing(trades)) < 0.0
    ensures |Winning(trades)| + |Losing(trades)| <= |trades|
  {
    if trades != [] {
      var rest, last := trades[..|trades| - 1], trades[|trades| - 1];
      GainsAndLosses(rest);
      SumStep(Winning(rest), last);
      SumStep(Losing(rest), last);
      assert Winning(rest) + [] == Winning(rest) && Losing(rest) + [] == Losing(rest);
    }
  }

  lemma RatioAgainstOne(gain: real, loss: real)
    requires loss > 0.0
    ensures Factor(gain, loss) > 1.0 <==> gain > loss
    ensures Factor(gain, loss) == 1.0 <==> gain == loss
  {
    DivMul(gain, loss);
    if gain > loss && gain / loss <= 1.0 { MulMono(gain / loss, 1.0, loss); }
    if gain / loss > 1.0 { MulMonoStrict(1.0, gain / loss, loss); }
    if gain == loss { DivUnique(gain, loss, 1.0); }
  }

  lemma RatioSign(total: real, n: real)
    requires n > 0.0
    ensures total / n > 0.0 <==> total > 0.0
    ensures total / n < 0.0 <==> total < 0.0
  {
    DivMul(total, n);
    if total > 0.0 { DivPos(total, n); }
    if total < 0.0 {
      DivPos(-total, n);
      DivUnique(total, n, -(-total / n));
    }
    if total == 0.0 { DivUnique(total, n, 0.0); }
  }

  lemma MeanSign(s: seq<real>)
    requires s != []
    ensures Mean(s) > 0.0 <==> Sum(s) > 0.0
    ensures Mean(s) < 0.0 <==> Sum(s) < 0.0
    ensures Scale(|s| as real, Mean(s)) == Sum(s)
  {
    hide Sum;
    RatioSign(Sum(s), |s| as real);
    DivMul(Sum(s), |s| as real);
    assert Mean(s) * |s| as real == |s| as real * Mean(s);
  }

  /** The averages exist for the sides that have trades, and have their sign. */
  lemma AveragesHaveSign(trades: seq<real>)
    ensures var f := FiguresOf(trades);
      && (f.averageWin.Some? <==> Winning(trades) != []) && (f.averageWin.Some? ==> f.averageWin.value > 0.0)
      && (f.averageLoss.Some? <==> Losing(trades) != []) && (f.averageLoss.Some? ==> f.averageLoss.value < 0.0)
  {
    GainsAndLosses(trades);
    hide Mean; hide Sum; hide Winning; hide Losing;
    if Winning(trades) != [] { MeanSign(Winning(trades)); }
    if Losing(trades) != [] { MeanSign(Losing(trades)); }
  }

  /**
   The expectancy times the number of trades is the gross gain less the gross loss; the profit factor exists
   exactly when some trade lost, and is above, at or below one as the expectancy is above, at or below zero.
   */
  lemma FiguresAgree(trades: seq<real>)
    requires trades != []
    ensures var f := FiguresOf(trades);
      && f.expectancy.Some?
      && Scale(|trades| as real, f.expectancy.value) == GrossGain(trades) - GrossLoss(trades)
      && (f.profitFactor.Some? <==> Losing(trades) != [])
      && (f.profitFactor.Some? ==>
            && (f.profitFactor.value > 1.0 <==> f.expectancy.value > 0.0)
            && (f.profitFactor.value == 1.0 <==> f.expectancy.value == 0.0))
  {
    GrossFacts(trades);
    MeanSign(trades);
    hide Mean; hide Sum; hide Winning; hide Losing; hide GrossGain; hide GrossLoss;
    hide Factor; hide Scale;
    BalanceSign(Mean(trades), Sum(trades), GrossGain(trades), GrossLoss(trades));
  }

  lemma GrossFacts(trades: seq<real>)
    ensures Sum(trades) == GrossGain(trades) - GrossLoss(trades)
    ensures GrossLoss(trades) >= 0.0 && (GrossLoss(trades) != 0.0 <==> Losing(trades) != [])
  {
    GainsAndLosses(trades);
    hide Sum; hide Winning; hide Losing;
  }

  lemma BalanceSign(mean: real, total: real, gain: real, loss: real)
    requires total == gain - loss && loss >= 0.0
    requires (mean > 0.0 <==> total > 0.0) && (mean < 0.0 <==> total < 0.0)
    ensures loss != 0.0 ==>
      (Factor(gain, loss) > 1.0 <==> mean > 0.0) && (Factor(gain, loss) == 1.0 <==> mean == 0.0)
  {
    hide Factor;
    if loss != 0.0 { RatioAgainstOne(gain, loss); }
  }

  // ----- the figures on the trades themselves

  ghost function Winners(trades: seq<real>): set<int> { set i | 0 <= i < |trades| && trades[i] > 0.0 }

  ghost function Losers(trades: seq<real>): set<int> { set i | 0 <= i < |trades| && trades[i] < 0.0 }

  /** What the trades above zero made together; those at or below zero add nothing. */
  ghost function Won(trades: seq<real>): real {
    if trades == [] then 0.0 else Won(trades[..|trades| - 1]) + MaxReal(0.0, trades[|trades| - 1])
  }

  /** What the trades below zero cost together, as a positive amount. */
  ghost function Lost(trades: seq<real>): real {
    if trades == [] then 0.0 else Lost(trades[..|trades| - 1]) + MaxReal(0.0, -trades[|trades| - 1])
  }

  lemma WinnersGrow(trades: seq<real>, last: real)
    ensures |Winners(trades + [last])| == |Winners(trades)| + if last > 0.0 then 1 else 0
  {
    var more, n := trades + [last], |trades|;
    forall i | 0 <= i < n ensures more[i] == trades[i] {}
    assert more[n] == last && n !in Winners(trades);
    assert Winners(more) == Winners(trades) + if last > 0.0 then {n} else {};
  }

  lemma LosersGrow(trades: seq<real>, last: real)
    ensures |Losers(trades + [last])| == |Losers(trades)| + if last < 0.0 then 1 else 0
  {
    var more, n := trades + [last], |trades|;
    forall i | 0 <= i < n ensures more[i] == trades[i] {}
    assert more[n] == last && n !in Losers(trades);
    assert Losers(more) == Losers(trades) + if last < 0.0 then {n} else {};
  }

  lemma {:induction false} SidesCounted(trades: seq<real>)
    ensures |Winning(trades)| == |Winners(trades)| && Sum(Winning(trades)) == Won(trades)
    ensures |Losing(trades)| == |Losers(trades)| && Sum(Losing(trades)) == -Lost(trades)
  {
    if trades == [] {
      assert Winners(trades) == {} && Losers(trades) == {};
    } else {
      var rest, last := trades[..|trades| - 1], trades[|trades| - 1];
      assert trades == rest + [last];
      SidesCounted(rest);
      WinnersGrow(rest, last);
      LosersGrow(rest, last);
      SumStep(Winning(rest), last);
      SumStep(Losing(rest), last);
      assert Winning(rest) + [] == Winning(rest) && Losing(rest) + [] == Losing(rest);
      hide Winners; hide Losers; hide Sum;
    }
  }

  /** A reported mean of n values with the given sum: there is one exactly when there are values. */
  ghost predicate Averages(mean: Option<real>, sum: real, n: nat) {
    && (mean.Some? <==> n > 0)
    && (mean.Some? ==> mean.value * n as real == sum)
  }

  lemma MeanOfAverages(s: seq<real>)
    ensures Averages(MeanOf(s), Sum(s), |s|)
  {
    hide Sum;
    if s != [] { DivMul(Sum(s), |s| as real); }
  }

  lemma QuotientOf(gain: real, loss: real)
    requires loss != 0.0
    ensures Factor(gain, loss) * loss == gain
  {
    DivMul(gain, loss);
  }

  lemma RateAverages(part: nat, n: nat)
    ensures Averages(if n == 0 then None else Some(part as real / n as real), part as real, n)
  {
    if n > 0 { DivMul(part as real, n as real); }
  }

  /** A reported ratio of winnings to losses: there is one exactly when something was lost. */
  ghost predicate WonPerLost(factor: Option<real>, won: real, lost: real) {
    && (factor.Some? <==> lost != 0.0)
    && (factor.Some? ==> factor.value * lost == won)
  }

  lemma FactorIsRatio(won: real, lost: real)
    ensures WonPerLost(if lost != 0.0 then Some(Factor(won, lost)) else None, won, lost)
  {
    hide Factor;
    if lost != 0.0 { QuotientOf(won, lost); }
  }

  /**
   The reported figures of any trades: the share above zero, the means of the winners, of the losers and of
   all trades, and what was won per unit lost.
   */
  lemma FiguresInTrades(trades: seq<real>)
    ensures var f := FiguresOf(trades);
      && Averages(f.winRate, |Winners(trades)| as real, |trades|)
      && Averages(f.averageWin, Won(trades), |Winners(trades)|)
      && Averages(f.averageLoss, -Lost(trades), |Losers(trades)|)
      && Averages(f.expectancy, Won(trades) - Lost(trades), |trades|)
      && WonPerLost(f.profitFactor, Won(trades), Lost(trades))
  {
    hide Sum; hide Won; hide Lost; hide Winning; hide Losing; hide MeanOf; hide Factor; hide Winners; hide Losers;
    hide Averages; hide WonPerLost; hide GrossGain; hide GrossLoss;
    SidesCounted(trades);
    GrossFacts(trades);
    MeanOfAverages(Winning(trades));
    MeanOfAverages(Losing(trades));
    MeanOfAverages(trades);
    LossIsLost(trades);
    RateAverages(|Winning(trades)|, |trades|);
    FactorIsRatio(Won(trades), Lost(trades));
  }

  lemma LossIsLost(trades: seq<real>)
    ensures GrossGain(trades) == Won(trades) && GrossLoss(trades) == Lost(trades)
  {
    SidesCounted(trades);
    GrossFacts(trades);
    hide Sum; hide Won; hide Losing; hide Winning;
    LostNonneg(trades);
  }

  lemma {:induction false} LostNonneg(trades: seq<real>)
    ensures Lost(trades) >= 0.0
  {
    if trades != [] { LostNonneg(trades[..|trades| - 1]); }
  }
}
