/**
 When a backtest is long and what its equity then is, in the figures of its own bars: sums of closes,
 prices with their costs, and no mention of how the run decides or books.
 */
module BacktestSignals {
  import opened RealSeqs
  import opened Arith
  import opened Backtest
  import opened BacktestLedger

  /** The closes of bars lo up to hi, added up. */
  ghost function CloseSum(q: Request, lo: nat, hi: nat): real
    requires lo <= hi <= |q.bars|
    decreases hi
  {
    if lo == hi then 0.0 else CloseSum(q, lo, hi - 1) + q.bars[hi - 1].close
  }

  ghost predicate NoneAbove(q: Request, lo: nat, hi: nat, top: real)
    requires hi <= |q.bars|
  {
    forall i :: lo <= i < hi ==> q.bars[i].close <= top
  }

  /** A sum x over n values averages more than a sum y over m values. */
  ghost predicate HigherMean(x: real, n: nat, y: real, m: nat) { m as real * x > n as real * y }

  /** A price below 97 percent of the mean of n values with the given sum. */
  ghost predicate BelowDiscount(price: real, sum: real, n: nat) { 100.0 * (n as real * price) < 97.0 * sum }

  /** The four rules, on the windows that end just before bar j. */
  ghost predicate RuleHolds(q: Request, j: nat)
    requires 2 <= q.fast < q.slow <= j <= |q.bars|
  {
    var last := q.bars[j - 1].close;
    match q.strategy
    case MovingAverage => HigherMean(CloseSum(q, j - q.fast, j), q.fast, CloseSum(q, j - q.slow, j), q.slow)
    case Momentum => last > q.bars[j - q.fast].close
    case MeanReversion => BelowDiscount(last, CloseSum(q, j - q.slow, j), q.slow)
    case Breakout => NoneAbove(q, j - q.slow, j, last)
  }

  ghost predicate Tradable(q: Request, j: nat)
    requires j < |q.bars|
  {
    var b := q.bars[j];
    b.tradable && b.volume >= q.minVolume && b.tradeValue >= q.minTradeValue && b.spread <= q.maxSpread
  }

  /** Bar j is the last bar before k on which a trade was possible, and the rule held there on a full window. */
  ghost predicate LastWordIsLong(q: Request, j: nat, k: nat)
    requires 2 <= q.fast < q.slow && k <= |q.bars|
  {
    && q.slow <= j < k && Tradable(q, j) && RuleHolds(q, j)
    && forall m :: j < m < k ==> !Tradable(q, m)
  }

  // ----- sums and windows

  lemma {:induction false} WindowSum(q: Request, j: nat, lo: nat, hi: nat)
    requires lo <= hi <= j <= |q.bars|
    ensures |ClosesBefore(q, j)| == j
    ensures Sum(ClosesBefore(q, j)[lo..hi]) == CloseSum(q, lo, hi)
  {
    var s := ClosesBefore(q, j)[lo..hi];
    if lo < hi {
      WindowSum(q, j, lo, hi - 1);
      assert s[..|s| - 1] == ClosesBefore(q, j)[lo..hi - 1];
    }
  }

  lemma CompareQuotients(x: real, n: real, y: real, m: real)
    requires n > 0.0 && m > 0.0
    ensures x / n > y / m <==> m * x > n * y
  {
    var u, v := x / n, y / m;
    DivMul(x, n);
    DivMul(y, m);
    MulPos(n, m);
    assert u * (n * m) == (u * n) * m && v * (n * m) == (v * m) * n;
    if u > v { MulMonoStrict(v, u, n * m); } else { MulMono(u, v, n * m); }
  }

  lemma CompareMeans(x: real, n: nat, y: real, m: nat)
    requires n > 0 && m > 0
    ensures x / n as real > y / m as real <==> HigherMean(x, n, y, m)
  {
    CompareQuotients(x, n as real, y, m as real);
  }

  lemma CompareDiscount(price: real, sum: real, n: nat)
    requires n > 0
    ensures price < sum / n as real * 0.97 <==> BelowDiscount(price, sum, n)
  {
    DiscountedQuotient(price, sum, n as real);
  }

  lemma DiscountedQuotient(last: real, total: real, n: real)
    requires n > 0.0
    ensures last < total / n * 0.97 <==> 100.0 * (n * last) < 97.0 * total
  {
    var mean := total / n;
    DivMul(total, n);
    assert last * n == n * last;
    if 100.0 * last < 97.0 * mean {
      MulMonoStrict(100.0 * last, 97.0 * mean, n);
    } else {
      MulMono(97.0 * mean, 100.0 * last, n);
    }
    assert (100.0 * last) * n == 100.0 * (last * n) && (97.0 * mean) * n == 97.0 * (mean * n);
  }

  lemma HighestOfWindow(q: Request, j: nat, lo: nat)
    requires lo + 1 < j <= |q.bars|
    ensures |ClosesBefore(q, j)| == j
    ensures var last := q.bars[j - 1].close;
      last >= Max(ClosesBefore(q, j)[lo..j - 1]) <==> NoneAbove(q, lo, j, last)
  {
    hide Max;
    var s, last := ClosesBefore(q, j)[lo..j - 1], q.bars[j - 1].close;
    MaxIsGreatest(s);
    forall i | lo <= i < j - 1 ensures q.bars[i].close == s[i - lo] {}
    if last < Max(s) {
      var i :| 0 <= i < |s| && s[i] == Max(s);
      assert q.bars[lo + i].close == s[lo + i - lo];
    }
  }

  lemma WindowMean(q: Request, j: nat, n: nat)
    requires 0 < n <= j <= |q.bars|
    ensures |ClosesBefore(q, j)| == j
    ensures Mean(ClosesBefore(q, j)[j - n..]) == CloseSum(q, j - n, j) / n as real
  {
    WindowSum(q, j, j - n, j);
    hide Sum; hide CloseSum;
    assert ClosesBefore(q, j)[j - n..] == ClosesBefore(q, j)[j - n..j];
  }

  /** The window comparisons of the strategies, in sums. */
  lemma CompareWindows(q: Request, j: nat)
    requires 0 < q.fast <= j && 0 < q.slow <= j <= |q.bars|
    ensures |ClosesBefore(q, j)| == j
    ensures Mean(ClosesBefore(q, j)[j - q.fast..]) > Mean(ClosesBefore(q, j)[j - q.slow..])
      <==> HigherMean(CloseSum(q, j - q.fast, j), q.fast, CloseSum(q, j - q.slow, j), q.slow)
  {
    WindowMean(q, j, q.fast);
    WindowMean(q, j, q.slow);
    hide Mean; hide CloseSum; hide HigherMean;
    CompareMeans(CloseSum(q, j - q.fast, j), q.fast, CloseSum(q, j - q.slow, j), q.slow);
  }

  lemma CompareLast(q: Request, j: nat)
    requires 2 <= q.slow <= j <= |q.bars|
    ensures |ClosesBefore(q, j)| == j
    ensures q.bars[j - 1].close < Mean(ClosesBefore(q, j)[j - q.slow..]) * 0.97
      <==> BelowDiscount(q.bars[j - 1].close, CloseSum(q, j - q.slow, j), q.slow)
  {
    WindowMean(q, j, q.slow);
    hide Mean; hide CloseSum; hide BelowDiscount;
    CompareDiscount(q.bars[j - 1].close, CloseSum(q, j - q.slow, j), q.slow);
  }

  /** The signal before bar j is on exactly when the window is full and the rule of the strategy holds. */
  lemma SignalIsRule(q: Request, j: nat)
    requires ValidRequest(q) && j < |q.bars|
    ensures WantsLong(q, j) <==> q.slow <= j && RuleHolds(q, j)
  {
    hide ValidBars; hide UniqueAscendingDates; hide ValidCosts; hide Mean; hide Max; hide CloseSum; hide NoneAbove;
    hide HigherMean; hide BelowDiscount;
    if j >= q.slow {
      CompareWindows(q, j);
      CompareLast(q, j);
      HighestOfWindow(q, j, j - q.slow);
    }
  }

  lemma SameLastWord(q: Request, j: nat, k: nat)
    requires ValidRequest(q) && k <= |q.bars|
    ensures ValidWindows(q) && (LatestLiquidSignal(q, j, k) <==> LastWordIsLong(q, j, k))
  {
    if j < k { SignalIsRule(q, j); }
    hide WantsLong; hide RuleHolds; hide ValidBar;
    forall m: nat | m < k ensures Liquid(q, q.bars[m]) == Tradable(q, m) {}
    hide Liquid; hide Tradable;
  }

  /**
   After k bars the run holds a position exactly when, on the last bar that could be traded, the sums and
   closes of the windows before that bar met the rule of the strategy.
   */
  lemma LongExactlyWhen(q: Request, k: nat)
    requires ValidRequest(q) && k <= |q.bars|
    ensures ValidWindows(q) && (Replay(q, k).position.Some? <==> exists j: nat :: LastWordIsLong(q, j, k))
  {
    HoldingIsLatestLiquidSignal(q, k);
    SameLastWord(q, 0, k);
    hide Replay; hide LatestLiquidSignal; hide LastWordIsLong; hide ValidRequest;
    forall j: nat ensures LatestLiquidSignal(q, j, k) <==> LastWordIsLong(q, j, k) {
      SameLastWord(q, j, k);
    }
  }

  ghost predicate LongBy(q: Request, k: nat)
    requires 2 <= q.fast < q.slow && k <= |q.bars|
  {
    exists j: nat :: LastWordIsLong(q, j, k)
  }

  /** The bar counts after which the rules, told on the bars themselves, want a position. */
  ghost function LongBars(q: Request): set<int>
    requires 2 <= q.fast < q.slow
  {
    set k | 1 <= k <= |q.bars| && LongBy(q, k)
  }

  // ----- markets that only rise or only fall

  ghost predicate StrictlyRising(q: Request) {
    forall i, j :: 0 <= i < j < |q.bars| ==> q.bars[i].close < q.bars[j].close
  }

  ghost predicate StrictlyFalling(q: Request) {
    forall i, j :: 0 <= i < j < |q.bars| ==> q.bars[i].close > q.bars[j].close
  }

  lemma {:induction false} SumAbove(q: Request, lo: nat, hi: nat, low: real)
    requires lo <= hi <= |q.bars| && forall i :: lo <= i < hi ==> q.bars[i].close > low
    ensures CloseSum(q, lo, hi) >= (hi - lo) as real * low
    ensures lo < hi ==> CloseSum(q, lo, hi) > (hi - lo) as real * low
  {
    if lo < hi {
      SumAbove(q, lo, hi - 1, low);
      assert (hi - lo) as real * low == (hi - 1 - lo) as real * low + low;
    }
  }

  lemma {:induction false} SumBelow(q: Request, lo: nat, hi: nat, high: real)
    requires lo <= hi <= |q.bars| && forall i :: lo <= i < hi ==> q.bars[i].close < high
    ensures CloseSum(q, lo, hi) <= (hi - lo) as real * high
    ensures lo < hi ==> CloseSum(q, lo, hi) < (hi - lo) as real * high
  {
    if lo < hi {
      SumBelow(q, lo, hi - 1, high);
      assert (hi - lo) as real * high == (hi - 1 - lo) as real * high + high;
    }
  }

  lemma {:induction false} SumSplit(q: Request, lo: nat, mid: nat, hi: nat)
    requires lo <= mid <= hi <= |q.bars|
    ensures CloseSum(q, lo, hi) == CloseSum(q, lo, mid) + CloseSum(q, mid, hi)
  {
    if mid < hi { SumSplit(q, lo, mid, hi - 1); }
  }

  /** An early window below a price c and a late one above it: the late one averages more than both together. */
  lemma LateWindowHigher(late: real, early: real, fast: nat, slow: nat, rest: real, c: real)
    requires 0 < fast < slow && rest == (slow - fast) as real && late > fast as real * c && early < rest * c
    ensures HigherMean(late, fast, early + late, slow)
  {
    var f := fast as real;
    MulMonoStrict(f * c, late, rest);
    MulMonoStrict(early, rest * c, f);
    assert (f * c) * rest == (rest * c) * f;
    assert slow as real * late == (f + rest) * late == f * late + late * rest;
  }

  lemma LateWindowLower(late: real, early: real, fast: nat, slow: nat, rest: real, c: real)
    requires 0 < fast < slow && rest == (slow - fast) as real && late < fast as real * c && early > rest * c
    ensures !HigherMean(late, fast, early + late, slow)
  {
    var f := fast as real;
    MulMonoStrict(late, f * c, rest);
    MulMonoStrict(rest * c, early, f);
    assert (f * c) * rest == (rest * c) * f;
    assert slow as real * late == (f + rest) * late == f * late + late * rest;
  }

  /** A price strictly between two neighbouring closes, on a strict trend. */
  ghost function Between(x: real, y: real): real { (x + y) / 2.0 }

  /** Strictly below bar cut before it, strictly above from it on: what the two windows sum to. */
  ghost predicate Splits(q: Request, lo: nat, cut: nat, hi: nat, c: real)
    requires lo < cut < hi <= |q.bars|
  {
    && (forall i :: lo <= i < cut ==> q.bars[i].close < c)
    && (forall i :: cut <= i < hi ==> q.bars[i].close > c)
  }

  ghost predicate SplitsDown(q: Request, lo: nat, cut: nat, hi: nat, c: real)
    requires lo < cut < hi <= |q.bars|
  {
    && (forall i :: lo <= i < cut ==> q.bars[i].close > c)
    && (forall i :: cut <= i < hi ==> q.bars[i].close < c)
  }

  lemma SplitHigher(q: Request, fast: nat, slow: nat, hi: nat, c: real)
    requires 0 < fast < slow <= hi <= |q.bars| && Splits(q, hi - slow, hi - fast, hi, c)
    ensures HigherMean(CloseSum(q, hi - fast, hi), fast, CloseSum(q, hi - slow, hi), slow)
  {
    var lo, cut, rest := hi - slow, hi - fast, (slow - fast) as real;
    SumSplit(q, lo, cut, hi);
    SumAbove(q, cut, hi, c);
    SumBelow(q, lo, cut, c);
    hide CloseSum; hide Splits; hide HigherMean;
    LateWindowHigher(CloseSum(q, cut, hi), CloseSum(q, lo, cut), fast, slow, rest, c);
  }

  lemma SplitLower(q: Request, fast: nat, slow: nat, hi: nat, c: real)
    requires 0 < fast < slow <= hi <= |q.bars| && SplitsDown(q, hi - slow, hi - fast, hi, c)
    ensures !HigherMean(CloseSum(q, hi - fast, hi), fast, CloseSum(q, hi - slow, hi), slow)
  {
    var lo, cut, rest := hi - slow, hi - fast, (slow - fast) as real;
    SumSplit(q, lo, cut, hi);
    SumBelow(q, cut, hi, c);
    SumAbove(q, lo, cut, c);
    hide CloseSum; hide SplitsDown; hide HigherMean;
    LateWindowLower(CloseSum(q, cut, hi), CloseSum(q, lo, cut), fast, slow, rest, c);
  }

  /** The last close of a rising window is too high for mean reversion. */
  lemma LastAboveDiscount(q: Request, lo: nat, hi: nat)
    requires lo < hi <= |q.bars| && StrictlyRising(q) && q.bars[hi - 1].close > 0.0
    ensures !BelowDiscount(q.bars[hi - 1].close, CloseSum(q, lo, hi), hi - lo)
  {
    var last, n := q.bars[hi - 1].close, (hi - lo) as real;
    SumBelow(q, lo, hi - 1, last);
    assert CloseSum(q, lo, hi) == CloseSum(q, lo, hi - 1) + last;
    hide CloseSum; hide StrictlyRising;
    assert (hi - 1 - lo) as real == n - 1.0;
    DiscountMath(n, CloseSum(q, lo, hi - 1), last);
  }

  lemma DiscountMath(n: real, earlier: real, last: real)
    requires n >= 1.0 && last > 0.0 && earlier <= (n - 1.0) * last
    ensures 100.0 * (n * last) >= 97.0 * (earlier + last)
  {
    MulPos(n, last);
    assert (n - 1.0) * last == n * last - last;
  }

  lemma WindowFacts(q: Request, j: nat)
    requires ValidRequest(q) && q.slow <= j <= |q.bars|
    ensures 0 <= j - q.slow < j - q.fast < j - 1 && q.bars[j - 1].close > 0.0
  {
    assert ValidBar(q.bars[j - 1]);
  }

  lemma RisingSplits(q: Request, lo: nat, cut: nat, hi: nat)
    requires lo < cut < hi - 1 < |q.bars| && StrictlyRising(q)
    ensures Splits(q, lo, cut, hi, Between(q.bars[cut - 1].close, q.bars[cut].close))
    ensures NoneAbove(q, lo, hi, q.bars[hi - 1].close) && q.bars[cut].close < q.bars[hi - 1].close
  {}

  lemma FallingSplits(q: Request, lo: nat, cut: nat, hi: nat)
    requires lo < cut < hi - 1 < |q.bars| && StrictlyFalling(q)
    ensures SplitsDown(q, lo, cut, hi, Between(q.bars[cut - 1].close, q.bars[cut].close))
    ensures !NoneAbove(q, lo, hi, q.bars[hi - 1].close) && q.bars[cut].close > q.bars[hi - 1].close
  {
    assert q.bars[lo].close > q.bars[hi - 1].close;
  }

  lemma RisingFacts(q: Request, fast: nat, slow: nat, j: nat)
    requires 2 <= fast < slow <= j <= |q.bars| && StrictlyRising(q) && q.bars[j - 1].close > 0.0
    ensures HigherMean(CloseSum(q, j - fast, j), fast, CloseSum(q, j - slow, j), slow)
    ensures !BelowDiscount(q.bars[j - 1].close, CloseSum(q, j - slow, j), slow)
    ensures q.bars[j - 1].close > q.bars[j - fast].close && NoneAbove(q, j - slow, j, q.bars[j - 1].close)
  {
    hide CloseSum; hide HigherMean; hide BelowDiscount; hide NoneAbove; hide Between; hide Splits;
    RisingSplits(q, j - slow, j - fast, j);
    LastAboveDiscount(q, j - slow, j);
    hide StrictlyRising;
    SplitHigher(q, fast, slow, j, Between(q.bars[j - fast - 1].close, q.bars[j - fast].close));
  }

  lemma FallingFacts(q: Request, fast: nat, slow: nat, j: nat)
    requires 2 <= fast < slow <= j <= |q.bars| && StrictlyFalling(q)
    ensures !HigherMean(CloseSum(q, j - fast, j), fast, CloseSum(q, j - slow, j), slow)
    ensures q.bars[j - 1].close < q.bars[j - fast].close && !NoneAbove(q, j - slow, j, q.bars[j - 1].close)
  {
    hide CloseSum; hide HigherMean; hide NoneAbove; hide Between; hide SplitsDown;
    FallingSplits(q, j - slow, j - fast, j);
    hide StrictlyFalling;
    SplitLower(q, fast, slow, j, Between(q.bars[j - fast - 1].close, q.bars[j - fast].close));
  }

  lemma RisingRule(q: Request, j: nat)
    requires ValidRequest(q) && StrictlyRising(q) && q.slow <= j <= |q.bars|
    ensures RuleHolds(q, j) <==> q.strategy != MeanReversion
  {
    WindowFacts(q, j);
    RisingFacts(q, q.fast, q.slow, j);
    hide ValidRequest; hide CloseSum; hide HigherMean; hide BelowDiscount; hide NoneAbove; hide StrictlyRising;
  }

  lemma FallingRule(q: Request, j: nat)
    requires ValidRequest(q) && StrictlyFalling(q) && q.slow <= j <= |q.bars| && q.strategy != MeanReversion
    ensures !RuleHolds(q, j)
  {
    WindowFacts(q, j);
    FallingFacts(q, q.fast, q.slow, j);
    hide ValidRequest; hide CloseSum; hide HigherMean; hide BelowDiscount; hide NoneAbove; hide StrictlyFalling;
  }

  /** In a market that only rises the trend strategies are long from the first tradable bar with a full window. */
  lemma RisingMarket(q: Request, k: nat)
    requires ValidRequest(q) && StrictlyRising(q) && k <= |q.bars|
    ensures q.strategy == MeanReversion ==> Replay(q, k).position.None?
    ensures q.strategy != MeanReversion ==>
      (Replay(q, k).position.Some? <==> exists j :: q.slow <= j < k && Tradable(q, j))
  {
    LongExactlyWhen(q, k);
    hide Replay; hide RuleHolds; hide Tradable; hide StrictlyRising; hide ValidRequest;
    forall j: nat | q.slow <= j < k ensures RuleHolds(q, j) <==> q.strategy != MeanReversion {
      RisingRule(q, j);
    }
    if j: nat :| q.slow <= j < k && Tradable(q, j) {
      var l := LatestTradable(q, j, k);
      assert q.strategy != MeanReversion ==> LastWordIsLong(q, l, k);
    }
  }

  lemma {:induction false} LatestTradable(q: Request, j: nat, k: nat) returns (l: nat)
    requires j < k <= |q.bars| && Tradable(q, j)
    ensures j <= l < k && Tradable(q, l) && forall m :: l < m < k ==> !Tradable(q, m)
    decreases k
  {
    l := k - 1;
    if !Tradable(q, l) { l := LatestTradable(q, j, k - 1); }
  }

  /** In a market that only falls they never trade. */
  lemma FallingMarket(q: Request, k: nat)
    requires ValidRequest(q) && StrictlyFalling(q) && k <= |q.bars| && q.strategy != MeanReversion
    ensures Replay(q, k).position.None?
  {
    LongExactlyWhen(q, k);
    hide Replay; hide RuleHolds; hide StrictlyFalling; hide ValidRequest;
    forall j: nat | q.slow <= j < k ensures !RuleHolds(q, j) {
      FallingRule(q, j);
    }
  }

  // ----- equity and trades in prices

  /**
   Capital put into the market on bar e and worth `equity` at the close of bar x: one fee comes off, and the
   purchase pays the close of bar e with the slippage and half the spread on top.
   */
  ghost predicate InvestedSince(q: Request, equity: real, capital: real, e: nat, x: nat)
    requires e < |q.bars| && x < |q.bars|
  {
    equity * (q.bars[e].close * (1.0 + q.slippage + q.bars[e].spread / 2.0))
      == capital * (1.0 - q.fee) * q.bars[x].close
  }

  lemma ValueOfPurchase(quantity: real, paid: real, spent: real, close: real)
    requires quantity * paid == spent
    ensures (quantity * close) * paid == spent * close
  {
    assert (quantity * close) * paid == (quantity * paid) * close;
  }

  lemma HeldValue(q: Request, p: Position, capital: real, e: nat, x: nat)
    requires e < |q.bars| && x < |q.bars| && BookedPosition(q, p, capital, e)
    ensures InvestedSince(q, MarketValue(p, q.bars[x]), capital, e, x)
  {
    ValueOfPurchase(p.quantity, BuyPrice(q, q.bars[e]), capital * (1.0 - q.fee), q.bars[x].close);
  }

  lemma LastEntry(q: Request, k: nat)
    requires ValidRequest(q) && 0 < k <= |q.bars|
    ensures |Replay(q, k).equity| == k + 1
    ensures Replay(q, k).position.None? ==> Replay(q, k).equity[k] == Replay(q, k).cash
    ensures Replay(q, k).position.Some? ==>
      Replay(q, k).equity[k] == MarketValue(Replay(q, k).position.value, q.bars[k - 1])
  {
    ReplayShape(q, k);
    hide Replay; hide MarketValue;
  }

  lemma BookedNow(q: Request, k: nat)
    requires ValidRequest(q) && k <= |q.bars|
    ensures Replay(q, k).position.None? ==> Replay(q, k).cash == Compounded(q, Replay(q, k).trades)
    ensures Replay(q, k).position.Some? ==>
      BookedPosition(q, Replay(q, k).position.value, Compounded(q, Replay(q, k).trades), EntryBar(q, k))
  {
    AlwaysBooked(q, k);
    hide Replay; hide Compounded; hide BookedPosition; hide EntryBar;
  }

  /**
   The curve in prices: while flat, the initial capital times 1 + r over all trades so far; while long, that
   capital invested since the entry bar, at the last close.
   */
  lemma EquityInPrices(q: Request, k: nat)
    requires ValidRequest(q) && 0 < k <= |q.bars|
    ensures |Replay(q, k).equity| == k + 1
    ensures Replay(q, k).position.None? ==> Replay(q, k).equity[k] == Compounded(q, Replay(q, k).trades)
    ensures Replay(q, k).position.Some? ==>
      InvestedSince(q, Replay(q, k).equity[k], Compounded(q, Replay(q, k).trades), EntryBar(q, k), k - 1)
  {
    hide Replay; hide Compounded; hide EntryBar; hide InvestedSince; hide BookedPosition; hide MarketValue;
    LastEntry(q, k);
    BookedNow(q, k);
    hide ValidRequest;
    if Replay(q, k).position.Some? {
      HeldValue(q, Replay(q, k).position.value, Compounded(q, Replay(q, k).trades), EntryBar(q, k), k - 1);
    }
  }

  /** A round trip from bar e to bar x in prices: two fees, and slippage and half a spread at either end. */
  ghost predicate TripInPrices(q: Request, trade: real, e: nat, x: nat)
    requires e < |q.bars| && x < |q.bars|
  {
    (1.0 + trade) * (q.bars[e].close * (1.0 + q.slippage + q.bars[e].spread / 2.0))
      == (1.0 - q.fee) * (1.0 - q.fee) * (q.bars[x].close * (1.0 - q.slippage - q.bars[x].spread / 2.0))
  }

  lemma GrowthInPrices(kept: real, buy: real, sell: real, growth: real)
    requires buy != 0.0 && growth == CostedRatio(kept, buy, sell)
    ensures growth * buy == kept * kept * sell
  {
    DivMul(kept * kept * sell, buy);
  }

  ghost predicate TripsInPrices(q: Request, trades: seq<real>, trips: seq<Trip>)
    requires forall t :: t in trips ==> t.entry <= t.exit < |q.bars|
  {
    && |trades| == |trips|
    && forall i :: 0 <= i < |trips| ==> TripInPrices(q, trades[i], trips[i].entry, trips[i].exit)
  }

  lemma MatchInPrices(q: Request, trades: seq<real>, trips: seq<Trip>)
    requires ValidRequest(q) && forall t :: t in trips ==> t.entry <= t.exit < |q.bars|
    requires TradesMatchTrips(q, trades, trips)
    ensures TripsInPrices(q, trades, trips)
  {
    hide ValidRequest; hide TripGrowth; hide TripInPrices; hide Compounded; hide BuyPrice;
    forall i | 0 <= i < |trips| ensures TripInPrices(q, trades[i], trips[i].entry, trips[i].exit) {
      assert TripOf(q, trades, i, trips[i]);
      TripPrices(q, trades[i], trips[i].entry, trips[i].exit);
    }
  }

  /** Every trade of the run is its round trip in prices, and the capital compounds exactly these. */
  lemma TradesInPrices(q: Request)
    requires ValidRequest(q)
    ensures TripsInPrices(q, Final(q).trades, AllTrips(q))
    ensures |Final(q).equity| == |q.bars| + 1
    ensures Final(q).equity[|q.bars|] == Compounded(q, Final(q).trades)
  {
    hide Final; hide AllTrips; hide Compounded; hide ValidRequest; hide TradesMatchTrips; hide TripsInPrices;
    FinalTradesAreTrips(q);
    FinalShape(q);
    TradesTelescope(q);
    MatchInPrices(q, Final(q).trades, AllTrips(q));
  }

  lemma TripPrices(q: Request, trade: real, e: nat, x: nat)
    requires ValidRequest(q) && e < |q.bars| && x < |q.bars| && 1.0 + trade == TripGrowth(q, e, x)
    ensures TripInPrices(q, trade, e, x)
  {
    PricesPositive(q, q.bars[e]);
    GrowthInPrices(1.0 - q.fee, BuyPrice(q, q.bars[e]), SellPrice(q, q.bars[x]), 1.0 + trade);
    hide CostedRatio;
  }
}
