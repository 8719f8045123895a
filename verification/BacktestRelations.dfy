/**
 Two-run properties of the backtest: what a run may not look at, how dearer trading
 compares with cheaper trading, and what rescaling money or prices changes.
 */
module BacktestRelations {
  import opened Common
  import opened RealSeqs
  import opened Arith
  import opened Backtest
  import opened BacktestLedger

  // ----- no look-ahead

  lemma {:induction false} EquityPrefix(q: Request, k: nat, n: nat)
    requires ValidRequest(q) && k <= n <= |q.bars|
    ensures |Replay(q, n).equity| == n + 1 && |Replay(q, k).equity| == k + 1
    ensures Replay(q, n).equity[..k + 1] == Replay(q, k).equity
  {
    hide Replay; hide ValidRequest;
    EquityLengths(q, k, n);
    if k < n {
      EquityStep(q, n - 1);
      EquityPrefix(q, k, n - 1);
      PrefixOfPrefix(Replay(q, n).equity, Replay(q, n - 1).equity, Replay(q, k).equity);
    }
  }

  lemma PrefixOfPrefix(e: seq<real>, f: seq<real>, g: seq<real>)
    requires |g| <= |f| <= |e| && e[..|f|] == f && f[..|g|] == g
    ensures e[..|g|] == g
  {}

  lemma EquityLengths(q: Request, k: nat, n: nat)
    requires ValidRequest(q) && k <= n <= |q.bars|
    ensures |Replay(q, n).equity| == n + 1 && |Replay(q, k).equity| == k + 1
  {
    ReplayShape(q, n);
    ReplayShape(q, k);
  }

  lemma EquityStep(q: Request, n: nat)
    requires ValidRequest(q) && n < |q.bars|
    ensures |Replay(q, n + 1).equity| == n + 2 && Replay(q, n + 1).equity[..n + 1] == Replay(q, n).equity
  {
    hide Replay; hide Traded; hide Worth;
    ReplayShape(q, n);
    TradedShape(q, Replay(q, n), q.bars[n]);
    ReplayStep(q, n);
  }

  lemma SaleReadsCostsOnly(q: Request, r: Request, p: Position, b: Bar)
    requires q.fee == r.fee && q.slippage == r.slippage
    ensures Proceeds(q, p, b) == Proceeds(r, p, b) && SellCosts(q, p, b) == SellCosts(r, p, b)
  {
    var fee, sell := q.fee, SellPrice(q, b);
    assert sell == SellPrice(r, b);
    hide SellPrice;
    var gross := p.quantity * sell;
    assert Gross(q, p, b) == gross && Gross(r, p, b) == gross;
    hide Gross;
    assert Proceeds(q, p, b) == gross - gross * fee && Proceeds(r, p, b) == gross - gross * fee;
  }

  /** Trading a bar reads the parameters of the request only, never its other bars. */
  lemma TradedReadsNoBars(q: Request, r: Request, a: Account, b: Bar)
    requires r == q.(bars := r.bars)
    requires ValidBar(b) && ValidWindows(q) && ValidCosts(q) && Sound(a)
    ensures Traded(q, a, b) == Traded(r, a, b)
  {
    hide Signal; hide Basis;
    if a.position.None? {
      PurchaseFacts(q, a.cash, b);
      assert Bought(q, a.cash, b) == Bought(r, a.cash, b);
      hide BuyPrice; hide Bought; hide BuyCosts;
    } else {
      SaleFacts(q, a.position.value, b);
      SaleReadsCostsOnly(q, r, a.position.value, b);
      hide Proceeds; hide SellCosts;
    }
  }

  lemma {:induction false} SamePrefixSameReplay(q: Request, r: Request, k: nat)
    requires ValidRequest(q) && ValidRequest(r) && r == q.(bars := r.bars)
    requires k <= |q.bars| && k <= |r.bars| && q.bars[..k] == r.bars[..k]
    ensures Replay(q, k) == Replay(r, k)
  {
    if k > 0 {
      assert q.bars[..k - 1] == q.bars[..k][..k - 1] == r.bars[..k - 1];
      assert q.bars[k - 1] == q.bars[..k][k - 1] == r.bars[k - 1];
      SamePrefixSameReplay(q, r, k - 1);
      hide Traded;
      TradedReadsNoBars(q, r, Replay(q, k - 1), q.bars[k - 1]);
    }
  }

  /**
   No look-ahead: requests that share parameters and their first k bars have the same first k + 1
   equity entries, whatever follows.
   */
  lemma NoLookAhead(q: Request, r: Request, k: nat)
    requires ValidRequest(q) && ValidRequest(r) && r == q.(bars := r.bars)
    requires k < |q.bars| && k < |r.bars| && q.bars[..k] == r.bars[..k]
    ensures |Final(q).equity| > k && |Final(r).equity| > k
    ensures Final(q).equity[..k + 1] == Final(r).equity[..k + 1]
  {
    SamePrefixSameReplay(q, r, k);
    hide Replay; hide Final; hide ValidRequest;
    FinalPrefix(q, k);
    FinalPrefix(r, k);
  }

  lemma FinalPrefix(q: Request, k: nat)
    requires ValidRequest(q) && k < |q.bars|
    ensures |Final(q).equity| > k && Final(q).equity[..k + 1] == Replay(q, k).equity
  {
    hide Replay; hide Final;
    FinalShape(q);
    EquityPrefix(q, k, |q.bars|);
    assert Final(q).equity[..k + 1] == Final(q).equity[..|q.bars|][..k + 1];
    assert Replay(q, |q.bars|).equity[..k + 1] == Replay(q, |q.bars|).equity[..|q.bars|][..k + 1];
  }

  /** The close of bar k itself cannot decide whether the run is long after bar k. */
  lemma CloseOfBarDoesNotDecide(q: Request, r: Request, k: nat)
    requires ValidRequest(q) && ValidRequest(r) && r == q.(bars := r.bars)
    requires k < |q.bars| && k < |r.bars| && q.bars[..k] == r.bars[..k]
    requires q.bars[k].(close := r.bars[k].close) == r.bars[k]
    ensures Holding(q, k + 1) == Holding(r, k + 1)
  {
    SamePrefixSameReplay(q, r, k);
    hide Replay; hide Signal;
    HoldingStep(q, k);
    HoldingStep(r, k);
    forall i | 0 <= i < k ensures q.bars[i] == r.bars[i] {
      assert q.bars[i] == q.bars[..k][i];
    }
    assert ClosesBefore(q, k) == ClosesBefore(r, k);
  }

  // ----- cheaper trading is never worse

  /** r trades under the same rules as q, at costs at least as high. */
  ghost predicate Dearer(q: Request, r: Request) {
    r == q.(fee := r.fee, slippage := r.slippage) && q.fee <= r.fee && q.slippage <= r.slippage
  }

  ghost predicate PointwiseAtLeast(xs: seq<real>, ys: seq<real>) {
    |xs| == |ys| && forall i :: 0 <= i < |xs| ==> xs[i] >= ys[i]
  }

  /** Position p holds at least as much as p', both in units and per unit of money spent. */
  ghost predicate BetterPosition(p: Position, p': Position) {
    p.quantity >= p'.quantity && p.quantity * Basis(p') >= p'.quantity * Basis(p)
  }

  /** The cheaper account a is at least as well off as a'. */
  ghost predicate Ahead(a: Account, a': Account) {
    && a.closes == a'.closes
    && PointwiseAtLeast(a.equity, a'.equity)
    && PointwiseAtLeast(a.trades, a'.trades)
    && match (a.position, a'.position)
       case (None, None) => a.cash >= a'.cash
       case (Some(p), Some(p')) => BetterPosition(p, p')
       case _ => false
  }

  lemma DearerPrices(q: Request, r: Request, b: Bar)
    requires Dearer(q, r) && ValidBar(b) && ValidCosts(q) && ValidCosts(r)
    ensures 0.0 < BuyPrice(q, b) <= BuyPrice(r, b)
    ensures 0.0 < SellPrice(r, b) <= SellPrice(q, b)
  {
    PricesPositive(q, b);
    PricesPositive(r, b);
    var up, up' := 1.0 + q.slippage + b.spread / 2.0, 1.0 + r.slippage + b.spread / 2.0;
    var down, down' := 1.0 - q.slippage - b.spread / 2.0, 1.0 - r.slippage - b.spread / 2.0;
    MulMono2(b.close, b.close, up, up');
    MulMono2(b.close, b.close, down', down);
  }

  lemma BetterPurchase(q: Request, r: Request, cash: real, cash': real, b: Bar)
    requires Dearer(q, r) && ValidBar(b) && ValidCosts(q) && ValidCosts(r) && cash >= cash' > 0.0
    ensures BuyPrice(q, b) > 0.0 && BuyPrice(r, b) > 0.0
    ensures BetterPosition(Bought(q, cash, b), Bought(r, cash', b))
  {
    hide Bought; hide Basis; hide BuyPrice; hide MarketValue; hide BuyCosts; hide BetterPosition; hide ValidBar;
    DearerPrices(q, r, b);
    PurchaseFacts(q, cash, b);
    PurchaseFacts(r, cash', b);
    BetterBought(Bought(q, cash, b), Bought(r, cash', b), BuyPrice(q, b), BuyPrice(r, b), cash, cash', q.fee, r.fee);
  }

  lemma BetterBought(p: Position, p': Position, price: real, price': real, cash: real, cash': real, fee: real,
                     fee': real)
    requires SoundPosition(p) && SoundPosition(p') && 0.0 < price <= price' && cash >= cash' > 0.0
    requires 0.0 <= fee <= fee' < 1.0 && Basis(p) == cash && Basis(p') == cash'
    requires p.quantity * price == cash * (1.0 - fee) && p'.quantity * price' == cash' * (1.0 - fee')
    ensures BetterPosition(p, p')
  {
    hide Basis;
    BetterPurchaseMath(p.quantity, p'.quantity, price, price', cash, cash', 1.0 - fee, 1.0 - fee');
  }

  lemma BetterPurchaseMath(x: real, x': real, price: real, price': real, c: real, c': real, f: real, f': real)
    requires x > 0.0 && x' > 0.0 && 0.0 < price <= price' && c >= c' > 0.0 && f >= f' > 0.0
    requires x * price == c * f && x' * price' == c' * f'
    ensures x >= x' && x * c' >= x' * c
  {
    // x / c == f / price >= f' / price' == x' / c'
    MulPos(c, c');
    MulMono2(f', f, price, price');
    assert f * price' >= f' * price;
    MulMono(f' * price, f * price', c * c');
    assert (x * c') * (price * price') == (x * price) * (c' * price') == (f * price') * (c * c');
    assert (x' * c) * (price * price') == (x' * price') * (c * price) == (f' * price) * (c * c');
    MulPos(price, price');
    if x * c' < x' * c { MulMonoStrict(x * c', x' * c, price * price'); }
    if x < x' {
      MulMonoStrict(x, x', c');
      MulMono(c', c, x');
    }
  }

  lemma BetterSale(q: Request, r: Request, p: Position, p': Position, b: Bar)
    requires Dearer(q, r) && ValidBar(b) && ValidCosts(q) && ValidCosts(r)
    requires SoundPosition(p) && SoundPosition(p') && BetterPosition(p, p')
    ensures Basis(p) > 0.0 && Basis(p') > 0.0
    ensures Proceeds(q, p, b) >= Proceeds(r, p', b) > 0.0
    ensures TradeReturn(Proceeds(q, p, b), Basis(p)) >= TradeReturn(Proceeds(r, p', b), Basis(p'))
  {
    hide Basis; hide Proceeds; hide TradeReturn; hide SellPrice; hide MarketValue; hide SellCosts;
    DearerPrices(q, r, b);
    SaleFacts(q, p, b);
    SaleFacts(r, p', b);
    BetterSaleMath(p.quantity, p'.quantity, Basis(p), Basis(p'), SellPrice(q, b), SellPrice(r, b),
                   1.0 - q.fee, 1.0 - r.fee, Proceeds(q, p, b), Proceeds(r, p', b));
  }

  lemma BetterSaleMath(x: real, x': real, basis: real, basis': real, sell: real, sell': real,
                       f: real, f': real, out: real, out': real)
    requires out == x * sell * f && out' == x' * sell' * f'
    requires x >= x' > 0.0 && basis > 0.0 && basis' > 0.0 && x * basis' >= x' * basis
    requires sell >= sell' > 0.0 && f >= f' > 0.0
    ensures out >= out'
    ensures TradeReturn(out, basis) >= TradeReturn(out', basis')
  {
    MulMono2(sell', sell, f', f);
    MulMono2(x', x, sell' * f', sell * f);
    MulPos(x', basis);
    MulMono2(x' * basis, x * basis', sell' * f', sell * f);
    assert out' * basis == (x' * basis) * (sell' * f');
    assert out * basis' == (x * basis') * (sell * f);
    assert out == x * (sell * f) && out' == x' * (sell' * f');
    DivMono(out', basis', out, basis);
  }

  lemma AheadTraded(q: Request, r: Request, a: Account, a': Account, b: Bar)
    requires Dearer(q, r) && ValidBar(b) && ValidCosts(q) && ValidCosts(r) && ValidWindows(q)
    requires Sound(a) && Sound(a') && Ahead(a, a')
    ensures Ahead(Traded(q, a, b), Traded(r, a', b))
  {
    hide Signal; hide Basis; hide BuyPrice; hide Bought; hide BuyCosts; hide Proceeds; hide SellCosts;
    hide TradeReturn; hide BetterPosition;
    if a.position.None? {
      BetterPurchase(q, r, a.cash, a'.cash, b);
    } else {
      BetterSale(q, r, a.position.value, a'.position.value, b);
    }
  }

  lemma WorthAhead(a: Account, a': Account, b: Bar)
    requires Ahead(a, a') && ValidBar(b)
    ensures Worth(a, b) >= Worth(a', b)
  {
    hide PointwiseAtLeast;
    if a.position.Some? { ValueAhead(a.position.value.quantity, a'.position.value.quantity, b.close); }
  }

  lemma ValueAhead(x: real, y: real, close: real)
    requires x >= y && close >= 0.0
    ensures x * close >= y * close
  {
    MulMono(y, x, close);
  }

  lemma PointwiseAppend(xs: seq<real>, ys: seq<real>, x: real, y: real)
    requires PointwiseAtLeast(xs, ys) && x >= y
    ensures PointwiseAtLeast(xs + [x], ys + [y])
  {}

  lemma AheadMarked(a: Account, a': Account, b: Bar)
    requires Ahead(a, a') && ValidBar(b)
    ensures Ahead(Marked(a, b), Marked(a', b))
  {
    WorthAhead(a, a', b);
    hide Worth;
    PointwiseAppend(a.equity, a'.equity, Worth(a, b), Worth(a', b));
    hide PointwiseAtLeast; hide BetterPosition;
  }

  lemma {:induction false} AheadThroughout(q: Request, r: Request, k: nat)
    requires ValidRequest(q) && ValidRequest(r) && Dearer(q, r) && k <= |q.bars|
    ensures Ahead(Replay(q, k), Replay(r, k))
  {
    hide Replay; hide Ahead; hide ValidRequest;
    DearerBars(q, r);
    if k == 0 {
      AheadAtStart(q, r);
    } else {
      AheadThroughout(q, r, k - 1);
      AheadStep(q, r, k - 1);
    }
  }

  lemma DearerBars(q: Request, r: Request)
    requires Dearer(q, r)
    ensures r.bars == q.bars
  {}

  lemma AheadAtStart(q: Request, r: Request)
    requires ValidRequest(q) && ValidRequest(r) && Dearer(q, r)
    ensures Ahead(Replay(q, 0), Replay(r, 0))
  {}

  lemma AheadStep(q: Request, r: Request, k: nat)
    requires ValidRequest(q) && ValidRequest(r) && Dearer(q, r) && k < |q.bars|
    requires Ahead(Replay(q, k), Replay(r, k))
    ensures Ahead(Replay(q, k + 1), Replay(r, k + 1))
  {
    var b := q.bars[k];
    hide Replay; hide Traded; hide Marked; hide Ahead;
    ReplayStep(q, k);
    ReplayStep(r, k);
    AheadTraded(q, r, Replay(q, k), Replay(r, k), b);
    AheadMarked(Traded(q, Replay(q, k), b), Traded(r, Replay(r, k), b), b);
  }

  /**
   Cost monotonicity: at lower fee and slippage the run is long after exactly the same bars, its
   equity is at least the dearer run's at every point, and so is every single trade return.
   */
  lemma CheaperIsNeverWorse(q: Request, r: Request)
    requires ValidRequest(q) && ValidRequest(r) && Dearer(q, r)
    ensures forall k: nat :: k <= |q.bars| ==> Holding(q, k) == Holding(r, k)
    ensures PointwiseAtLeast(Final(q).equity, Final(r).equity)
    ensures PointwiseAtLeast(Final(q).trades, Final(r).trades)
  {
    hide Replay; hide Basis; hide Proceeds; hide SellCosts; hide TradeReturn; hide BetterPosition;
    forall k: nat | k <= |q.bars| ensures Holding(q, k) == Holding(r, k) {
      AheadThroughout(q, r, k);
    }
    var n := |q.bars|;
    AheadThroughout(q, r, n);
    FinalShape(q);
    FinalShape(r);
    if Holding(q, n) {
      BetterSale(q, r, Replay(q, n).position.value, Replay(r, n).position.value, q.bars[n - 1]);
    }
    forall i | 0 <= i < n ensures Final(q).equity[i] >= Final(r).equity[i] {
      assert Final(q).equity[i] == Final(q).equity[..n][i] == Replay(q, n).equity[i];
      assert Final(r).equity[i] == Final(r).equity[..n][i] == Replay(r, n).equity[i];
    }
    LastEquity(q);
    LastEquity(r);
  }

  lemma LastEquity(q: Request)
    requires ValidRequest(q)
    ensures |Final(q).equity| == |q.bars| + 1 == |Replay(q, |q.bars|).equity|
    ensures !Holding(q, |q.bars|) ==> Final(q) == Replay(q, |q.bars|)
    ensures Final(q).equity[|q.bars|] == Final(q).cash
  {
    FinalShape(q);
  }

  // ----- rescaling money and prices

  ghost function ScaledBar(b: Bar, mu: real): Bar { b.(close := Scale(mu, b.close)) }

  /** The same market quoted in another price unit (mu), traded with another amount of money (kappa). */
  ghost function Rescaled(q: Request, kappa: real, mu: real): Request {
    q.(initialCapital := Scale(kappa, q.initialCapital),
       bars := seq(|q.bars|, i requires 0 <= i < |q.bars| => ScaledBar(q.bars[i], mu)))
  }

  lemma RescaledValid(q: Request, kappa: real, mu: real)
    requires ValidRequest(q) && kappa > 0.0 && mu > 0.0
    ensures ValidRequest(Rescaled(q, kappa, mu))
  {
    var r := Rescaled(q, kappa, mu);
    MulPos(kappa, q.initialCapital);
    forall i | 0 <= i < |r.bars| ensures ValidBar(r.bars[i]) && r.bars[i].date == q.bars[i].date {
      MulPos(mu, q.bars[i].close);
    }
  }

  // Signals: four comparisons of quantities that all scale with the prices.

  lemma MeanScaled(s: seq<real>, mu: real)
    requires s != [] && mu != 0.0
    ensures Mean(Scaled(s, mu)) == Scale(mu, Mean(s))
  {
    SumScaled(s, mu);
    ScaleDiv(mu, Sum(s), |s| as real);
  }

  lemma WindowScaled(closes: seq<real>, mu: real, lo: nat, hi: nat)
    requires lo < hi <= |closes| && mu > 0.0
    ensures |Scaled(closes, mu)| == |closes|
    ensures Mean(Scaled(closes, mu)[lo..hi]) == Scale(mu, Mean(closes[lo..hi]))
    ensures Max(Scaled(closes, mu)[lo..hi]) == Scale(mu, Max(closes[lo..hi]))
  {
    hide Scale; hide Mean; hide Max;
    ScaledSlice(closes, mu, lo, hi);
    MeanScaled(closes[lo..hi], mu);
    MaxScaled(closes[lo..hi], mu);
  }

  lemma SuffixMeanScaled(closes: seq<real>, mu: real, window: nat)
    requires 0 < window <= |closes| && mu > 0.0
    ensures |Scaled(closes, mu)| == |closes|
    ensures Mean(Scaled(closes, mu)[|closes| - window..]) == Scale(mu, Mean(closes[|closes| - window..]))
  {
    var n, t := |closes|, Scaled(closes, mu);
    hide Mean; hide Max; hide Scaled; hide Scale;
    WindowScaled(closes, mu, n - window, n);
    assert t[n - window..n] == t[n - window..] && closes[n - window..n] == closes[n - window..];
  }

  lemma DecisionScaled(strategy: Strategy, last: real, early: real, fastMean: real, slowMean: real, high: real,
                       last': real, early': real, fastMean': real, slowMean': real, high': real, mu: real)
    requires mu > 0.0 && last' == Scale(mu, last) && early' == Scale(mu, early) && high' == Scale(mu, high)
    requires fastMean' == Scale(mu, fastMean) && slowMean' == Scale(mu, slowMean)
    ensures Decides(strategy, last', early', fastMean', slowMean', high')
      == Decides(strategy, last, early, fastMean, slowMean, high)
  {
    assert Scale(mu, slowMean * 0.97) == Scale(mu, slowMean) * 0.97;
    hide Scale;
    ScaleOrder(mu, slowMean, fastMean);
    ScaleOrder(mu, early, last);
    ScaleOrder(mu, last, high);
    ScaleOrder(mu, last, slowMean * 0.97);
  }

  lemma SignalIs(strategy: Strategy, closes: seq<real>, fast: nat, slow: nat)
    requires 2 <= fast < slow <= |closes|
    ensures var n := |closes|;
      Signal(strategy, closes, fast, slow)
        == Decides(strategy, closes[n - 1], closes[n - fast], Mean(closes[n - fast..]), Mean(closes[n - slow..]),
                   Max(closes[n - slow..n - 1]))
  {
    hide Decides; hide Mean; hide Max;
  }

  lemma WindowsScaled(closes: seq<real>, mu: real, fast: nat, slow: nat)
    requires 2 <= fast < slow <= |closes| && mu > 0.0
    ensures var n, t := |closes|, Scaled(closes, mu);
      && |t| == n && t[n - 1] == Scale(mu, closes[n - 1]) && t[n - fast] == Scale(mu, closes[n - fast])
      && Mean(t[n - fast..]) == Scale(mu, Mean(closes[n - fast..]))
      && Mean(t[n - slow..]) == Scale(mu, Mean(closes[n - slow..]))
      && Max(t[n - slow..n - 1]) == Scale(mu, Max(closes[n - slow..n - 1]))
  {
    hide Mean; hide Max; hide Scale;
    SuffixMeanScaled(closes, mu, fast);
    SuffixMeanScaled(closes, mu, slow);
    WindowScaled(closes, mu, |closes| - slow, |closes| - 1);
  }

  /** All four signals depend on price ratios only. */
  lemma SignalScaled(strategy: Strategy, closes: seq<real>, mu: real, fast: nat, slow: nat)
    requires 2 <= fast < slow && mu > 0.0
    ensures Signal(strategy, Scaled(closes, mu), fast, slow) == Signal(strategy, closes, fast, slow)
  {
    if |closes| >= slow { LongSignalScaled(strategy, closes, mu, fast, slow); }
  }

  lemma LongSignalScaled(strategy: Strategy, closes: seq<real>, mu: real, fast: nat, slow: nat)
    requires 2 <= fast < slow <= |closes| && mu > 0.0
    ensures Signal(strategy, Scaled(closes, mu), fast, slow) == Signal(strategy, closes, fast, slow)
  {
    var n, t := |closes|, Scaled(closes, mu);
    hide Signal; hide Mean; hide Max; hide Scaled; hide Scale; hide Decides;
    WindowsScaled(closes, mu, fast, slow);
    SignalIs(strategy, closes, fast, slow);
    SignalIs(strategy, t, fast, slow);
    DecisionScaled(strategy, closes[n - 1], closes[n - fast], Mean(closes[n - fast..]), Mean(closes[n - slow..]),
                   Max(closes[n - slow..n - 1]), t[n - 1], t[n - fast], Mean(t[n - fast..]), Mean(t[n - slow..]),
                   Max(t[n - slow..n - 1]), mu);
  }

  ghost predicate PositionRescaled(p: Position, p': Position, kappa: real, mu: real) {
    && Scale(mu, p'.quantity) == Scale(kappa, p.quantity)
    && p'.entryPrice == Scale(mu, p.entryPrice)
    && p'.entryCost == Scale(kappa, p.entryCost)
  }

  ghost predicate AccountRescaled(a: Account, a': Account, kappa: real, mu: real) {
    && a'.cash == Scale(kappa, a.cash)
    && a'.totalCosts == Scale(kappa, a.totalCosts)
    && a'.equity == Scaled(a.equity, kappa)
    && a'.closes == Scaled(a.closes, mu)
    && a'.trades == a.trades
    && a'.invested == a.invested
    && match (a.position, a'.position)
       case (None, None) => true
       case (Some(p), Some(p')) => PositionRescaled(p, p', kappa, mu)
       case _ => false
  }

  lemma PricesScaled(q: Request, r: Request, b: Bar, mu: real)
    requires r.fee == q.fee && r.slippage == q.slippage
    ensures BuyPrice(r, ScaledBar(b, mu)) == Scale(mu, BuyPrice(q, b))
    ensures SellPrice(r, ScaledBar(b, mu)) == Scale(mu, SellPrice(q, b))
  {
    MulAssoc(mu, b.close, 1.0 + q.slippage + b.spread / 2.0);
    MulAssoc(mu, b.close, 1.0 - q.slippage - b.spread / 2.0);
  }

  /** Units per price times price is money: a quantity and a price scale to a money amount. */
  lemma ValueScaled(x: real, x': real, v: real, kappa: real, mu: real)
    requires Scale(mu, x') == Scale(kappa, x)
    ensures x' * Scale(mu, v) == Scale(kappa, x * v)
  {
    assert x' * (mu * v) == (mu * x') * v;
    MulAssoc(kappa, x, v);
  }

  lemma PurchaseScaledMath(cash: real, fee: real, price: real, kappa: real, mu: real)
    requires price != 0.0 && mu != 0.0
    ensures Scale(mu, price) != 0.0
    ensures Scale(kappa, cash) * fee == Scale(kappa, cash * fee)
    ensures Scale(mu, (Scale(kappa, cash) - Scale(kappa, cash) * fee) / Scale(mu, price))
      == Scale(kappa, (cash - cash * fee) / price)
  {
    var net := cash - cash * fee;
    FeeScaled(cash, fee, kappa);
    hide Scale;
    ScaleAdd(kappa, net, cash * fee);
    ScaleCancel(Scale(kappa, net), price, mu);
    ScaleDivisor(kappa, net, price);
  }

  lemma ScaleCancel(x: real, price: real, mu: real)
    requires price != 0.0 && mu != 0.0
    ensures Scale(mu, price) != 0.0
    ensures Scale(mu, x / Scale(mu, price)) == x / price
  {
    if mu * price == 0.0 { MulCancel(mu, 0.0, price); }
    var y := x / (mu * price);
    DivMul(x, mu * price);
    assert (mu * y) * price == y * (mu * price);
    DivUnique(x, price, mu * y);
  }

  lemma ScaleDivisor(kappa: real, x: real, price: real)
    requires price != 0.0
    ensures Scale(kappa, x) / price == Scale(kappa, x / price)
  {
    DivMul(x, price);
    MulAssoc(kappa, x / price, price);
    DivUnique(kappa * x, price, kappa * (x / price));
  }

  lemma FeeScaled(gross: real, fee: real, kappa: real)
    ensures Scale(kappa, gross) * fee == Scale(kappa, gross * fee)
  {
    MulAssoc(kappa, gross, fee);
  }

  lemma PurchaseScaled(q: Request, r: Request, cash: real, b: Bar, kappa: real, mu: real)
    requires r.fee == q.fee && r.slippage == q.slippage && mu != 0.0 && BuyPrice(q, b) != 0.0
    ensures BuyPrice(r, ScaledBar(b, mu)) != 0.0
    ensures var p, p' := Bought(q, cash, b), Bought(r, Scale(kappa, cash), ScaledBar(b, mu));
      && PositionRescaled(p, p', kappa, mu)
      && BuyCosts(r, p', ScaledBar(b, mu)) == Scale(kappa, BuyCosts(q, p, b))
  {
    var price := BuyPrice(q, b);
    PricesScaled(q, r, b, mu);
    hide BuyPrice; hide Scale;
    PurchaseScaledMath(cash, q.fee, price, kappa, mu);
    var p, p' := Bought(q, cash, b), Bought(r, Scale(kappa, cash), ScaledBar(b, mu));
    assert PositionRescaled(p, p', kappa, mu);
    var gap := price - b.close;
    ScaleAdd(mu, gap, b.close);
    assert p'.entryPrice - ScaledBar(b, mu).close == Scale(mu, gap);
    ValueScaled(p.quantity, p'.quantity, gap, kappa, mu);
    ScaleAdd(kappa, p.entryCost, p.quantity * gap);
  }

  lemma MoneyScaled(q: Request, r: Request, p: Position, p': Position, b: Bar, kappa: real, mu: real)
    requires r.fee == q.fee && r.slippage == q.slippage && PositionRescaled(p, p', kappa, mu)
    ensures MarketValue(p', ScaledBar(b, mu)) == Scale(kappa, MarketValue(p, b))
    ensures Basis(p') == Scale(kappa, Basis(p))
    ensures Gross(r, p', ScaledBar(b, mu)) == Scale(kappa, Gross(q, p, b))
  {
    PricesScaled(q, r, b, mu);
    hide SellPrice; hide Scale;
    ValueScaled(p.quantity, p'.quantity, b.close, kappa, mu);
    ValueScaled(p.quantity, p'.quantity, p.entryPrice, kappa, mu);
    ValueScaled(p.quantity, p'.quantity, SellPrice(q, b), kappa, mu);
    ScaleAdd(kappa, p.quantity * p.entryPrice, p.entryCost);
  }

  lemma SaleScaled(q: Request, r: Request, p: Position, p': Position, b: Bar, kappa: real, mu: real)
    requires r.fee == q.fee && r.slippage == q.slippage && PositionRescaled(p, p', kappa, mu)
    ensures Proceeds(r, p', ScaledBar(b, mu)) == Scale(kappa, Proceeds(q, p, b))
    ensures SellCosts(r, p', ScaledBar(b, mu)) == Scale(kappa, SellCosts(q, p, b))
  {
    MoneyScaled(q, r, p, p', b, kappa, mu);
    PricesScaled(q, r, b, mu);
    var gross, gap := Gross(q, p, b), b.close - SellPrice(q, b);
    MulAssoc(kappa, gross, q.fee);
    hide SellPrice; hide Gross; hide Scale;
    ScaleAdd(kappa, gross - gross * q.fee, gross * q.fee);
    ScaleAdd(mu, gap, SellPrice(q, b));
    ValueScaled(p.quantity, p'.quantity, gap, kappa, mu);
    ScaleAdd(kappa, gross * q.fee, p.quantity * gap);
    FeeScaled(gross, q.fee, kappa);
  }

  lemma SellRescaled(q: Request, r: Request, a: Account, a': Account, b: Bar, kappa: real, mu: real)
    requires ValidBar(b) && ValidCosts(q) && r.fee == q.fee && r.slippage == q.slippage && kappa > 0.0
    requires AccountRescaled(a, a', kappa, mu) && a.position.Some? && SoundPosition(a.position.value)
    ensures Basis(a.position.value) != 0.0 && Basis(a'.position.value) != 0.0
    ensures AccountRescaled(Sell(q, a, b), Sell(r, a', ScaledBar(b, mu)), kappa, mu)
  {
    var p, p' := a.position.value, a'.position.value;
    SaleFacts(q, p, b);
    ScaleDiv(kappa, Proceeds(q, p, b), Basis(p));
    hide ScaledBar; hide PositionRescaled; hide Scaled; hide Scale;
    hide Basis; hide Proceeds; hide SellCosts;
    SaleScaled(q, r, p, p', b, kappa, mu);
    MoneyScaled(q, r, p, p', b, kappa, mu);
    ScaleAdd(kappa, a.totalCosts, SellCosts(q, p, b));
  }

  lemma TradedScaled(q: Request, a: Account, a': Account, b: Bar, kappa: real, mu: real)
    requires ValidBar(b) && ValidBar(ScaledBar(b, mu)) && ValidWindows(q) && ValidCosts(q)
    requires kappa > 0.0 && mu > 0.0
    requires Sound(a) && Sound(a') && AccountRescaled(a, a', kappa, mu)
    ensures AccountRescaled(Traded(q, a, b), Traded(Rescaled(q, kappa, mu), a', ScaledBar(b, mu)), kappa, mu)
  {
    var r, b' := Rescaled(q, kappa, mu), ScaledBar(b, mu);
    assert Liquid(r, b') == Liquid(q, b);
    assert r.fee == q.fee && r.slippage == q.slippage && r.strategy == q.strategy;
    assert r.fast == q.fast && r.slow == q.slow;
    assert Scale(kappa, 0.0) == 0.0;
    hide Signal; hide Liquid; hide Rescaled; hide ScaledBar; hide PositionRescaled; hide Scaled; hide Scale;
    hide Basis; hide Bought; hide BuyPrice; hide BuyCosts; hide Sell;
    SignalScaled(q.strategy, a.closes, mu, q.fast, q.slow);
    if a.position.None? {
      PurchaseFacts(q, a.cash, b);
      PurchaseScaled(q, r, a.cash, b, kappa, mu);
      ScaleAdd(kappa, a.totalCosts, BuyCosts(q, Bought(q, a.cash, b), b));
    } else {
      SellRescaled(q, r, a, a', b, kappa, mu);
    }
  }

  lemma MarkedScaled(a: Account, a': Account, b: Bar, q: Request, kappa: real, mu: real)
    requires AccountRescaled(a, a', kappa, mu)
    ensures AccountRescaled(Marked(a, b), Marked(a', ScaledBar(b, mu)), kappa, mu)
  {
    var b' := ScaledBar(b, mu);
    assert b'.close == Scale(mu, b.close);
    hide Scaled; hide Scale; hide PositionRescaled; hide ScaledBar; hide MarketValue;
    if a.position.Some? { MoneyScaled(q, q, a.position.value, a'.position.value, b, kappa, mu); }
    assert Worth(a', b') == Scale(kappa, Worth(a, b));
    hide Worth;
    ScaledAppend(a.equity, Worth(a, b), kappa);
    ScaledAppend(a.closes, b.close, mu);
  }

  lemma OpenScaled(q: Request, kappa: real, mu: real)
    ensures AccountRescaled(Open(q), Open(Rescaled(q, kappa, mu)), kappa, mu)
  {
    assert Scale(kappa, 0.0) == 0.0;
    hide Scale;
    ScaledAppend([], q.initialCapital, kappa);
    assert [] + [q.initialCapital] == [q.initialCapital];
    assert Scaled([], kappa) == [] && Scaled([], mu) == [];
  }

  lemma {:induction false} ReplayScaled(q: Request, k: nat, kappa: real, mu: real)
    requires ValidRequest(q) && kappa > 0.0 && mu > 0.0 && k <= |q.bars|
    ensures ValidRequest(Rescaled(q, kappa, mu))
    ensures AccountRescaled(Replay(q, k), Replay(Rescaled(q, kappa, mu), k), kappa, mu)
  {
    RescaledValid(q, kappa, mu);
    RescaledLength(q, kappa, mu);
    hide Replay; hide AccountRescaled; hide Rescaled; hide ValidRequest;
    if k == 0 {
      StartScaled(q, kappa, mu);
    } else {
      ReplayScaled(q, k - 1, kappa, mu);
      ScaledStep(q, k - 1, kappa, mu);
    }
  }

  lemma RescaledLength(q: Request, kappa: real, mu: real)
    ensures |Rescaled(q, kappa, mu).bars| == |q.bars|
  {}

  lemma StartScaled(q: Request, kappa: real, mu: real)
    requires ValidRequest(q) && ValidRequest(Rescaled(q, kappa, mu))
    ensures AccountRescaled(Replay(q, 0), Replay(Rescaled(q, kappa, mu), 0), kappa, mu)
  {
    OpenScaled(q, kappa, mu);
    hide Open; hide AccountRescaled; hide Rescaled;
  }

  lemma ScaledStep(q: Request, k: nat, kappa: real, mu: real)
    requires ValidRequest(q) && ValidRequest(Rescaled(q, kappa, mu)) && kappa > 0.0 && mu > 0.0 && k < |q.bars|
    requires |Rescaled(q, kappa, mu).bars| == |q.bars|
    requires AccountRescaled(Replay(q, k), Replay(Rescaled(q, kappa, mu), k), kappa, mu)
    ensures AccountRescaled(Replay(q, k + 1), Replay(Rescaled(q, kappa, mu), k + 1), kappa, mu)
  {
    var r, b, b' := Rescaled(q, kappa, mu), q.bars[k], ScaledBar(q.bars[k], mu);
    assert r.bars[k] == b';
    hide Replay; hide Traded; hide Marked; hide AccountRescaled; hide Rescaled; hide ScaledBar;
    ReplayStep(q, k);
    ReplayStep(r, k);
    TradedScaled(q, Replay(q, k), Replay(r, k), b, kappa, mu);
    MarkedScaled(Traded(q, Replay(q, k), b), Traded(r, Replay(r, k), b'), b, q, kappa, mu);
  }

  lemma LiquidatedScaled(q: Request, r: Request, a: Account, a': Account, b: Bar, kappa: real, mu: real)
    requires ValidBar(b) && ValidCosts(q) && r.fee == q.fee && r.slippage == q.slippage && kappa > 0.0
    requires AccountRescaled(a, a', kappa, mu)
    requires a.position.Some? && SoundPosition(a.position.value) && a.equity != []
    ensures Basis(a.position.value) != 0.0 && Basis(a'.position.value) != 0.0 && a'.equity != []
    ensures AccountRescaled(Liquidated(q, a, b), Liquidated(r, a', ScaledBar(b, mu)), kappa, mu)
  {
    var n := |a.equity| - 1;
    assert |a'.equity| == |a.equity|;
    hide Scaled; hide Scale; hide ScaledBar; hide PositionRescaled; hide Basis; hide Sell;
    SellRescaled(q, r, a, a', b, kappa, mu);
    ScaledAppend(a.equity[..n], Sell(q, a, b).cash, kappa);
    ScaledSlice(a.equity, kappa, 0, n);
    assert a.equity[0..n] == a.equity[..n] && a'.equity[0..n] == a'.equity[..n];
  }

  lemma FinalScaled(q: Request, kappa: real, mu: real)
    requires ValidRequest(q) && kappa > 0.0 && mu > 0.0
    ensures ValidRequest(Rescaled(q, kappa, mu))
    ensures AccountRescaled(Final(q), Final(Rescaled(q, kappa, mu)), kappa, mu)
  {
    var n, r := |q.bars|, Rescaled(q, kappa, mu);
    var b := q.bars[n - 1];
    RescaledFacts(q, kappa, mu);
    ReplayScaled(q, n, kappa, mu);
    FinalCases(q);
    FinalCases(r);
    SamePositions(Replay(q, n), Replay(r, n), kappa, mu);
    hide Replay; hide Rescaled; hide Liquidated; hide Final; hide AccountRescaled; hide ValidRequest; hide ScaledBar;
    hide Basis;
    if Replay(q, n).position.Some? { LiquidatedScaled(q, r, Replay(q, n), Replay(r, n), b, kappa, mu); }
  }

  lemma RescaledFacts(q: Request, kappa: real, mu: real)
    requires ValidRequest(q)
    ensures var n, r := |q.bars|, Rescaled(q, kappa, mu);
      |r.bars| == n > 0 && r.bars[n - 1] == ScaledBar(q.bars[n - 1], mu) && r.fee == q.fee && r.slippage == q.slippage
  {}

  lemma SamePositions(a: Account, a': Account, kappa: real, mu: real)
    requires AccountRescaled(a, a', kappa, mu)
    ensures a.position.Some? <==> a'.position.Some?
  {}

  /** The account at the end, and what a forced sale finds. */
  lemma FinalCases(q: Request)
    requires ValidRequest(q)
    ensures var n := |q.bars|;
      var a := Replay(q, n);
      && n > 0 && |a.equity| == n + 1
      && (a.position.Some? ==> Basis(a.position.value) != 0.0)
      && Final(q) == if a.position.Some? then Liquidated(q, a, q.bars[n - 1]) else a
  {
    hide Replay; hide Liquidated; hide Basis;
    ReplayShape(q, |q.bars|);
    if Replay(q, |q.bars|).position.Some? { SoldFacts(q); }
  }

  lemma SoldFacts(q: Request)
    requires ValidRequest(q) && Replay(q, |q.bars|).position.Some?
    ensures Basis(Replay(q, |q.bars|).position.value) != 0.0
  {
    hide Replay;
    SaleFacts(q, Replay(q, |q.bars|).position.value, q.bars[|q.bars| - 1]);
  }

  /** More money at the same prices scales equity and costs and leaves every trade return alone. */
  lemma CapitalScaleInvariance(q: Request, kappa: real)
    requires ValidRequest(q) && kappa > 0.0
    ensures var r := q.(initialCapital := Scale(kappa, q.initialCapital));
      && ValidRequest(r)
      && Final(r).equity == Scaled(Final(q).equity, kappa)
      && Final(r).totalCosts == Scale(kappa, Final(q).totalCosts)
      && Final(r).trades == Final(q).trades
      && Final(r).invested == Final(q).invested
  {
    hide Final;
    FinalScaled(q, kappa, 1.0);
    assert Rescaled(q, kappa, 1.0).bars == q.bars;
    hide Scaled; hide Scale;
  }

  /** Quoting all closes in another unit changes no signal, no equity, no cost and no trade return. */
  lemma PriceScaleInvariance(q: Request, mu: real)
    requires ValidRequest(q) && mu > 0.0
    ensures var r := q.(bars := seq(|q.bars|, i requires 0 <= i < |q.bars| => ScaledBar(q.bars[i], mu)));
      && ValidRequest(r)
      && Final(r).equity == Final(q).equity
      && Final(r).totalCosts == Final(q).totalCosts
      && Final(r).trades == Final(q).trades
      && Final(r).invested == Final(q).invested
  {
    hide Final; hide ScaledBar;
    FinalScaled(q, 1.0, mu);
    var r := q.(bars := seq(|q.bars|, i requires 0 <= i < |q.bars| => ScaledBar(q.bars[i], mu)));
    assert Rescaled(q, 1.0, mu).bars == r.bars;
    assert Rescaled(q, 1.0, mu) == r;
    assert Scaled(Final(q).equity, 1.0) == Final(q).equity;
  }
}
