/** The long-only research backtest: requests, signals and the account state machine. */
module Backtest {
  import opened Common
  import opened RealSeqs
  import opened Arith

  datatype Bar = Bar(date: int, close: real, volume: real, tradeValue: real, spread: real, tradable: bool)

  datatype Strategy = MovingAverage | Momentum | MeanReversion | Breakout

  datatype Request = Request(
    strategy: Strategy, bars: seq<Bar>, initialCapital: real, fee: real, slippage: real,
    fast: nat, slow: nat, minVolume: real, minTradeValue: real, maxSpread: real)

  datatype Position = Position(entryPrice: real, quantity: real, entryCost: real)

  datatype Account = Account(
    cash: real, position: Option<Position>, totalCosts: real,
    equity: seq<real>, trades: seq<real>, invested: nat, closes: seq<real>)

  ghost predicate ValidBar(b: Bar) {
    b.close > 0.0 && b.volume >= 0.0 && b.tradeValue >= 0.0 && 0.0 <= b.spread <= 1.0
  }

  ghost predicate ValidCosts(q: Request) { 0.0 <= q.fee <= 0.1 && 0.0 <= q.slippage <= 0.1 }

  ghost predicate ValidWindows(q: Request) { 2 <= q.fast < q.slow }

  ghost predicate ValidBars(bars: seq<Bar>) { forall i :: 0 <= i < |bars| ==> ValidBar(bars[i]) }

  ghost predicate UniqueAscendingDates(bars: seq<Bar>) {
    forall i, j :: 0 <= i < j < |bars| ==> bars[i].date < bars[j].date
  }

  /** The field bounds and the window, length and date checks of the request model. */
  ghost predicate ValidRequest(q: Request) {
    && ValidBars(q.bars)
    && q.initialCapital > 0.0
    && ValidCosts(q)
    && q.fast <= 100 && q.slow <= 300
    && ValidWindows(q)
    && q.minVolume >= 0.0 && q.minTradeValue >= 0.0 && 0.0 <= q.maxSpread <= 1.0
    && |q.bars| > q.slow + 2
    && UniqueAscendingDates(q.bars)
  }

  /** The decision on the last close, the one that opens the fast window, the two means and the earlier high. */
  predicate Decides(strategy: Strategy, last: real, early: real, fastMean: real, slowMean: real, high: real) {
    match strategy
    case MovingAverage => fastMean > slowMean
    case Momentum => last > early
    case MeanReversion => last < slowMean * 0.97
    case Breakout => last >= high
  }

  function Signal(strategy: Strategy, closes: seq<real>, fast: nat, slow: nat): bool
    requires 2 <= fast < slow
  {
    var n := |closes|;
    if n < slow then false
    else
      Decides(strategy, closes[n - 1], closes[n - fast], Mean(closes[n - fast..]), Mean(closes[n - slow..]),
              Max(closes[n - slow..n - 1]))
  }

  predicate Liquid(q: Request, b: Bar) {
    && b.tradable
    && b.volume >= q.minVolume
    && b.tradeValue >= q.minTradeValue
    && b.spread <= q.maxSpread
  }

  function BuyPrice(q: Request, b: Bar): real { b.close * (1.0 + q.slippage + b.spread / 2.0) }

  function SellPrice(q: Request, b: Bar): real { b.close * (1.0 - q.slippage - b.spread / 2.0) }

  lemma PricesPositive(q: Request, b: Bar)
    requires ValidBar(b) && ValidCosts(q)
    ensures BuyPrice(q, b) >= b.close
    ensures b.close >= SellPrice(q, b) >= 0.4 * b.close > 0.0
  {
    var up, down := q.slippage + b.spread / 2.0, 1.0 - q.slippage - b.spread / 2.0;
    MulNonneg(b.close, up);
    MulNonneg(b.close, 1.0 - down);
    MulNonneg(b.close, down - 0.4);
  }

  // ----- the amounts of one purchase and one sale

  /** The position bought with all the cash: the entry fee comes off first. */
  function Bought(q: Request, cash: real, b: Bar): Position
    requires BuyPrice(q, b) != 0.0
  {
    var entryCost := cash * q.fee;
    Position(BuyPrice(q, b), (cash - entryCost) / BuyPrice(q, b), entryCost)
  }

  function BuyCosts(q: Request, p: Position, b: Bar): real {
    p.entryCost + p.quantity * (p.entryPrice - b.close)
  }

  /** What a position cost the account: the invested amount and the entry fee. */
  function Basis(p: Position): real { p.quantity * p.entryPrice + p.entryCost }

  function MarketValue(p: Position, b: Bar): real { p.quantity * b.close }

  function Gross(q: Request, p: Position, b: Bar): real { p.quantity * SellPrice(q, b) }

  function Proceeds(q: Request, p: Position, b: Bar): real { Gross(q, p, b) - Gross(q, p, b) * q.fee }

  function SellCosts(q: Request, p: Position, b: Bar): real {
    Gross(q, p, b) * q.fee + p.quantity * (b.close - SellPrice(q, b))
  }

  function TradeReturn(proceeds: real, basis: real): real
    requires basis != 0.0
  {
    proceeds / basis - 1.0
  }

  ghost predicate SoundPosition(p: Position) {
    p.quantity > 0.0 && p.entryPrice > 0.0 && p.entryCost >= 0.0
  }

  lemma PurchaseFacts(q: Request, cash: real, b: Bar)
    requires cash > 0.0 && ValidBar(b) && ValidCosts(q)
    ensures BuyPrice(q, b) > 0.0
    ensures var p := Bought(q, cash, b);
      && SoundPosition(p)
      && p.entryPrice == BuyPrice(q, b)
      && Basis(p) == cash
      && p.quantity * BuyPrice(q, b) == cash * (1.0 - q.fee)
      && MarketValue(p, b) + BuyCosts(q, p, b) == cash
  {
    PricesPositive(q, b);
    var p := Bought(q, cash, b);
    hide BuyPrice;
    MulNonneg(cash, q.fee);
    LessFraction(cash, q.fee);
    DivPos(cash - cash * q.fee, p.entryPrice);
    DivMul(cash - cash * q.fee, p.entryPrice);
    MulMinus(p.quantity, p.entryPrice, b.close);
  }

  lemma SaleFacts(q: Request, p: Position, b: Bar)
    requires SoundPosition(p) && ValidBar(b) && ValidCosts(q)
    ensures Basis(p) > 0.0 && MarketValue(p, b) > 0.0 && Proceeds(q, p, b) > 0.0
    ensures Proceeds(q, p, b) == p.quantity * SellPrice(q, b) * (1.0 - q.fee)
    ensures Proceeds(q, p, b) + SellCosts(q, p, b) == MarketValue(p, b)
  {
    PricesPositive(q, b);
    hide SellPrice;
    MulPos(p.quantity, p.entryPrice);
    MulPos(p.quantity, b.close);
    MulPos(p.quantity, SellPrice(q, b));
    LessFraction(Gross(q, p, b), q.fee);
    MulMinus(p.quantity, b.close, SellPrice(q, b));
  }

  // ----- the account

  /** Every account a run reaches: something to trade with, and never a worthless position. */
  ghost predicate Sound(a: Account) {
    match a.position
    case None => a.cash > 0.0
    case Some(p) => SoundPosition(p)
  }

  function Open(q: Request): Account {
    Account(q.initialCapital, None, 0.0, [q.initialCapital], [], 0, [])
  }

  function Buy(q: Request, a: Account, b: Bar): (r: Account)
    requires BuyPrice(q, b) != 0.0
  {
    var p := Bought(q, a.cash, b);
    a.(cash := 0.0, position := Some(p), totalCosts := a.totalCosts + BuyCosts(q, p, b))
  }

  function Sell(q: Request, a: Account, b: Bar): Account
    requires a.position.Some? && Basis(a.position.value) != 0.0
  {
    var p := a.position.value;
    var cash := Proceeds(q, p, b);
    a.(cash := cash,
       position := None,
       totalCosts := a.totalCosts + SellCosts(q, p, b),
       trades := a.trades + [TradeReturn(cash, Basis(p))])
  }

  /** The trade the rules make on a bar, from what was known before the bar. */
  function Traded(q: Request, a: Account, b: Bar): (r: Account)
    requires ValidBar(b) && ValidWindows(q) && ValidCosts(q) && Sound(a)
    ensures Sound(r)
  {
    var desired := Signal(q.strategy, a.closes, q.fast, q.slow);
    if Liquid(q, b) && desired && a.position.None? then
      PurchaseFacts(q, a.cash, b);
      Buy(q, a, b)
    else if Liquid(q, b) && !desired && a.position.Some? then
      SaleFacts(q, a.position.value, b);
      Sell(q, a, b)
    else a
  }

  function Worth(a: Account, b: Bar): real {
    match a.position
    case None => a.cash
    case Some(p) => MarketValue(p, b)
  }

  function Marked(a: Account, b: Bar): Account {
    a.(equity := a.equity + [Worth(a, b)],
       invested := a.invested + (if a.position.Some? then 1 else 0),
       closes := a.closes + [b.close])
  }

  /** The account after the first k bars. */
  function Replay(q: Request, k: nat): (a: Account)
    requires ValidRequest(q) && k <= |q.bars|
    ensures Sound(a)
  {
    if k == 0 then Open(q)
    else Marked(Traded(q, Replay(q, k - 1), q.bars[k - 1]), q.bars[k - 1])
  }

  /** The forced sale at the end: it replaces the last mark of the equity curve. */
  function Liquidated(q: Request, a: Account, b: Bar): Account
    requires a.position.Some? && Basis(a.position.value) != 0.0 && a.equity != []
  {
    var sold := Sell(q, a, b);
    sold.(equity := a.equity[..|a.equity| - 1] + [sold.cash])
  }

  /** The account at the end: an open position is sold on the last bar. */
  function Final(q: Request): (a: Account)
    requires ValidRequest(q)
    ensures Sound(a)
  {
    var a := Replay(q, |q.bars|);
    var last := q.bars[|q.bars| - 1];
    if a.position.None? then a
    else
      SaleFacts(q, a.position.value, last);
      ReplayShape(q, |q.bars|);
      Liquidated(q, a, last)
  }

  lemma TradedShape(q: Request, a: Account, b: Bar)
    requires ValidBar(b) && ValidWindows(q) && ValidCosts(q) && Sound(a)
    ensures var t := Traded(q, a, b); t.equity == a.equity && t.closes == a.closes && Worth(t, b) > 0.0
  {
    var t := Traded(q, a, b);
    if t.position.Some? { SaleFacts(q, t.position.value, b); }
  }

  lemma MarkedShape(a: Account, b: Bar)
    ensures Worth(Marked(a, b), b) == Worth(a, b)
    ensures Marked(a, b).equity == a.equity + [Worth(a, b)]
    ensures Marked(a, b).closes == a.closes + [b.close]
  {}

  lemma ReplayStep(q: Request, k: nat)
    requires ValidRequest(q) && k < |q.bars|
    ensures Replay(q, k + 1) == Marked(Traded(q, Replay(q, k), q.bars[k]), q.bars[k])
  {}

  /** What an account that has seen k bars looks like. */
  ghost predicate Shaped(q: Request, a: Account, k: nat)
    requires k <= |q.bars|
  {
    && |a.equity| == k + 1 && |a.closes| == k
    && (forall i :: 0 <= i < k ==> a.closes[i] == q.bars[i].close)
    && a.equity[0] == q.initialCapital
    && (forall i :: 0 <= i <= k ==> a.equity[i] > 0.0)
    && a.equity[k] == if k == 0 then q.initialCapital else Worth(a, q.bars[k - 1])
  }

  lemma ShapedStep(q: Request, a: Account, t: Account, k: nat)
    requires k < |q.bars| && Shaped(q, a, k) && t.equity == a.equity && t.closes == a.closes
    requires Worth(t, q.bars[k]) > 0.0
    ensures Shaped(q, Marked(t, q.bars[k]), k + 1)
  {
    MarkedShape(t, q.bars[k]);
    hide Marked; hide Worth;
  }

  lemma NothingSeenYet(q: Request)
    requires ValidRequest(q)
    ensures Shaped(q, Replay(q, 0), 0)
  {}

  lemma {:induction false} ReplayShaped(q: Request, k: nat)
    requires ValidRequest(q) && k <= |q.bars|
    ensures Shaped(q, Replay(q, k), k)
  {
    hide Replay; hide Traded; hide Shaped; hide Marked; hide Worth;
    if k == 0 {
      NothingSeenYet(q);
    } else {
      var a, b := Replay(q, k - 1), q.bars[k - 1];
      ReplayShaped(q, k - 1);
      ReplayStep(q, k - 1);
      TradedShape(q, a, b);
      ShapedStep(q, a, Traded(q, a, b), k - 1);
    }
  }

  lemma ReplayShape(q: Request, k: nat)
    requires ValidRequest(q) && k <= |q.bars|
    ensures |Replay(q, k).equity| == k + 1
    ensures |Replay(q, k).closes| == k
    ensures forall i :: 0 <= i < k ==> Replay(q, k).closes[i] == q.bars[i].close
    ensures Replay(q, k).equity[0] == q.initialCapital
    ensures forall i :: 0 <= i <= k ==> Replay(q, k).equity[i] > 0.0
    ensures Replay(q, k).equity[k] == if k == 0 then q.initialCapital else Worth(Replay(q, k), q.bars[k - 1])
  {
    ReplayShaped(q, k);
    hide Replay; hide Worth;
  }
}
