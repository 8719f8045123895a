/**
 The books of a backtest: which bars it trades on, what each round trip returns,
 where every unit of money went, and how the returns telescope to the final equity.
 */
module BacktestLedger {
  import opened Common
  import opened RealSeqs
  import opened Arith
  import opened Backtest

  /** A round trip: the quantity held from the close of bar entry to the close of bar exit. */
  datatype Trip = Trip(quantity: real, entry: nat, exit: nat)

  /** The signal the run sees on bar j: it knows only the closes of the bars before j. */
  ghost predicate WantsLong(q: Request, j: nat)
    requires ValidRequest(q) && j < |q.bars|
  {
    Signal(q.strategy, ClosesBefore(q, j), q.fast, q.slow)
  }

  ghost function ClosesBefore(q: Request, j: nat): (s: seq<real>)
    requires j <= |q.bars|
  {
    seq(j, i requires 0 <= i < j => q.bars[i].close)
  }

  ghost predicate Holding(q: Request, k: nat)
    requires ValidRequest(q) && k <= |q.bars|
  {
    Replay(q, k).position.Some?
  }

  /** The bar on which the position open after k bars was bought. */
  ghost function EntryBar(q: Request, k: nat): (e: nat)
    requires ValidRequest(q) && k <= |q.bars| && Holding(q, k)
    ensures e < k
  {
    if Holding(q, k - 1) then EntryBar(q, k - 1) else k - 1
  }

  /** The trip a sale on bar k closes. */
  ghost function ClosedTrip(q: Request, k: nat): (t: Trip)
    requires ValidRequest(q) && k < |q.bars| && Holding(q, k)
    ensures t.entry < t.exit == k
  {
    Trip(Replay(q, k).position.value.quantity, EntryBar(q, k), k)
  }

  /** The round trips completed within the first k bars. */
  ghost function Trips(q: Request, k: nat): (ts: seq<Trip>)
    requires ValidRequest(q) && k <= |q.bars|
    ensures forall t :: t in ts ==> t.entry <= t.exit < k
  {
    if k == 0 then []
    else if Holding(q, k - 1) && !Holding(q, k) then
      Trips(q, k - 1) + [ClosedTrip(q, k - 1)]
    else Trips(q, k - 1)
  }

  /** All round trips of the run, the one closed by the forced liquidation included. */
  ghost function AllTrips(q: Request): (ts: seq<Trip>)
    requires ValidRequest(q)
    ensures forall t :: t in ts ==> t.entry <= t.exit < |q.bars|
  {
    var n := |q.bars|;
    if Holding(q, n) then
      Trips(q, n) + [Trip(Replay(q, n).position.value.quantity, EntryBar(q, n), n - 1)]
    else Trips(q, n)
  }

  ghost function Gain(q: Request, t: Trip): real
    requires t.entry < |q.bars| && t.exit < |q.bars|
  {
    t.quantity * (q.bars[t.exit].close - q.bars[t.entry].close)
  }

  /** Price profit before costs: quantity times close-to-close gain, summed over the trips. */
  ghost function GrossProfit(q: Request, ts: seq<Trip>): real
    requires forall t :: t in ts ==> t.entry < |q.bars| && t.exit < |q.bars|
  {
    if ts == [] then 0.0
    else
      var t := ts[|ts| - 1];
      assert t in ts;
      GrossProfit(q, ts[..|ts| - 1]) + Gain(q, t)
  }

  /** What one unit of capital becomes over a round trip: two fees, and two prices moved by costs. */
  ghost function TripGrowth(q: Request, entry: nat, exit: nat): real
    requires ValidRequest(q) && entry < |q.bars| && exit < |q.bars|
  {
    PricesPositive(q, q.bars[entry]);
    CostedRatio(1.0 - q.fee, BuyPrice(q, q.bars[entry]), SellPrice(q, q.bars[exit]))
  }

  ghost function CostedRatio(kept: real, buy: real, sell: real): real
    requires buy != 0.0
  {
    kept * kept * sell / buy
  }

  // ----- which bars trade

  lemma StepCases(q: Request, k: nat)
    requires ValidRequest(q) && k < |q.bars|
    ensures var a, b := Replay(q, k), q.bars[k];
      var t := Traded(q, a, b);
      && Replay(q, k + 1) == Marked(t, b)
      && BuyPrice(q, b) != 0.0
      && (a.position.Some? ==> Basis(a.position.value) != 0.0)
      && t == if Liquid(q, b) && WantsLong(q, k) && a.position.None? then Buy(q, a, b)
              else if Liquid(q, b) && !WantsLong(q, k) && a.position.Some? then Sell(q, a, b)
              else a
  {
    ReplayShape(q, k);
    assert Replay(q, k).closes == ClosesBefore(q, k);
    PricesPositive(q, q.bars[k]);
    if Replay(q, k).position.Some? { SaleFacts(q, Replay(q, k).position.value, q.bars[k]); }
  }

  lemma HoldingStep(q: Request, k: nat)
    requires ValidRequest(q) && k < |q.bars|
    ensures Holding(q, k + 1) == if Liquid(q, q.bars[k]) then WantsLong(q, k) else Holding(q, k)
  {
    StepCases(q, k);
  }

  lemma StartsFlat(q: Request)
    requires ValidRequest(q)
    ensures !Holding(q, 0)
  {}

  /** Bar j is the latest liquid bar before k, and the signal was on there. */
  ghost predicate LatestLiquidSignal(q: Request, j: nat, k: nat)
    requires ValidRequest(q) && k <= |q.bars|
  {
    && j < k && Liquid(q, q.bars[j]) && WantsLong(q, j)
    && forall m :: j < m < k ==> !Liquid(q, q.bars[m])
  }

  ghost predicate HasSignal(q: Request, k: nat)
    requires ValidRequest(q) && k <= |q.bars|
  {
    exists j: nat :: LatestLiquidSignal(q, j, k)
  }

  lemma NoSignalYet(q: Request)
    requires ValidRequest(q)
    ensures !HasSignal(q, 0)
  {}

  lemma SignalStep(q: Request, k: nat)
    requires ValidRequest(q) && k < |q.bars|
    ensures HasSignal(q, k + 1) == if Liquid(q, q.bars[k]) then WantsLong(q, k) else HasSignal(q, k)
  {
    hide ValidRequest; hide WantsLong; hide Liquid;
    if Liquid(q, q.bars[k]) {
      if WantsLong(q, k) { assert LatestLiquidSignal(q, k, k + 1); }
    } else {
      if HasSignal(q, k) {
        var j: nat :| LatestLiquidSignal(q, j, k);
        assert LatestLiquidSignal(q, j, k + 1);
      }
      if HasSignal(q, k + 1) {
        var j: nat :| LatestLiquidSignal(q, j, k + 1);
        assert LatestLiquidSignal(q, j, k);
      }
    }
  }

  lemma {:induction false} HoldingIsSignal(q: Request, k: nat)
    requires ValidRequest(q) && k <= |q.bars|
    ensures Holding(q, k) == HasSignal(q, k)
  {
    hide Holding; hide HasSignal; hide Liquid; hide WantsLong; hide ValidRequest;
    if k == 0 {
      StartsFlat(q);
      NoSignalYet(q);
    } else {
      HoldingIsSignal(q, k - 1);
      HoldingStep(q, k - 1);
      SignalStep(q, k - 1);
    }
  }

  /** After k bars the run is long exactly when the signal was on at the latest liquid bar. */
  lemma HoldingIsLatestLiquidSignal(q: Request, k: nat)
    requires ValidRequest(q) && k <= |q.bars|
    ensures Holding(q, k) <==> exists j: nat :: LatestLiquidSignal(q, j, k)
  {
    HoldingIsSignal(q, k);
    hide Holding; hide LatestLiquidSignal; hide ValidRequest;
  }

  // ----- the books

  /** The initial capital compounded by a list of trade returns. */
  ghost function Compounded(q: Request, trades: seq<real>): real { q.initialCapital * Growth(trades) }

  lemma CompoundedAppend(q: Request, trades: seq<real>, out: real, basis: real)
    requires basis != 0.0 && basis == Compounded(q, trades)
    ensures Compounded(q, trades + [TradeReturn(out, basis)]) == out
  {
    var g := out / basis;
    GrowthAppend(trades, g - 1.0);
    DivMul(out, basis);
    hide Growth;
    MulAssoc(q.initialCapital, Growth(trades), g);
  }

  lemma GrossProfitAppend(q: Request, ts: seq<Trip>, t: Trip)
    requires forall u :: u in ts + [t] ==> u.entry < |q.bars| && u.exit < |q.bars|
    ensures forall u :: u in ts ==> u.entry < |q.bars| && u.exit < |q.bars|
    ensures t in ts + [t]
    ensures GrossProfit(q, ts + [t]) == GrossProfit(q, ts) + Gain(q, t)
  {
    assert (ts + [t])[..|ts|] == ts;
    forall u | u in ts ensures u.entry < |q.bars| && u.exit < |q.bars| {
      assert u in ts + [t];
    }
    assert t == (ts + [t])[|ts|];
  }

  /** The gain of a trip is its value at the exit close less its value at the entry close. */
  lemma GainOfPosition(q: Request, p: Position, entry: nat, exit: nat)
    requires entry < |q.bars| && exit < |q.bars|
    ensures Gain(q, Trip(p.quantity, entry, exit)) == MarketValue(p, q.bars[exit]) - MarketValue(p, q.bars[entry])
  {
    MulMinus(p.quantity, q.bars[exit].close, q.bars[entry].close);
  }

  /**
   While long: the position was bought on its entry bar with the compounded capital.
   While flat: the cash is the compounded capital.
   */
  ghost predicate Booked(q: Request, k: nat)
    requires ValidRequest(q) && k <= |q.bars|
  {
    var a := Replay(q, k);
    match a.position
    case None => a.cash == Compounded(q, a.trades)
    case Some(p) => BookedPosition(q, p, Compounded(q, a.trades), EntryBar(q, k))
  }

  ghost predicate BookedPosition(q: Request, p: Position, capital: real, entry: nat)
    requires entry < |q.bars|
  {
    && Basis(p) == capital
    && p.quantity * BuyPrice(q, q.bars[entry]) == capital * (1.0 - q.fee)
  }

  /** What the account would hold had it valued its open position at the entry close. */
  ghost function BookValue(q: Request, k: nat): real
    requires ValidRequest(q) && k <= |q.bars|
  {
    var a := Replay(q, k);
    match a.position
    case None => a.cash
    case Some(p) => MarketValue(p, q.bars[EntryBar(q, k)])
  }

  lemma OpenBooked(q: Request)
    requires ValidRequest(q)
    ensures Booked(q, 0)
    ensures BookValue(q, 0) + Replay(q, 0).totalCosts == q.initialCapital
  {}

  lemma BookedStep(q: Request, k: nat)
    requires ValidRequest(q) && k < |q.bars| && Booked(q, k)
    ensures Booked(q, k + 1)
  {
    hide ValidRequest; hide Replay; hide Traded; hide Bought; hide BuyCosts; hide Proceeds; hide SellCosts;
    hide TradeReturn; hide Basis; hide BuyPrice; hide MarketValue; hide WantsLong; hide Compounded;
    hide BookedPosition; hide EntryBar; hide Liquid;
    StepCases(q, k);
    if Holding(q, k + 1) { EntryBarStep(q, k); }
    var a, b := Replay(q, k), q.bars[k];
    if !Holding(q, k) {
      BoughtIsBooked(q, a.cash, k);
    } else {
      BookedBasis(q, a.position.value, Compounded(q, a.trades), EntryBar(q, k));
      CompoundedAppend(q, a.trades, Proceeds(q, a.position.value, b), Basis(a.position.value));
    }
  }

  lemma {:induction false} AlwaysBooked(q: Request, k: nat)
    requires ValidRequest(q) && k <= |q.bars|
    ensures Booked(q, k)
  {
    hide ValidRequest; hide Booked;
    if k == 0 {
      OpenBooked(q);
    } else {
      AlwaysBooked(q, k - 1);
      BookedStep(q, k - 1);
    }
  }

  lemma BoughtIsBooked(q: Request, cash: real, entry: nat)
    requires ValidRequest(q) && entry < |q.bars| && cash > 0.0
    ensures BuyPrice(q, q.bars[entry]) > 0.0
    ensures BookedPosition(q, Bought(q, cash, q.bars[entry]), cash, entry)
  {
    PurchaseFacts(q, cash, q.bars[entry]);
  }

  lemma BookedBasis(q: Request, p: Position, capital: real, entry: nat)
    requires entry < |q.bars| && BookedPosition(q, p, capital, entry)
    ensures Basis(p) == capital
  {}

  /** The gain booked by bar k: that of the trip it closes, if it closes one. */
  ghost function RealizedGain(q: Request, k: nat): real
    requires ValidRequest(q) && k < |q.bars|
  {
    if Holding(q, k) && !Holding(q, k + 1) then Gain(q, ClosedTrip(q, k)) else 0.0
  }

  lemma ClosedTripGain(q: Request, k: nat)
    requires ValidRequest(q) && k < |q.bars| && Holding(q, k)
    ensures Gain(q, ClosedTrip(q, k)) == MarketValue(Replay(q, k).position.value, q.bars[k]) - BookValue(q, k)
  {
    GainOfPosition(q, Replay(q, k).position.value, EntryBar(q, k), k);
  }

  lemma EntryBarStep(q: Request, k: nat)
    requires ValidRequest(q) && k < |q.bars| && Holding(q, k + 1)
    ensures EntryBar(q, k + 1) == if Holding(q, k) then EntryBar(q, k) else k
  {}

  /** A purchase only turns cash into book value and costs; a sale also books the gain of its trip. */
  lemma BookStep(q: Request, k: nat)
    requires ValidRequest(q) && k < |q.bars|
    ensures BookValue(q, k + 1) + Replay(q, k + 1).totalCosts
      == BookValue(q, k) + Replay(q, k).totalCosts + RealizedGain(q, k)
  {
    hide Traded; hide Bought; hide BuyCosts; hide Proceeds; hide SellCosts; hide TradeReturn;
    hide Replay; hide Basis; hide BuyPrice; hide MarketValue; hide WantsLong; hide Gain; hide ClosedTrip; hide EntryBar;
    StepCases(q, k);
    if Holding(q, k + 1) { EntryBarStep(q, k); }
    if !Holding(q, k) {
      PurchaseFacts(q, Replay(q, k).cash, q.bars[k]);
    } else {
      SaleFacts(q, Replay(q, k).position.value, q.bars[k]);
      ClosedTripGain(q, k);
    }
  }

  lemma TripsStep(q: Request, k: nat)
    requires ValidRequest(q) && k < |q.bars|
    ensures GrossProfit(q, Trips(q, k + 1)) == GrossProfit(q, Trips(q, k)) + RealizedGain(q, k)
  {
    hide Replay; hide GrossProfit; hide Gain; hide ClosedTrip; hide Holding;
    if Holding(q, k) && !Holding(q, k + 1) {
      GrossProfitAppend(q, Trips(q, k), ClosedTrip(q, k));
    }
  }

  lemma {:induction false} BookValueConserved(q: Request, k: nat)
    requires ValidRequest(q) && k <= |q.bars|
    ensures BookValue(q, k) + Replay(q, k).totalCosts == q.initialCapital + GrossProfit(q, Trips(q, k))
  {
    if k == 0 {
      OpenBooked(q);
    } else {
      hide ValidRequest; hide Replay; hide BookValue; hide GrossProfit; hide Trips; hide RealizedGain;
      BookValueConserved(q, k - 1);
      BookStep(q, k - 1);
      TripsStep(q, k - 1);
    }
  }

  /** The gain so far of the open position, if there is one. */
  ghost function OpenGain(q: Request, k: nat): real
    requires ValidRequest(q) && k <= |q.bars|
  {
    if Holding(q, k) then Gain(q, Trip(Replay(q, k).position.value.quantity, EntryBar(q, k), k - 1)) else 0.0
  }

  /**
   Ledger conservation after every bar: equity plus all costs is the initial capital plus the
   price profit of the closed trips and of the open position.
   */
  lemma LedgerConserved(q: Request, k: nat)
    requires ValidRequest(q) && k <= |q.bars|
    ensures |Replay(q, k).equity| == k + 1
    ensures Replay(q, k).equity[k] + Replay(q, k).totalCosts
      == q.initialCapital + GrossProfit(q, Trips(q, k)) + OpenGain(q, k)
  {
    ReplayShape(q, k);
    BookValueConserved(q, k);
    if Holding(q, k) {
      hide Replay; hide GrossProfit; hide MarketValue; hide Gain; hide Trips;
      GainOfPosition(q, Replay(q, k).position.value, EntryBar(q, k), k - 1);
    }
  }

  lemma FinalShape(q: Request)
    requires ValidRequest(q)
    ensures |Final(q).equity| == |q.bars| + 1 == |Replay(q, |q.bars|).equity|
    ensures Final(q).equity[..|q.bars|] == Replay(q, |q.bars|).equity[..|q.bars|]
    ensures Final(q).position.None? && Final(q).equity[|q.bars|] == Final(q).cash
    ensures forall i :: 0 <= i <= |q.bars| ==> Final(q).equity[i] > 0.0
    ensures Final(q).equity[0] == q.initialCapital
  {
    hide Replay; hide Proceeds; hide SellCosts; hide Basis; hide TradeReturn;
    ReplayShape(q, |q.bars|);
  }

  /** Final equity is the initial capital plus the price profit of all trips, less all costs. */
  lemma FinalLedger(q: Request)
    requires ValidRequest(q)
    ensures Final(q).cash == q.initialCapital + GrossProfit(q, AllTrips(q)) - Final(q).totalCosts
  {
    hide Replay; hide Proceeds; hide SellCosts; hide Basis; hide TradeReturn; hide MarketValue; hide GrossProfit;
    hide Gain; hide Trips;
    var n := |q.bars|;
    BookValueConserved(q, n);
    if Holding(q, n) {
      var p, e, b := Replay(q, n).position.value, EntryBar(q, n), q.bars[n - 1];
      SaleFacts(q, p, b);
      GainOfPosition(q, p, e, n - 1);
      GrossProfitAppend(q, Trips(q, n), Trip(p.quantity, e, n - 1));
    }
  }

  /** Final equity is the initial capital compounded by every trade return. */
  lemma TradesTelescope(q: Request)
    requires ValidRequest(q)
    ensures Final(q).cash == Compounded(q, Final(q).trades)
  {
    var n := |q.bars|;
    var a := Replay(q, n);
    hide Replay; hide Proceeds; hide SellCosts; hide Basis; hide Compounded; hide TradeReturn; hide BookedPosition;
    AlwaysBooked(q, n);
    if Holding(q, n) {
      SaleFacts(q, a.position.value, q.bars[n - 1]);
      BookedBasis(q, a.position.value, Compounded(q, a.trades), EntryBar(q, n));
      CompoundedAppend(q, a.trades, Proceeds(q, a.position.value, q.bars[n - 1]), Basis(a.position.value));
    }
  }

  // ----- what one trade returns

  /** The growth of a trade is the ratio of the two costed prices, less two fees. */
  lemma TradeRatio(basis: real, quantity: real, buy: real, sell: real, kept: real, out: real)
    requires basis > 0.0 && buy > 0.0 && quantity * buy == basis * kept
    requires out == quantity * sell * kept
    ensures 1.0 + TradeReturn(out, basis) == CostedRatio(kept, buy, sell)
  {
    var g := kept * kept * sell / buy;
    DivMul(kept * kept * sell, buy);
    assert g * basis * buy == (g * buy) * basis;
    assert (kept * kept * sell) * basis == (basis * kept) * (sell * kept);
    assert out * buy == (quantity * buy) * (sell * kept);
    MulCancel(g * basis, out, buy);
    DivUnique(out, basis, g);
  }

  lemma SoldTrip(q: Request, p: Position, capital: real, entry: nat, exit: nat)
    requires ValidRequest(q) && entry < |q.bars| && exit < |q.bars|
    requires SoundPosition(p) && BookedPosition(q, p, capital, entry)
    ensures Basis(p) > 0.0
    ensures 1.0 + TradeReturn(Proceeds(q, p, q.bars[exit]), Basis(p)) == TripGrowth(q, entry, exit)
  {
    hide Basis; hide Proceeds; hide BuyPrice; hide SellPrice; hide CostedRatio; hide TradeReturn; hide MarketValue;
    PricesPositive(q, q.bars[entry]);
    SaleFacts(q, p, q.bars[exit]);
    TradeRatio(capital, p.quantity, BuyPrice(q, q.bars[entry]), SellPrice(q, q.bars[exit]), 1.0 - q.fee,
               Proceeds(q, p, q.bars[exit]));
  }

  /** The i-th trade return is that of the i-th trip, which invests all the capital earned before it. */
  ghost predicate TripOf(q: Request, trades: seq<real>, i: nat, t: Trip)
    requires ValidRequest(q) && i < |trades| && t.entry < |q.bars| && t.exit < |q.bars|
  {
    && 1.0 + trades[i] == TripGrowth(q, t.entry, t.exit)
    && t.quantity * BuyPrice(q, q.bars[t.entry]) == Compounded(q, trades[..i]) * (1.0 - q.fee)
  }

  ghost predicate TradesMatchTrips(q: Request, trades: seq<real>, trips: seq<Trip>)
    requires ValidRequest(q)
    requires forall t :: t in trips ==> t.entry <= t.exit < |q.bars|
  {
    && |trades| == |trips|
    && forall i :: 0 <= i < |trips| ==> TripOf(q, trades, i, trips[i])
  }

  lemma TripOfAppend(q: Request, trades: seq<real>, r: real, i: nat, t: Trip)
    requires ValidRequest(q) && i < |trades| && t.entry < |q.bars| && t.exit < |q.bars|
    ensures TripOf(q, trades, i, t) == TripOf(q, trades + [r], i, t)
  {
    assert (trades + [r])[..i] == trades[..i];
  }

  lemma MatchAppend(q: Request, trades: seq<real>, trips: seq<Trip>, p: Position, entry: nat, exit: nat)
    requires ValidRequest(q)
    requires forall u :: u in trips ==> u.entry <= u.exit < |q.bars|
    requires TradesMatchTrips(q, trades, trips)
    requires entry <= exit < |q.bars|
    requires SoundPosition(p) && BookedPosition(q, p, Compounded(q, trades), entry)
    ensures var t := Trip(p.quantity, entry, exit);
      && Basis(p) > 0.0
      && (forall u :: u in trips + [t] ==> u.entry <= u.exit < |q.bars|)
      && TradesMatchTrips(q, trades + [TradeReturn(Proceeds(q, p, q.bars[exit]), Basis(p))], trips + [t])
  {
    SoldTrip(q, p, Compounded(q, trades), entry, exit);
    var t, r := Trip(p.quantity, entry, exit), TradeReturn(Proceeds(q, p, q.bars[exit]), Basis(p));
    assert (trades + [r])[..|trades|] == trades;
    hide Basis; hide Proceeds; hide TradeReturn; hide BuyPrice; hide TripGrowth; hide Compounded;
    assert TripOf(q, trades + [r], |trades|, t);
    hide TripOf;
    forall i | 0 <= i < |trips| ensures TripOf(q, trades + [r], i, trips[i]) {
      TripOfAppend(q, trades, r, i, trips[i]);
    }
  }

  lemma TradesMatchStep(q: Request, k: nat)
    requires ValidRequest(q) && k < |q.bars| && TradesMatchTrips(q, Replay(q, k).trades, Trips(q, k))
    ensures TradesMatchTrips(q, Replay(q, k + 1).trades, Trips(q, k + 1))
  {
    hide ValidRequest; hide Replay; hide Traded; hide Bought; hide BuyCosts; hide Proceeds; hide SellCosts;
    hide TradeReturn; hide Basis; hide BuyPrice; hide WantsLong; hide Compounded; hide BookedPosition; hide Liquid;
    hide TradesMatchTrips; hide EntryBar;
    StepCases(q, k);
    if Holding(q, k) {
      AlwaysBooked(q, k);
      var a := Replay(q, k);
      MatchAppend(q, a.trades, Trips(q, k), a.position.value, EntryBar(q, k), k);
    }
  }

  lemma {:induction false} TradesAreTrips(q: Request, k: nat)
    requires ValidRequest(q) && k <= |q.bars|
    ensures TradesMatchTrips(q, Replay(q, k).trades, Trips(q, k))
  {
    hide ValidRequest; hide Replay; hide Trips; hide TradesMatchTrips;
    if k == 0 {
      NoTripsYet(q);
    } else {
      TradesAreTrips(q, k - 1);
      TradesMatchStep(q, k - 1);
    }
  }

  lemma NoTripsYet(q: Request)
    requires ValidRequest(q)
    ensures TradesMatchTrips(q, Replay(q, 0).trades, Trips(q, 0))
  {}

  lemma FinalTradesAreTrips(q: Request)
    requires ValidRequest(q)
    ensures TradesMatchTrips(q, Final(q).trades, AllTrips(q))
  {
    hide Replay; hide Proceeds; hide SellCosts; hide Basis; hide TradeReturn; hide TradesMatchTrips;
    hide Compounded; hide BookedPosition;
    var n := |q.bars|;
    var a := Replay(q, n);
    TradesAreTrips(q, n);
    if Holding(q, n) {
      AlwaysBooked(q, n);
      MatchAppend(q, a.trades, Trips(q, n), a.position.value, EntryBar(q, n), n - 1);
    }
  }
}
