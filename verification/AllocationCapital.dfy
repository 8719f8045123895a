/** Which capitals are accepted without looking at the rules, and how far below zero a rejected residual can be. */
module AllocationCapital {
  import opened Allocation
  import opened AllocationAmounts
  import opened AllocationCaution
  import opened AllocationRules
  import opened Arith
  import opened Common

  // ----- the rules move percentages in fives, up to the trading cap

  ghost predicate Fives(a: Percents)
    requires Complete(a)
  {
    forall c: Category :: a[c] % 5 == 0
  }

  lemma ShiftedFives(a: Percents, source: Category, target: Category, share: int)
    requires Complete(a) && Fives(a) && share % 5 == 0
    ensures Fives(Shifted(a, source, target, share))
  {
    var r := Shifted(a, source, target, share);
    FiveSums(a[source], share);
    FiveSums(a[target], share);
    forall c: Category ensures r[c] % 5 == 0 {
      assert a[c] % 5 == 0;
      assert r[c] == a[c] || r[c] == a[source] - share || r[c] == a[target] + share;
    }
  }

  lemma FiveSums(x: int, y: int)
    requires x % 5 == 0 && y % 5 == 0
    ensures (x - y) % 5 == 0 && (x + y) % 5 == 0 && MinInt(x, y) % 5 == 0
  {}

  lemma {:induction false} MovedFromFives(a: Percents, remaining: int, sources: seq<Category>, target: Category, i: nat)
    requires Complete(a) && Fives(a) && remaining % 5 == 0 && i <= |sources|
    ensures Fives(MovedFrom(a, remaining, sources, target, i))
    decreases |sources| - i
  {
    if i == |sources| { return; }
    var share := MinInt(a[sources[i]], remaining);
    FiveSums(a[sources[i]], remaining);
    FiveSums(remaining, share);
    hide MovedFrom; hide Shifted; hide Fives; hide MinInt;
    ShiftedFives(a, sources[i], target, share);
    MovedFromStep(a, remaining, sources, target, i);
    MovedFromFives(Shifted(a, sources[i], target, share), remaining - share, sources, target, i + 1);
  }

  lemma MovedFives(a: Percents, amount: int, sources: seq<Category>, target: Category)
    requires Complete(a) && Fives(a) && amount % 5 == 0
    ensures Fives(Moved(a, amount, sources, target))
  {
    MovedFromFives(a, amount, sources, target, 0);
  }

  lemma CashRulesFives(p: Profile, a: Percents)
    requires Complete(a) && Fives(a)
    ensures Fives(AfterLiquidity(p, a)) && Fives(AfterEmergency(p, a))
  {
    hide Moved; hide Fives;
    MovedFives(a, 10, [ShortTerm, EquityIndex, Gold], Cash);
    MovedFives(a, 5, [ShortTerm, EquityIndex], Cash);
    MovedFives(a, 5, [ShortTerm, EquityIndex, Gold], Cash);
  }

  lemma IncomeRulesFives(p: Profile, a: Percents)
    requires Complete(a) && Fives(a)
    ensures Fives(AfterIncome(p, a)) && Fives(AfterHorizon(p, a))
  {
    hide Moved; hide Fives;
    MovedFives(a, 10, [ShortTerm, EquityIndex, MixedFund, Gold], FixedIncome);
    MovedFives(a, 25, [ShortTerm, EquityIndex, MixedFund, Gold], FixedIncome);
    MovedFives(a, 10, [ShortTerm, EquityIndex], FixedIncome);
  }

  lemma DrawdownFives(p: Profile, a: Percents)
    requires Complete(a) && Fives(a)
    ensures Fives(AfterDrawdown(p, a))
  {
    assert Risky(a) % 5 == 0;
    var ten, thirty := MaxInt(0, Risky(a) - 10), MaxInt(0, Risky(a) - 30);
    hide Moved; hide Fives; hide Risky;
    MovedFives(a, ten, [ShortTerm, EquityIndex, MixedFund], FixedIncome);
    MovedFives(a, thirty, [ShortTerm, EquityIndex, MixedFund], FixedIncome);
  }

  lemma BaseFives(risk: RiskTolerance)
    ensures Fives(Base(risk))
  {}

  lemma BeforeCapsFives(p: Profile)
    ensures Fives(BeforeCaps(p))
  {
    BaseFives(p.risk);
    hide Fives; hide AfterLiquidity; hide AfterEmergency; hide AfterIncome; hide AfterHorizon; hide Base;
    var a := Base(p.risk);
    CashRulesFives(p, a);
    CashRulesFives(p, AfterLiquidity(p, a));
    IncomeRulesFives(p, AfterEmergency(p, AfterLiquidity(p, a)));
    IncomeRulesFives(p, AfterIncome(p, AfterEmergency(p, AfterLiquidity(p, a))));
  }

  /** What the later rules keep: they touch only fixed income, equity and short-term, or empty a category. */
  ghost predicate ThreeFives(a: Percents)
    requires Complete(a)
  {
    a[Cash] % 5 == 0 && a[Gold] % 5 == 0 && a[MixedFund] % 5 == 0
  }

  lemma LaterRulesKeepFives(p: Profile, a: Percents)
    requires Complete(a) && ThreeFives(a)
    ensures ThreeFives(AfterTrading(p, a)) && ThreeFives(AfterStyle(p, a)) && ThreeFives(WithMinimums(p.capital, a))
  {
    hide TradingCap; hide BelowMinimum; hide RemovedSum;
  }

  lemma FinalFives(p: Profile)
    ensures ThreeFives(FinalPercents(p))
  {
    BeforeCapsFives(p);
    hide BeforeCaps;
    var a := AfterDrawdown(p, BeforeCaps(p));
    DrawdownFives(p, BeforeCaps(p));
    assert ThreeFives(a);
    hide AfterDrawdown; hide AfterTrading; hide AfterStyle; hide WithMinimums; hide ThreeFives; hide Fives;
    LaterRulesKeepFives(p, a);
    LaterRulesKeepFives(p, AfterTrading(p, a));
    LaterRulesKeepFives(p, AfterStyle(p, AfterTrading(p, a)));
  }

  // ----- multiples of twenty

  /** A fifth, rounded. */
  lemma RoundedFifth(t: int)
    ensures Rounded(t as real / 5.0) == ((2 * t + 5) / 10) as real
  {
    FloorIs(t as real / 5.0 + 0.5, (2 * t + 5) / 10);
  }

  lemma ShareOfTwenties(k: int, percent: int)
    ensures ShareOf(20.0 * k as real, percent) == (k * percent) as real / 5.0
  {}

  lemma SharesOfTwenties(k: int, percent: int)
    ensures Rounded(ShareOf(20.0 * k as real, percent)) == ((2 * (k * percent) + 5) / 10) as real
  {
    ShareOfTwenties(k, percent);
    RoundedFifth(k * percent);
  }

  /** Five percent of twenty is one, and two shares that make whole ones together round to as many. */
  lemma PairOfShares(k: int, x: int, y: int, m: int)
    requires x + y == 5 * m
    ensures Rounded(ShareOf(20.0 * k as real, x)) + Rounded(ShareOf(20.0 * k as real, y)) == (k * m) as real
  {
    SharesOfTwenties(k, x);
    SharesOfTwenties(k, y);
    assert k * x + k * y == 5 * (k * m) by { assert k * (x + y) == k * (5 * m); }
    HalvesCancel(k * x, k * y, k * m);
  }

  lemma HalvesCancel(t: int, u: int, n: int)
    requires t + u == 5 * n
    ensures (2 * t + 5) / 10 + (2 * u + 5) / 10 == n
  {
    var q, r := (2 * t + 5) / 10, (2 * t + 5) % 10;
    assert 2 * t + 5 == 10 * q + r && r != 0;
    TenthIs(2 * u + 5, n - q, 10 - r);
  }

  lemma TenthIs(x: int, q: int, r: int)
    requires x == 10 * q + r && 0 <= r < 10
    ensures x / 10 == q
  {}

  lemma WholeShare(k: int, percent: int, m: int)
    requires percent == 5 * m
    ensures Rounded(ShareOf(20.0 * k as real, percent)) == (k * m) as real
  {
    SharesOfTwenties(k, percent);
    FiveTimes(k, m);
    TenthIs(2 * (k * percent) + 5, k * m, 5);
  }

  lemma FiveTimes(k: int, m: int)
    ensures k * (5 * m) == 5 * (k * m)
  {}

  lemma TwentyParts(k: int, c: int, g: int, m: int, rest: int)
    requires c + g + m + rest == 20
    ensures (k * c) as real + (k * g) as real + (k * m) as real + (k * rest) as real == 20.0 * k as real
  {
    assert k * c + k * g + k * m + k * rest == k * (c + g + m + rest);
  }

  /** Without a short-term share nothing is left of a multiple of twenty. */
  lemma NothingLeftOfTwenties(k: int, a: Percents)
    requires Sound(a) && ThreeFives(a) && a[ShortTerm] == 0
    ensures Residual(20.0 * k as real, a) == 0.0
  {
    var cash, fixed, gold, equity, mixed := a[Cash], a[FixedIncome], a[Gold], a[EquityIndex], a[MixedFund];
    var rest := 20 - cash / 5 - gold / 5 - mixed / 5;
    AssignedIs(20.0 * k as real, a);
    hide Rounded; hide ShareOf; hide Assigned; hide Sound;
    assert fixed + equity == 5 * rest;
    WholeShare(k, cash, cash / 5);
    WholeShare(k, gold, gold / 5);
    WholeShare(k, mixed, mixed / 5);
    PairOfShares(k, fixed, equity, rest);
    TwentyParts(k, cash / 5, gold / 5, mixed / 5, rest);
  }

  lemma AcceptedWithShare(p: Profile)
    requires ValidProfile(p)
    ensures FinalPercents(p)[ShortTerm] > 0 ==> Residual(p.capital, FinalPercents(p)) >= 0.0
  {
    AcceptedIff(p);
    hide FinalPercents; hide Residual; hide Assigned; hide OddMoney;
  }

  lemma FinalSound(p: Profile)
    requires ValidProfile(p)
    ensures Sound(FinalPercents(p)) && FinalPercents(p)[ShortTerm] >= 0
  {
    CapsSurvive(p);
    hide FinalPercents;
    assert NonNegative(FinalPercents(p));
  }

  /** Every capital that is a multiple of twenty toman is accepted, whatever the profile. */
  lemma TwentiesAccepted(p: Profile, k: int)
    requires ValidProfile(p) && p.capital == 20.0 * k as real
    ensures Residual(p.capital, FinalPercents(p)) >= 0.0
  {
    hide FinalPercents; hide ThreeFives; hide Residual;
    AcceptedWithShare(p);
    FinalSound(p);
    FinalFives(p);
    if FinalPercents(p)[ShortTerm] == 0 { NothingLeftOfTwenties(k, FinalPercents(p)); }
  }

  // ----- the lowest residual

  lemma {:induction false} AssignedWhole(capital: real, a: Percents, n: nat) returns (z: int)
    requires Complete(a) && n <= 5
    ensures Assigned(capital, a, n) == z as real
  {
    if n == 0 {
      z := 0;
    } else {
      var rest := AssignedWhole(capital, a, n - 1);
      z := rest + (ShareOf(capital, a[CATEGORIES[n - 1]]) + 0.5).Floor;
    }
  }

  /** For a whole capital the last bucket is never below -2. */
  lemma NeverBelowMinusTwo(p: Profile, capital: int)
    requires ValidProfile(p) && p.capital == capital as real
    ensures Residual(p.capital, FinalPercents(p)) >= -2.0
  {
    hide FinalPercents; hide Assigned; hide ShareOf;
    AcceptedWithShare(p);
    FinalSound(p);
    var a := FinalPercents(p);
    ResidualNearShare(p.capital, a);
    hide Sound;
    var z := AssignedWhole(p.capital, a, 5);
    NoShare(p.capital);
    if a[ShortTerm] == 0 { WholeAbove(capital, z); }
  }

  lemma NoShare(capital: real)
    ensures ShareOf(capital, 0) == 0.0
  {}

  lemma WholeAbove(x: int, y: int)
    requires x as real - y as real >= -2.5
    ensures x as real - y as real >= -2.0
  {
    var d := x - y;
    assert d as real == x as real - y as real;
    WholeBound(d);
  }

  lemma WholeBound(d: int)
    requires d as real >= -2.5
    ensures d >= -2
  {}
}
