/** From percentages to amounts: five rounded buckets, a residual one, and when the engine rejects the result. */
module AllocationAmounts {
  import opened Common
  import opened Arith
  import opened Allocation
  import opened AllocationRules
  import opened AllocationFigures

  datatype Item = Item(category: Category, percent: int, amount: real)

  datatype AllocationError = NegativeAmount

  /** Rounding half up, on the non-negative amounts that occur here. */
  function Rounded(x: real): real { (x + 0.5).Floor as real }

  /** What has been handed out after the first n categories, the residual bucket excluded. */
  function Assigned(capital: real, a: Percents, n: nat): real
    requires Complete(a) && n <= 5
  {
    if n == 0 then 0.0 else Assigned(capital, a, n - 1) + Rounded(ShareOf(capital, a[CATEGORIES[n - 1]]))
  }

  function Residual(capital: real, a: Percents): real
    requires Complete(a)
  {
    capital - Assigned(capital, a, 5)
  }

  function AmountOf(capital: real, a: Percents, i: nat): real
    requires Complete(a) && i < 6
  {
    if i < 5 then Rounded(ShareOf(capital, a[CATEGORIES[i]])) else Residual(capital, a)
  }

  function ItemSum(items: seq<Item>): real {
    if items == [] then 0.0 else ItemSum(items[..|items| - 1]) + items[|items| - 1].amount
  }

  /** No item has a negative amount. */
  ghost predicate Payable(items: seq<Item>) { forall i :: 0 <= i < |items| ==> items[i].amount >= 0.0 }

  lemma PayableAppend(items: seq<Item>, x: Item)
    ensures Payable(items + [x]) <==> Payable(items) && x.amount >= 0.0
  {
    var all := items + [x];
    assert all[|items|] == x && forall i :: 0 <= i < |items| ==> all[i] == items[i];
  }

  /** A whole number of toman, and the nearest one to an exact amount; halfway cases go up. */
  ghost predicate NearestUp(amount: real, exact: real) {
    amount == amount.Floor as real && amount - 0.5 <= exact < amount + 0.5
  }

  ghost predicate ItemTold(items: seq<Item>, i: nat, category: Category, a: Percents, capital: real)
    requires Complete(a) && i < |items|
  {
    items[i].category == category && items[i].percent == a[category]
    && (i < 5 ==> NearestUp(items[i].amount, capital * a[category] as real / 100.0))
  }

  /**
   The items of a set of percentages: the six categories in order, five amounts rounded to the nearest toman, and the
   rest of the capital.
   */
  ghost predicate ItemsTold(items: seq<Item>, a: Percents, capital: real)
    requires Complete(a)
  {
    && |items| == 6
    && ItemTold(items, 0, Cash, a, capital) && ItemTold(items, 1, FixedIncome, a, capital)
    && ItemTold(items, 2, Gold, a, capital) && ItemTold(items, 3, EquityIndex, a, capital)
    && ItemTold(items, 4, MixedFund, a, capital) && ItemTold(items, 5, ShortTerm, a, capital)
    && items[5].amount == capital - items[0].amount - items[1].amount - items[2].amount - items[3].amount
         - items[4].amount
  }

  /** A recommendation in percentage points and toman, by the rules themselves. */
  ghost predicate Recommended(p: Profile, items: seq<Item>) {
    exists t: Stages :: Recommends(p, t) && ItemsTold(items, t.executable, p.capital)
  }

  /**
   The recommendation: the items in category order, with the final percentages and their amounts. A negative
   amount is refused by the item type.
   */
  method RecommendAllocation(p: Profile) returns (r: Result<seq<Item>, AllocationError>)
    requires ValidProfile(p)
    ensures r.Ok? <==> Residual(p.capital, FinalPercents(p)) >= 0.0
    ensures r.Ok? ==>
      && r.value == ItemsOf(p.capital, FinalPercents(p), 6)
      && ItemSum(r.value) == p.capital
      && Payable(r.value)
      && Recommended(p, r.value)
  {
    ItemsAreRecommended(p);
    hide Recommended;
    var a := ApplyRules(p);
    NoNegativeShare(p);
    AmountsAdd(p.capital, a);
    hide ItemsOf; hide ItemAt; hide ValidProfile; hide FinalPercents; hide ShareOf; hide Rounded; hide Assigned;
    hide ItemSum; hide AmountOf; hide Residual; hide Payable; hide Complete;
    var items: seq<Item> := [];
    var handedOut := 0.0;
    NothingAssigned(p.capital, a);
    for i := 0 to 6
      invariant |items| == i
      invariant i <= 5 ==> handedOut == Assigned(p.capital, a, i)
      invariant i == 6 ==> Residual(p.capital, a) >= 0.0
      invariant items == ItemsOf(p.capital, a, i)
      invariant Payable(items)
    {
      var percent := a[CATEGORIES[i]];
      var amount;
      AmountAt(p.capital, a, i);
      if i == 5 {
        amount := p.capital - handedOut;
      } else {
        amount := Rounded(ShareOf(p.capital, percent));
        AssignedStep(p.capital, a, i);
        handedOut := handedOut + amount;
      }
      if amount < 0.0 { return Err(NegativeAmount); }
      ItemsOfStep(p.capital, a, i);
      PayableAppend(items, Item(CATEGORIES[i], percent, amount));
      items := items + [Item(CATEGORIES[i], percent, amount)];
    }
    r := Ok(items);
  }

  function ItemAt(capital: real, a: Percents, i: nat): Item
    requires Complete(a) && i < 6
  {
    Item(CATEGORIES[i], a[CATEGORIES[i]], AmountOf(capital, a, i))
  }

  /** The six items of a set of percentages. */
  function ItemsOf(capital: real, a: Percents, n: nat): (items: seq<Item>)
    requires Complete(a) && n <= 6
    ensures |items| == n
    ensures forall j :: 0 <= j < n ==> items[j] == ItemAt(capital, a, j)
  {
    if n == 0 then [] else ItemsOf(capital, a, n - 1) + [ItemAt(capital, a, n - 1)]
  }

  lemma ItemsOfStep(capital: real, a: Percents, n: nat)
    requires Complete(a) && n < 6
    ensures ItemsOf(capital, a, n + 1)
      == ItemsOf(capital, a, n) + [Item(CATEGORIES[n], a[CATEGORIES[n]], AmountOf(capital, a, n))]
  {}

  lemma RoundedIsNearest(x: real)
    ensures NearestUp(Rounded(x), x)
  {
    RoundedBounds(x);
    var f := (x + 0.5).Floor;
    FloorIs(f as real, f);
  }

  lemma ItemIsTold(capital: real, a: Percents, i: nat, category: Category)
    requires Complete(a) && i < 6 && CATEGORIES[i] == category
    ensures ItemTold(ItemsOf(capital, a, 6), i, category, a, capital)
  {
    assert ItemsOf(capital, a, 6)[i] == ItemAt(capital, a, i);
    RoundedIsNearest(ShareOf(capital, a[category]));
    hide ItemsOf; hide Rounded; hide NearestUp;
  }

  lemma ItemsInFigures(capital: real, a: Percents)
    requires Complete(a)
    ensures ItemsTold(ItemsOf(capital, a, 6), a, capital)
  {
    ItemIsTold(capital, a, 0, Cash);
    ItemIsTold(capital, a, 1, FixedIncome);
    ItemIsTold(capital, a, 2, Gold);
    ItemIsTold(capital, a, 3, EquityIndex);
    ItemIsTold(capital, a, 4, MixedFund);
    ItemIsTold(capital, a, 5, ShortTerm);
    LastItem(capital, a);
    hide ItemsOf; hide ItemTold;
  }

  lemma LastItem(capital: real, a: Percents)
    requires Complete(a)
    ensures var items := ItemsOf(capital, a, 6);
      items[5].amount == capital - items[0].amount - items[1].amount - items[2].amount - items[3].amount
        - items[4].amount
  {
    AssignedIs(capital, a);
    var items := ItemsOf(capital, a, 6);
    forall j | 0 <= j < 6 ensures items[j] == ItemAt(capital, a, j) {}
    hide ItemsOf; hide Assigned; hide Rounded; hide ShareOf;
  }

  lemma ItemsAreRecommended(p: Profile)
    requires ValidProfile(p)
    ensures Recommended(p, ItemsOf(p.capital, FinalPercents(p), 6))
  {
    FinalInFigures(p);
    ItemsInFigures(p.capital, FinalPercents(p));
    hide ItemsOf; hide ItemsTold; hide FinalPercents; hide StagesOf; hide AllSound;
    assert Recommends(p, StagesOf(p));
  }

  lemma NoNegativeShare(p: Profile)
    requires ValidProfile(p)
    ensures p.capital >= 0.0
    ensures forall i :: 0 <= i < 6 ==> FinalPercents(p)[CATEGORIES[i]] >= 0
  {
    CapsSurvive(p);
    hide FinalPercents;
  }

  lemma AmountAt(capital: real, a: Percents, i: nat)
    requires Complete(a) && i < 6
    ensures i == 5 ==> AmountOf(capital, a, i) == Residual(capital, a) == capital - Assigned(capital, a, 5)
    ensures i < 5 ==> AmountOf(capital, a, i) == Rounded(ShareOf(capital, a[CATEGORIES[i]]))
    ensures i < 5 && capital >= 0.0 && a[CATEGORIES[i]] >= 0 ==> AmountOf(capital, a, i) >= 0.0
  {
    RoundedShare(capital, a[CATEGORIES[i]]);
  }

  /** The amounts add up to the capital, to the toman and below it. */
  lemma AmountsAdd(capital: real, a: Percents)
    requires Complete(a)
    ensures ItemSum(ItemsOf(capital, a, 6)) == capital
  {
    hide ShareOf; hide Rounded;
    FirstItemsAdd(capital, a, 5);
    hide Assigned;
    ItemSumAppend(ItemsOf(capital, a, 5), ItemAt(capital, a, 5));
  }

  lemma {:induction false} FirstItemsAdd(capital: real, a: Percents, n: nat)
    requires Complete(a) && n <= 5
    ensures ItemSum(ItemsOf(capital, a, n)) == Assigned(capital, a, n)
  {
    if n > 0 {
      FirstItemsAdd(capital, a, n - 1);
      hide ShareOf; hide Rounded;
      ItemSumAppend(ItemsOf(capital, a, n - 1), ItemAt(capital, a, n - 1));
    }
  }

  lemma NothingAssigned(capital: real, a: Percents)
    requires Complete(a)
    ensures Assigned(capital, a, 0) == 0.0 && ItemsOf(capital, a, 0) == []
  {}

  lemma AssignedStep(capital: real, a: Percents, n: nat)
    requires Complete(a) && n < 5
    ensures Assigned(capital, a, n + 1) == Assigned(capital, a, n) + Rounded(ShareOf(capital, a[CATEGORIES[n]]))
  {}

  lemma ItemSumAppend(items: seq<Item>, x: Item)
    ensures ItemSum(items + [x]) == ItemSum(items) + x.amount
  {
    assert (items + [x])[..|items|] == items;
  }

  /** The two cash rules, in place. */
  method ApplyCashRules(p: Profile, book: AllocationBook)
    requires Sound(book.percent)
    modifies book
    ensures book.percent == AfterEmergency(p, AfterLiquidity(p, old(book.percent)))
    ensures Sound(book.percent)
  {
    TransfersAreLegal();
    hide Moved; hide Transferred; hide SourcesSum; hide DistinctSources; hide Total;
    ghost var start := book.percent;
    LiquiditySound(p, start);
    match p.liquidity {
      case High => var _ := book.Transfer(10, [ShortTerm, EquityIndex, Gold], Cash);
      case Medium => var _ := book.Transfer(5, [ShortTerm, EquityIndex], Cash);
      case Low =>
    }
    EmergencySound(p, book.percent);
    if !p.hasEmergencyFund {
      var _ := book.Transfer(5, [ShortTerm, EquityIndex, Gold], Cash);
    }
  }

  /** The income and horizon rules, in place. */
  method ApplyIncomeRules(p: Profile, book: AllocationBook)
    requires Sound(book.percent)
    modifies book
    ensures book.percent == AfterHorizon(p, AfterIncome(p, old(book.percent)))
    ensures Sound(book.percent)
  {
    TransfersAreLegal();
    hide Moved; hide Transferred; hide SourcesSum; hide DistinctSources; hide Total; hide Risky;
    IncomeAndHorizonDefensive(p, book.percent);
    if p.monthlyIncome {
      var _ := book.Transfer(10, [ShortTerm, EquityIndex, MixedFund, Gold], FixedIncome);
    }
    IncomeAndHorizonDefensive(p, book.percent);
    var months := HorizonMonths(p.horizon);
    if months <= 6 {
      var _ := book.Transfer(25, [ShortTerm, EquityIndex, MixedFund, Gold], FixedIncome);
    } else if months <= 12 {
      var _ := book.Transfer(10, [ShortTerm, EquityIndex], FixedIncome);
    }
  }

  /** The drawdown and trading caps and the style rule, in place. */
  method ApplyCaps(p: Profile, book: AllocationBook)
    requires Sound(book.percent)
    modifies book
    ensures book.percent == AfterStyle(p, AfterTrading(p, AfterDrawdown(p, old(book.percent))))
  {
    TransfersAreLegal();
    hide Moved; hide Transferred; hide SourcesSum; hide DistinctSources; hide Total; hide TradingCap; hide Shifted;
    if p.maxDrawdown <= 0.10 {
      var _ := book.Transfer(MaxInt(0, Risky(book.percent) - 10), [ShortTerm, EquityIndex, MixedFund], FixedIncome);
    } else if p.maxDrawdown <= 0.20 {
      var _ := book.Transfer(MaxInt(0, Risky(book.percent) - 30), [ShortTerm, EquityIndex, MixedFund], FixedIncome);
    }
    ZeroShift(book.percent, ShortTerm, FixedIncome);
    var excess := MaxInt(0, book.percent[ShortTerm] - TradingCap(p));
    if excess != 0 { book.Shift(ShortTerm, FixedIncome, excess); }
    ZeroShift(book.percent, ShortTerm, EquityIndex);
    if p.style == Passive && book.percent[ShortTerm] != 0 {
      book.Shift(ShortTerm, EquityIndex, book.percent[ShortTerm]);
    }
  }

  /** The rules applied to the book one after the other. */
  method ApplyRules(p: Profile) returns (a: Percents)
    requires ValidProfile(p)
    ensures a == FinalPercents(p)
  {
    hide AfterLiquidity; hide AfterEmergency; hide AfterIncome; hide AfterHorizon; hide AfterDrawdown;
    hide AfterTrading; hide AfterStyle; hide Base; hide WithMinimums;
    BaseComplete(p.risk);
    var book := new AllocationBook(p.risk);
    ApplyCashRules(p, book);
    ApplyIncomeRules(p, book);
    ApplyCaps(p, book);
    book.EnforceMinimums(p.capital);
    return book.percent;
  }

  lemma ZeroShift(a: Percents, source: Category, target: Category)
    requires Complete(a) && source != target
    ensures Shifted(a, source, target, 0) == a
  {
    assert a[source := a[source] - 0] == a;
    assert a[target := a[target] + 0] == a;
  }

  lemma TransfersAreLegal()
    ensures DistinctSources([ShortTerm, EquityIndex, Gold], Cash)
    ensures DistinctSources([ShortTerm, EquityIndex], Cash)
    ensures DistinctSources([ShortTerm, EquityIndex, MixedFund, Gold], FixedIncome)
    ensures DistinctSources([ShortTerm, EquityIndex], FixedIncome)
    ensures DistinctSources([ShortTerm, EquityIndex, MixedFund], FixedIncome)
  {}

  lemma LiquiditySound(p: Profile, a: Percents)
    requires Sound(a)
    ensures Sound(AfterLiquidity(p, a))
  {
    hide Moved; hide SourcesSum; hide Sound;
    TransferEffect(a, 10, [ShortTerm, EquityIndex, Gold], Cash);
    TransferEffect(a, 5, [ShortTerm, EquityIndex], Cash);
  }

  lemma EmergencySound(p: Profile, a: Percents)
    requires Sound(a)
    ensures Sound(AfterEmergency(p, a))
  {
    hide Moved; hide SourcesSum; hide Sound;
    TransferEffect(a, 5, [ShortTerm, EquityIndex, Gold], Cash);
  }

  // ----- the amounts

  lemma RoundedBounds(x: real)
    ensures x - 0.5 < Rounded(x) <= x + 0.5
    ensures x >= 0.0 ==> Rounded(x) >= 0.0
  {}

  /** Rounding does not take an amount below a whole number it reached. */
  lemma RoundedAtLeast(x: real, n: int)
    requires x >= n as real
    ensures Rounded(x) >= n as real
  {
    var f := (x + 0.5).Floor;
    assert f as real + 1.0 > x + 0.5 >= n as real;
    assert f + 1 > n;
  }

  lemma FloorIs(x: real, n: int)
    requires n as real <= x < n as real + 1.0
    ensures x.Floor == n
  {}

  lemma RoundedShift(x: real, n: int)
    ensures Rounded(x + n as real) == Rounded(x) + n as real
  {
    var f := (x + 0.5).Floor;
    assert (f + n) as real == f as real + n as real;
    FloorIs(x + n as real + 0.5, f + n);
    assert x + n as real + 0.5 == (x + n as real) + 0.5;
  }

  lemma RoundedShare(capital: real, percent: int)
    ensures capital >= 0.0 && percent >= 0 ==> Rounded(ShareOf(capital, percent)) >= 0.0
  {
    if capital >= 0.0 && percent >= 0 { MulNonneg(capital, percent as real); }
  }

  lemma SharesSum(capital: real, a: Percents)
    requires Sound(a)
    ensures ShareOf(capital, a[Cash]) + ShareOf(capital, a[FixedIncome]) + ShareOf(capital, a[Gold])
      + ShareOf(capital, a[EquityIndex]) + ShareOf(capital, a[MixedFund]) + ShareOf(capital, a[ShortTerm]) == capital
  {
    ShareAdds(capital, a[Cash], a[FixedIncome]);
    ShareAdds(capital, a[Cash] + a[FixedIncome], a[Gold]);
    ShareAdds(capital, a[Cash] + a[FixedIncome] + a[Gold], a[EquityIndex]);
    ShareAdds(capital, a[Cash] + a[FixedIncome] + a[Gold] + a[EquityIndex], a[MixedFund]);
    ShareAdds(capital, a[Cash] + a[FixedIncome] + a[Gold] + a[EquityIndex] + a[MixedFund], a[ShortTerm]);
    assert ShareOf(capital, 100) == capital;
    hide ShareOf;
  }

  lemma ShareAdds(capital: real, x: int, y: int)
    ensures ShareOf(capital, x + y) == ShareOf(capital, x) + ShareOf(capital, y)
  {
    var u, v := x as real, y as real;
    assert (x + y) as real == u + v;
    assert capital * (u + v) == capital * u + capital * v;
  }

  lemma AssignedIs(capital: real, a: Percents)
    requires Complete(a)
    ensures Assigned(capital, a, 5)
      == Rounded(ShareOf(capital, a[Cash])) + Rounded(ShareOf(capital, a[FixedIncome]))
         + Rounded(ShareOf(capital, a[Gold])) + Rounded(ShareOf(capital, a[EquityIndex]))
         + Rounded(ShareOf(capital, a[MixedFund]))
  {
    hide Assigned; hide Rounded; hide ShareOf;
    NothingAssigned(capital, a);
    AssignedStep(capital, a, 0);
    AssignedStep(capital, a, 1);
    AssignedStep(capital, a, 2);
    AssignedStep(capital, a, 3);
    AssignedStep(capital, a, 4);
  }

  /** The residual bucket is within two and a half toman of its exact share. */
  lemma ResidualNearShare(capital: real, a: Percents)
    requires Sound(a)
    ensures ShareOf(capital, a[ShortTerm]) - 2.5 <= Residual(capital, a) <= ShareOf(capital, a[ShortTerm]) + 2.5
  {
    hide ShareOf; hide Rounded; hide Assigned;
    AssignedIs(capital, a);
    SharesSum(capital, a);
    RoundedBounds(ShareOf(capital, a[Cash]));
    RoundedBounds(ShareOf(capital, a[FixedIncome]));
    RoundedBounds(ShareOf(capital, a[Gold]));
    RoundedBounds(ShareOf(capital, a[EquityIndex]));
    RoundedBounds(ShareOf(capital, a[MixedFund]));
  }

  /** Every item meets its executable minimum; the residual one up to its rounding slack. */
  lemma AmountsExecutable(p: Profile, i: nat)
    requires ValidProfile(p) && i < 6 && FinalPercents(p)[CATEGORIES[i]] != 0
    ensures AmountOf(p.capital, FinalPercents(p), i)
      >= MinimumToman(CATEGORIES[i]) as real - if i == 5 then 2.5 else 0.0
  {
    CapsSurvive(p);
    MinimumsHold(p, CATEGORIES[i]);
    var a := FinalPercents(p);
    hide FinalPercents; hide ShareOf; hide Rounded; hide Residual; hide MinimumToman;
    ResidualNearShare(p.capital, a);
    if i < 5 {
      RoundedAtLeast(ShareOf(p.capital, a[CATEGORIES[i]]), MinimumToman(CATEGORIES[i]));
    }
  }

  // ----- when the engine rejects its own result

  /** What is left of the capital over a multiple of 100 toman. */
  function OddMoney(capital: real): real { capital - 100.0 * (capital / 100.0).Floor as real }

  lemma ShareOfOddMoney(capital: real, percent: int)
    ensures var hundreds := (capital / 100.0).Floor;
      ShareOf(capital, percent) == ShareOf(OddMoney(capital), percent) + (hundreds * percent) as real
    ensures 0.0 <= OddMoney(capital) < 100.0
  {
    var hundreds := (capital / 100.0).Floor;
    var pct := percent as real;
    assert capital == OddMoney(capital) + 100.0 * hundreds as real;
    assert capital * pct == OddMoney(capital) * pct + 100.0 * (hundreds as real * pct);
    assert (hundreds * percent) as real == hundreds as real * pct;
  }

  lemma RoundedOddMoney(capital: real, percent: int)
    ensures Rounded(ShareOf(capital, percent))
      == Rounded(ShareOf(OddMoney(capital), percent)) + ((capital / 100.0).Floor * percent) as real
  {
    hide ShareOf; hide Rounded; hide OddMoney;
    ShareOfOddMoney(capital, percent);
    RoundedShift(ShareOf(OddMoney(capital), percent), (capital / 100.0).Floor * percent);
  }

  /** Whole hundreds never matter for the residual: only the odd money is rounded. */
  lemma ResidualOfOddMoney(capital: real, a: Percents)
    requires Sound(a)
    ensures Residual(capital, a)
      == Residual(OddMoney(capital), a) + ((capital / 100.0).Floor * a[ShortTerm]) as real
  {
    var h := (capital / 100.0).Floor;
    assert capital == OddMoney(capital) + 100.0 * h as real;
    hide ShareOf; hide Rounded; hide OddMoney; hide Assigned;
    AssignedIs(capital, a);
    AssignedIs(OddMoney(capital), a);
    RoundedOddMoney(capital, a[Cash]);
    RoundedOddMoney(capital, a[FixedIncome]);
    RoundedOddMoney(capital, a[Gold]);
    RoundedOddMoney(capital, a[EquityIndex]);
    RoundedOddMoney(capital, a[MixedFund]);
    HundredsSum(h, a[Cash], a[FixedIncome], a[Gold], a[EquityIndex], a[MixedFund], a[ShortTerm]);
  }

  lemma HundredsSum(h: int, c: int, f: int, g: int, e: int, m: int, s: int)
    requires c + f + g + e + m + s == 100
    ensures (h * c) as real + (h * f) as real + (h * g) as real + (h * e) as real + (h * m) as real + (h * s) as real
      == 100.0 * h as real
  {
    assert h * c + h * f + h * g + h * e + h * m + h * s == h * (c + f + g + e + m + s);
  }

  /**
   Exactly when the amounts are accepted. A profile that keeps a short-term share is always accepted; otherwise
   the five rounded shares of the odd money, below 100 toman, must not exceed it. In particular every capital
   that is a multiple of 100 is accepted.
   */
  lemma AcceptedIff(p: Profile)
    requires ValidProfile(p)
    ensures Residual(p.capital, FinalPercents(p)) >= 0.0 <==>
      FinalPercents(p)[ShortTerm] > 0 || Assigned(OddMoney(p.capital), FinalPercents(p), 5) <= OddMoney(p.capital)
    ensures OddMoney(p.capital) == 0.0 ==> Residual(p.capital, FinalPercents(p)) >= 0.0
  {
    CapsSurvive(p);
    MinimumsHold(p, ShortTerm);
    var a := FinalPercents(p);
    hide FinalPercents;
    ResidualNearShare(p.capital, a);
    ResidualOfOddMoney(p.capital, a);
    if OddMoney(p.capital) == 0.0 {
      NoOddMoney(a);
      if a[ShortTerm] == 0 { assert (p.capital / 100.0).Floor * a[ShortTerm] == 0; }
    }
  }

  lemma NoOddMoney(a: Percents)
    requires Complete(a)
    ensures Assigned(0.0, a, 5) == 0.0
  {
    AssignedIs(0.0, a);
    forall c: Category ensures Rounded(ShareOf(0.0, a[c])) == 0.0 {
      assert ShareOf(0.0, a[c]) == 0.0;
    }
  }

  /** A conservative profile without adjustments and 1,000,050 toman: the residual bucket comes out at minus one. */
  lemma RejectedExample(p: Profile)
    requires p.capital == 1000050.0 && p.risk == Conservative && p.liquidity == Low && p.hasEmergencyFund
    requires !p.monthlyIncome && p.horizon == OverFiveYears && p.maxDrawdown == 0.5 && p.style == Balanced
    requires !p.wantsTrading && p.maxTradingPercent == 0
    ensures ValidProfile(p) && Residual(p.capital, FinalPercents(p)) == -1.0
  {
    var a := Base(Conservative);
    NothingToDo(p);
    BaseComplete(Conservative);
    MinimumsKeep(p.capital, a);
    var r := FinalPercents(p);
    assert BelowMinimum(1000050.0, 5, EquityIndex) && BelowMinimum(1000050.0, 5, MixedFund);
    assert !BelowMinimum(1000050.0, 15, Gold);
    assert r[Cash] == 15 && r[Gold] == 15 && r[EquityIndex] == 0 && r[MixedFund] == 0 && r[ShortTerm] == 0;
    hide FinalPercents; hide Base; hide BelowMinimum;
    assert r[FixedIncome] == 70;
    RejectedAmounts(r);
  }

  lemma NothingToDo(p: Profile)
    requires p.risk == Conservative && p.liquidity == Low && p.hasEmergencyFund && !p.monthlyIncome
    requires p.horizon == OverFiveYears && p.maxDrawdown == 0.5 && p.style == Balanced && p.maxTradingPercent == 0
    ensures BeforeMinimums(p) == Base(Conservative)
  {
    var a := Base(Conservative);
    assert a[ShortTerm] == 0;
    hide Base; hide Moved; hide Shifted;
    assert BeforeCaps(p) == a;
    ZeroShift(a, ShortTerm, FixedIncome);
  }

  lemma RejectedAmounts(r: Percents)
    requires Complete(r) && r[Cash] == 15 && r[FixedIncome] == 70 && r[Gold] == 15
    requires r[EquityIndex] == 0 && r[MixedFund] == 0
    ensures Residual(1000050.0, r) == -1.0
  {
    AssignedIs(1000050.0, r);
    assert ShareOf(1000050.0, 15) == 150007.5 && ShareOf(1000050.0, 70) == 700035.0 && ShareOf(1000050.0, 0) == 0.0;
    assert Rounded(150007.5) == 150008.0 && Rounded(700035.0) == 700035.0 && Rounded(0.0) == 0.0;
  }
}
