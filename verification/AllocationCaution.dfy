/** Two profiles compared: more caution, or less capital, never leaves more of any volatile category. */
module AllocationCaution {
  import opened Arith
  import opened Common
  import opened Allocation
  import opened AllocationRules

  /** Profile q is p with at most its drawdown tolerance, its trading cap and its capital. */
  ghost predicate MoreCautious(q: Profile, p: Profile) {
    && q == p.(capital := q.capital, maxDrawdown := q.maxDrawdown, experience := q.experience,
               tradingExperience := q.tradingExperience, wantsTrading := q.wantsTrading,
               maxTradingPercent := q.maxTradingPercent)
    && q.capital <= p.capital && q.maxDrawdown <= p.maxDrawdown && TradingCap(q) <= TradingCap(p)
  }

  /** Percentages x hold no more than y in every volatile category, and as much cash. */
  ghost predicate NoMoreVolatile(x: Percents, y: Percents)
    requires Complete(x) && Complete(y)
  {
    && x[Cash] == y[Cash] && x[Gold] <= y[Gold] && x[EquityIndex] <= y[EquityIndex]
    && x[MixedFund] <= y[MixedFund] && x[ShortTerm] <= y[ShortTerm]
  }

  lemma PartSums(a: Percents, x: Category, y: Category, z: Category)
    requires Complete(a)
    ensures SourcesSum(a, [x, y, z][..0]) == 0
    ensures SourcesSum(a, [x, y, z][..1]) == a[x]
    ensures SourcesSum(a, [x, y, z][..2]) == a[x] + a[y]
  {
    assert [x, y, z][..1] == [x] && [x][..0] == [] && [x, y, z][..2] == [x, y];
    assert SourcesSum(a, [x]) == SourcesSum(a, []) + a[x];
    SumOf2(a, x, y);
  }

  /** What a source keeps when drained of what is left of the amount after the earlier sources. */
  function Left(held: int, amount: int): int { held - MinInt(held, MaxInt(0, amount)) }

  /** r is a with an amount drained from the growth and trading categories, in the order of the rule. */
  ghost predicate Drained(r: Percents, a: Percents, amount: int)
    requires Complete(r) && Complete(a)
  {
    && r[Cash] == a[Cash] && r[Gold] == a[Gold]
    && r[ShortTerm] == Left(a[ShortTerm], amount)
    && r[EquityIndex] == Left(a[EquityIndex], amount - a[ShortTerm])
    && r[MixedFund] == Left(a[MixedFund], amount - a[ShortTerm] - a[EquityIndex])
  }

  lemma GivenByThree(a: Percents, amount: int)
    requires Complete(a)
    ensures var three := [ShortTerm, EquityIndex, MixedFund];
      && a[ShortTerm] - Given(a, amount, three, 0) == Left(a[ShortTerm], amount)
      && a[EquityIndex] - Given(a, amount, three, 1) == Left(a[EquityIndex], amount - a[ShortTerm])
      && a[MixedFund] - Given(a, amount, three, 2) == Left(a[MixedFund], amount - a[ShortTerm] - a[EquityIndex])
  {
    PartSums(a, ShortTerm, EquityIndex, MixedFund);
    hide SourcesSum;
  }

  lemma TransferredDrains(a: Percents, r: Percents, amount: int, moved: int)
    requires Complete(a) && Complete(r)
    requires Transferred(a, r, amount, [ShortTerm, EquityIndex, MixedFund], FixedIncome, moved)
    ensures Drained(r, a, amount)
  {
    var three := [ShortTerm, EquityIndex, MixedFund];
    GivenByThree(a, amount);
    hide SourcesSum; hide Given; hide Left;
    assert r[three[0]] == a[three[0]] - Given(a, amount, three, 0);
    assert r[three[1]] == a[three[1]] - Given(a, amount, three, 1);
    assert r[three[2]] == a[three[2]] - Given(a, amount, three, 2);
    assert Cash !in three && Gold !in three;
  }

  lemma TransferDrains(a: Percents, amount: int)
    requires Sound(a) && amount >= 0
    ensures Drained(Moved(a, amount, [ShortTerm, EquityIndex, MixedFund], FixedIncome), a, amount)
  {
    var three := [ShortTerm, EquityIndex, MixedFund];
    hide Moved; hide Transferred; hide Drained; hide SourcesSum;
    MovedMeaning(a, amount, three, FixedIncome);
    TransferredDrains(a, Moved(a, amount, three, FixedIncome), amount, MinInt(amount, SourcesSum(a, three)));
  }

  function Excess(p: Profile, a: Percents): int
    requires Complete(a)
  {
    MaxInt(0, Risky(a) - DrawdownCap(p))
  }

  lemma NothingDrained(a: Percents)
    requires Sound(a)
    ensures Drained(a, a, 0) && Risky(a) <= 100
  {
    assert NonNegative(a);
  }

  lemma DrawdownDrains(p: Profile, a: Percents)
    requires Sound(a)
    ensures Drained(AfterDrawdown(p, a), a, Excess(p, a))
  {
    NothingDrained(a);
    hide Moved; hide Drained; hide Sound; hide Risky;
    TransferDrains(a, MaxInt(0, Risky(a) - 10));
    TransferDrains(a, MaxInt(0, Risky(a) - 30));
  }

  lemma DrainedMonotone(x: Percents, y: Percents, a: Percents, more: int, less: int)
    requires Complete(x) && Complete(y) && Sound(a) && more >= less
    requires Drained(x, a, more) && Drained(y, a, less)
    ensures NoMoreVolatile(x, y)
  {
    assert NonNegative(a);
  }

  lemma DrawdownMonotone(q: Profile, p: Profile, a: Percents)
    requires Sound(a) && q.maxDrawdown <= p.maxDrawdown
    ensures NoMoreVolatile(AfterDrawdown(q, a), AfterDrawdown(p, a))
  {
    hide AfterDrawdown; hide Drained; hide Risky; hide NoMoreVolatile;
    DrawdownDrains(q, a);
    DrawdownDrains(p, a);
    DrainedMonotone(AfterDrawdown(q, a), AfterDrawdown(p, a), a, Excess(q, a), Excess(p, a));
  }

  lemma TradingMonotone(q: Profile, p: Profile, x: Percents, y: Percents)
    requires Complete(x) && Complete(y) && NoMoreVolatile(x, y) && TradingCap(q) <= TradingCap(p)
    ensures NoMoreVolatile(AfterTrading(q, x), AfterTrading(p, y))
  {
    hide TradingCap;
  }

  lemma StyleMonotone(q: Profile, p: Profile, x: Percents, y: Percents)
    requires Complete(x) && Complete(y) && NoMoreVolatile(x, y) && q.style == p.style
    ensures NoMoreVolatile(AfterStyle(q, x), AfterStyle(p, y))
  {}

  /** A category that is executable stays so with more capital and a larger percentage. */
  lemma KeptMonotone(c: real, d: real, i: int, j: int, category: Category)
    requires 0.0 <= c <= d && 0 <= i <= j
    ensures (if BelowMinimum(c, i, category) then 0 else i) <= (if BelowMinimum(d, j, category) then 0 else j)
  {
    if i > 0 && BelowMinimum(d, j, category) {
      ShareMonotone(c, d, i as real, j as real);
    }
  }

  lemma ShareMonotone(c: real, d: real, i: real, j: real)
    requires 0.0 <= c <= d && 0.0 <= i <= j
    ensures c * i / 100.0 <= d * j / 100.0
  {
    MulMono2(c, d, i, j);
  }

  lemma MinimumsMonotone(c: real, d: real, x: Percents, y: Percents)
    requires 0.0 <= c <= d && Sound(x) && Sound(y) && NoMoreVolatile(x, y)
    ensures NoMoreVolatile(WithMinimums(c, x), WithMinimums(d, y))
  {
    MinimumsKeep(c, x);
    MinimumsKeep(d, y);
    assert NonNegative(x) && NonNegative(y);
    hide WithMinimums; hide BelowMinimum;
    KeptMonotone(c, d, x[Gold], y[Gold], Gold);
    KeptMonotone(c, d, x[EquityIndex], y[EquityIndex], EquityIndex);
    KeptMonotone(c, d, x[MixedFund], y[MixedFund], MixedFund);
    KeptMonotone(c, d, x[ShortTerm], y[ShortTerm], ShortTerm);
  }

  /**
   Through the whole pipeline: a lower tolerance, a lower trading cap or less capital never leaves more gold,
   growth or trading exposure, nor less fixed income, and the same cash.
   */
  lemma CautionNeverAddsRisk(q: Profile, p: Profile)
    requires ValidProfile(q) && ValidProfile(p) && MoreCautious(q, p)
    ensures NoMoreVolatile(FinalPercents(q), FinalPercents(p))
    ensures FinalPercents(q)[FixedIncome] >= FinalPercents(p)[FixedIncome]
  {
    CapsSurvive(q);
    CapsSurvive(p);
    var a := BeforeCaps(p);
    SameBeforeCaps(q, p);
    BeforeCapsSound(p);
    hide AfterDrawdown; hide AfterTrading; hide AfterStyle; hide WithMinimums; hide TradingCap; hide BeforeCaps;
    DrawdownMonotone(q, p, a);
    TradingMonotone(q, p, AfterDrawdown(q, a), AfterDrawdown(p, a));
    StyleMonotone(q, p, AfterTrading(q, AfterDrawdown(q, a)), AfterTrading(p, AfterDrawdown(p, a)));
    BeforeMinimumsSound(q);
    BeforeMinimumsSound(p);
    MinimumsMonotone(q.capital, p.capital, BeforeMinimums(q), BeforeMinimums(p));
  }

  lemma SameBeforeCaps(q: Profile, p: Profile)
    requires MoreCautious(q, p)
    ensures BeforeCaps(q) == BeforeCaps(p)
    ensures BeforeMinimums(q) == AfterStyle(q, AfterTrading(q, AfterDrawdown(q, BeforeCaps(p))))
    ensures BeforeMinimums(p) == AfterStyle(p, AfterTrading(p, AfterDrawdown(p, BeforeCaps(p))))
  {
    hide Moved; hide AfterDrawdown; hide AfterTrading; hide AfterStyle; hide Base; hide TradingCap;
  }

  lemma BeforeCapsSound(p: Profile)
    ensures Sound(BeforeCaps(p))
  {
    CashBuffer(p);
    var a := AfterEmergency(p, AfterLiquidity(p, Base(p.risk)));
    hide AfterIncome; hide AfterHorizon; hide AfterEmergency; hide AfterLiquidity; hide Base;
    IncomeAndHorizonDefensive(p, a);
    IncomeAndHorizonDefensive(p, AfterIncome(p, a));
  }
}
