/** The rules in their order, and the caps that survive all of them. */
module AllocationRules {
  import opened Common
  import opened Arith
  import opened Allocation

  // ----- the rules, one function each

  function AfterLiquidity(p: Profile, a: Percents): (r: Percents)
    requires Complete(a)
    ensures Complete(r)
  {
    match p.liquidity
    case High => Moved(a, 10, [ShortTerm, EquityIndex, Gold], Cash)
    case Medium => Moved(a, 5, [ShortTerm, EquityIndex], Cash)
    case Low => a
  }

  function AfterEmergency(p: Profile, a: Percents): (r: Percents)
    requires Complete(a)
    ensures Complete(r)
  {
    if p.hasEmergencyFund then a else Moved(a, 5, [ShortTerm, EquityIndex, Gold], Cash)
  }

  function AfterIncome(p: Profile, a: Percents): (r: Percents)
    requires Complete(a)
    ensures Complete(r)
  {
    if p.monthlyIncome then Moved(a, 10, [ShortTerm, EquityIndex, MixedFund, Gold], FixedIncome) else a
  }

  function AfterHorizon(p: Profile, a: Percents): (r: Percents)
    requires Complete(a)
    ensures Complete(r)
  {
    var months := HorizonMonths(p.horizon);
    if months <= 6 then Moved(a, 25, [ShortTerm, EquityIndex, MixedFund, Gold], FixedIncome)
    else if months <= 12 then Moved(a, 10, [ShortTerm, EquityIndex], FixedIncome)
    else a
  }

  function AfterDrawdown(p: Profile, a: Percents): (r: Percents)
    requires Complete(a)
    ensures Complete(r)
  {
    if p.maxDrawdown <= 0.10 then Moved(a, MaxInt(0, Risky(a) - 10), [ShortTerm, EquityIndex, MixedFund], FixedIncome)
    else if p.maxDrawdown <= 0.20 then
      Moved(a, MaxInt(0, Risky(a) - 30), [ShortTerm, EquityIndex, MixedFund], FixedIncome)
    else a
  }

  function TradingCap(p: Profile): int {
    var wanted := if p.wantsTrading then MinInt(p.maxTradingPercent, 20) else 0;
    var traded :=
      if p.tradingExperience.NoExperience? || p.tradingExperience.Beginner? then MinInt(wanted, 3) else wanted;
    if p.experience.NoExperience? || p.experience.Beginner? then MinInt(traded, 5) else traded
  }

  function AfterTrading(p: Profile, a: Percents): (r: Percents)
    requires Complete(a)
    ensures Complete(r)
  {
    var excess := MaxInt(0, a[ShortTerm] - TradingCap(p));
    Shifted(a, ShortTerm, FixedIncome, excess)
  }

  function AfterStyle(p: Profile, a: Percents): (r: Percents)
    requires Complete(a)
    ensures Complete(r)
  {
    if p.style == Passive then Shifted(a, ShortTerm, EquityIndex, a[ShortTerm]) else a
  }

  /** The percentages before the caps: liquidity, emergency fund, income and horizon served. */
  function BeforeCaps(p: Profile): (r: Percents)
    ensures Complete(r)
  {
    AfterHorizon(p, AfterIncome(p, AfterEmergency(p, AfterLiquidity(p, Base(p.risk)))))
  }

  /** The percentages before the minimum amounts are enforced. */
  function BeforeMinimums(p: Profile): (r: Percents)
    ensures Complete(r)
  {
    AfterStyle(p, AfterTrading(p, AfterDrawdown(p, BeforeCaps(p))))
  }

  function FinalPercents(p: Profile): (r: Percents)
    ensures Complete(r)
  {
    WithMinimums(p.capital, BeforeMinimums(p))
  }

  // ----- what each rule keeps

  lemma BaseComplete(risk: RiskTolerance)
    ensures Sound(Base(risk))
  {
    assert NonNegative(Base(risk));
  }

  lemma SumOf2(a: Percents, x: Category, y: Category)
    requires Complete(a)
    ensures SourcesSum(a, [x, y]) == a[x] + a[y]
  {
    assert [x, y][..1] == [x] && [x][..0] == [];
    assert SourcesSum(a, [x]) == SourcesSum(a, []) + a[x];
  }

  lemma SumOf3(a: Percents, x: Category, y: Category, z: Category)
    requires Complete(a)
    ensures SourcesSum(a, [x, y, z]) == a[x] + a[y] + a[z]
  {
    assert [x, y, z][..2] == [x, y];
    SumOf2(a, x, y);
  }

  /** The effect of a transfer on the figures the later rules rely on. */
  lemma TransferEffect(a: Percents, amount: int, sources: seq<Category>, target: Category)
    requires Sound(a) && amount >= 0 && DistinctSources(sources, target)
    ensures var r := Moved(a, amount, sources, target);
      && Sound(r)
      && r[target] == a[target] + MinInt(amount, SourcesSum(a, sources))
      && (forall c :: c !in sources && c != target ==> r[c] == a[c])
      && (forall c :: c in sources ==> 0 <= r[c] <= a[c])
  {
    MovedFromSound(a, amount, sources, target, 0);
    MovedMeaning(a, amount, sources, target);
    hide Moved; hide SourcesSum;
    var r := Moved(a, amount, sources, target);
    forall c | c in sources ensures r[c] <= a[c] {
      var i :| 0 <= i < |sources| && sources[i] == c;
    }
  }

  function LiquidityMove(p: Profile): int {
    match p.liquidity case High => 10 case Medium => 5 case Low => 0
  }

  function EmergencyMove(p: Profile): int { if p.hasEmergencyFund then 0 else 5 }

  lemma ThreeToCash(a: Percents, amount: int)
    requires Sound(a) && 0 <= amount <= a[ShortTerm] + a[EquityIndex] + a[Gold]
    ensures var r := Moved(a, amount, [ShortTerm, EquityIndex, Gold], Cash);
      Sound(r) && r[Cash] == a[Cash] + amount && r[FixedIncome] == a[FixedIncome] && r[MixedFund] == a[MixedFund]
  {
    hide Moved; hide SourcesSum;
    SumOf3(a, ShortTerm, EquityIndex, Gold);
    TransferEffect(a, amount, [ShortTerm, EquityIndex, Gold], Cash);
  }

  lemma TwoToCash(a: Percents, amount: int)
    requires Sound(a) && 0 <= amount <= a[ShortTerm] + a[EquityIndex]
    ensures var r := Moved(a, amount, [ShortTerm, EquityIndex], Cash);
      Sound(r) && r[Cash] == a[Cash] + amount && r[FixedIncome] == a[FixedIncome] && r[MixedFund] == a[MixedFund]
  {
    hide Moved; hide SourcesSum;
    SumOf2(a, ShortTerm, EquityIndex);
    TransferEffect(a, amount, [ShortTerm, EquityIndex], Cash);
  }

  /** Every base allocation holds enough volatile assets to serve both cash rules in full. */
  lemma BaseRoom(risk: RiskTolerance)
    ensures Sound(Base(risk)) && Base(risk)[FixedIncome] >= 20 && Base(risk)[Cash] >= 5
    ensures Base(risk)[ShortTerm] + Base(risk)[EquityIndex] >= 5
    ensures Base(risk)[ShortTerm] + Base(risk)[EquityIndex] + Base(risk)[Gold] >= 15
  {
    BaseComplete(risk);
  }

  /** The cash buffer is served in full: enough is always left to move. */
  lemma CashBuffer(p: Profile)
    ensures var a := AfterEmergency(p, AfterLiquidity(p, Base(p.risk)));
      && Sound(a)
      && a[Cash] == Base(p.risk)[Cash] + LiquidityMove(p) + EmergencyMove(p)
      && a[FixedIncome] == Base(p.risk)[FixedIncome]
      && a[MixedFund] == Base(p.risk)[MixedFund]
  {
    BaseRoom(p.risk);
    var b := Base(p.risk);
    hide Base; hide Moved;
    match p.liquidity {
      case High => ThreeToCash(b, 10);
      case Medium => TwoToCash(b, 5);
      case Low =>
    }
    var a := AfterLiquidity(p, b);
    assert a[ShortTerm] + a[EquityIndex] + a[Gold] >= 5;
    ThreeToCash(a, 5);
  }

  /** Later rules leave cash alone and only add to fixed income. */
  ghost predicate Defensive(before: Percents, after: Percents) {
    && Sound(before) && Sound(after)
    && after[Cash] == before[Cash]
    && after[FixedIncome] >= before[FixedIncome]
    && after[Gold] <= before[Gold]
  }

  /** Moving volatile percentages to fixed income is defensive, whatever the amount. */
  lemma ToFixedIncome(a: Percents, amount: int, sources: seq<Category>)
    requires Sound(a) && amount >= 0 && DistinctSources(sources, FixedIncome) && Cash !in sources
    ensures Defensive(a, Moved(a, amount, sources, FixedIncome))
    ensures Risky(Moved(a, amount, sources, FixedIncome)) <= Risky(a)
  {
    hide Moved; hide SourcesSum; hide DistinctSources;
    SourcesSumPositive(a, sources);
    TransferEffect(a, amount, sources, FixedIncome);
    var r := Moved(a, amount, sources, FixedIncome);
    assert forall c: Category :: c != FixedIncome ==> r[c] <= a[c];
  }

  lemma IncomeAndHorizonDefensive(p: Profile, a: Percents)
    requires Sound(a)
    ensures Defensive(a, AfterIncome(p, a)) && Risky(AfterIncome(p, a)) <= Risky(a)
    ensures Defensive(a, AfterHorizon(p, a)) && Risky(AfterHorizon(p, a)) <= Risky(a)
  {
    hide Moved; hide Sound; hide Risky;
    DefensiveToItself(a);
    ToFixedIncome(a, 10, [ShortTerm, EquityIndex, MixedFund, Gold]);
    ToFixedIncome(a, 25, [ShortTerm, EquityIndex, MixedFund, Gold]);
    ToFixedIncome(a, 10, [ShortTerm, EquityIndex]);
  }

  lemma DefensiveToItself(a: Percents)
    requires Sound(a)
    ensures Defensive(a, a)
  {}

  lemma SourcesSumPositive(a: Percents, sources: seq<Category>)
    requires Complete(a) && NonNegative(a)
    ensures SourcesSum(a, sources) >= 0
  {
    SourcesSumGrows(a, sources, 0);
  }

  function DrawdownCap(p: Profile): int {
    if p.maxDrawdown <= 0.10 then 10 else if p.maxDrawdown <= 0.20 then 30 else 100
  }

  /** After the drawdown rule growth and trading exposure is at most the cap, and not a percent less. */
  lemma DrawdownCaps(p: Profile, a: Percents)
    requires Sound(a)
    ensures Defensive(a, AfterDrawdown(p, a))
    ensures Risky(AfterDrawdown(p, a)) == MinInt(Risky(a), DrawdownCap(p))
  {
    hide Moved; hide SourcesSum;
    var three := [ShortTerm, EquityIndex, MixedFund];
    SumOf3(a, ShortTerm, EquityIndex, MixedFund);
    TransferEffect(a, MaxInt(0, Risky(a) - 10), three, FixedIncome);
    TransferEffect(a, MaxInt(0, Risky(a) - 30), three, FixedIncome);
  }

  lemma TradingCapRange(p: Profile)
    requires ValidProfile(p)
    ensures 0 <= TradingCap(p) <= 20
    ensures !p.wantsTrading ==> TradingCap(p) == 0
  {}

  lemma TradingCaps(p: Profile, a: Percents)
    requires Sound(a) && ValidProfile(p)
    ensures Defensive(a, AfterTrading(p, a))
    ensures AfterTrading(p, a)[ShortTerm] == MinInt(a[ShortTerm], TradingCap(p))
    ensures Risky(AfterTrading(p, a)) <= Risky(a)
  {
    TradingCapRange(p);
    hide TradingCap;
    ShiftedSound(a, ShortTerm, FixedIncome, MaxInt(0, a[ShortTerm] - TradingCap(p)));
  }

  lemma StyleKeepsCaps(p: Profile, a: Percents)
    requires Sound(a)
    ensures Defensive(a, AfterStyle(p, a))
    ensures AfterStyle(p, a)[ShortTerm] <= a[ShortTerm] && Risky(AfterStyle(p, a)) == Risky(a)
    ensures p.style == Passive ==> AfterStyle(p, a)[ShortTerm] == 0
  {
    ShiftedSound(a, ShortTerm, EquityIndex, a[ShortTerm]);
  }

  lemma {:induction false} KeptBounds(capital: real, a: Percents, c: Category)
    requires Complete(a) && NonNegative(a)
    ensures 0 <= Kept(capital, a, c) <= a[c]
  {}

  lemma MinimumsKeep(capital: real, a: Percents)
    requires Sound(a)
    ensures Defensive(a, WithMinimums(capital, a))
    ensures Risky(WithMinimums(capital, a)) <= Risky(a) && WithMinimums(capital, a)[ShortTerm] <= a[ShortTerm]
    ensures forall c: Category :: c != Cash && c != FixedIncome ==>
      WithMinimums(capital, a)[c] == if BelowMinimum(capital, a[c], c) then 0 else a[c]
  {
    hide BelowMinimum;
    RemovedSumIs(capital, a);
    hide RemovedSum;
    KeptBounds(capital, a, Gold);
    KeptBounds(capital, a, EquityIndex);
    KeptBounds(capital, a, MixedFund);
    KeptBounds(capital, a, ShortTerm);
    var r := WithMinimums(capital, a);
    assert r[FixedIncome] == a[FixedIncome] + RemovedSum(capital, a, |CATEGORIES|);
    assert r[Cash] == a[Cash] && r[Gold] == Kept(capital, a, Gold) && r[EquityIndex] == Kept(capital, a, EquityIndex);
    assert r[MixedFund] == Kept(capital, a, MixedFund) && r[ShortTerm] == Kept(capital, a, ShortTerm);
    forall c: Category ensures r[c] >= 0 {
      match c
      case Cash => case FixedIncome => case Gold => case EquityIndex => case MixedFund => case ShortTerm =>
    }
  }

  lemma RemovedSumIs(capital: real, a: Percents)
    requires Complete(a)
    ensures RemovedSum(capital, a, |CATEGORIES|)
      == a[Gold] + a[EquityIndex] + a[MixedFund] + a[ShortTerm] - Kept(capital, a, Gold) - Kept(capital, a, EquityIndex)
         - Kept(capital, a, MixedFund) - Kept(capital, a, ShortTerm)
  {
    hide Kept;
    assert RemovedSum(capital, a, 2) == 0 by { CashAndFixedKept(capital, a); }
    assert RemovedSum(capital, a, 4) == RemovedSum(capital, a, 3) + a[CATEGORIES[3]] - Kept(capital, a, CATEGORIES[3]);
    assert RemovedSum(capital, a, 6) == RemovedSum(capital, a, 5) + a[CATEGORIES[5]] - Kept(capital, a, CATEGORIES[5]);
  }

  lemma CashAndFixedKept(capital: real, a: Percents)
    requires Complete(a)
    ensures RemovedSum(capital, a, 2) == 0
  {
    assert RemovedSum(capital, a, 1) == 0;
  }

  /**
   The caps survive the pipeline. For every profile the final percentages are non-negative and sum to 100;
   short-term is within the trading cap, growth plus trading within the drawdown cap, a passive profile
   trades nothing, and cash is the base plus exactly the liquidity and emergency moves.
   */
  lemma CapsSurvive(p: Profile)
    requires ValidProfile(p)
    ensures Sound(FinalPercents(p))
    ensures FinalPercents(p)[ShortTerm] <= TradingCap(p)
    ensures Risky(FinalPercents(p)) <= DrawdownCap(p)
    ensures p.style == Passive ==> FinalPercents(p)[ShortTerm] == 0
    ensures FinalPercents(p)[Cash] == Base(p.risk)[Cash] + LiquidityMove(p) + EmergencyMove(p)
    ensures FinalPercents(p)[FixedIncome] >= Base(p.risk)[FixedIncome]
  {
    CashBuffer(p);
    BaseComplete(p.risk);
    var a2 := AfterEmergency(p, AfterLiquidity(p, Base(p.risk)));
    hide AfterIncome; hide AfterHorizon; hide AfterDrawdown; hide AfterTrading; hide AfterStyle; hide WithMinimums;
    hide AfterEmergency; hide AfterLiquidity; hide Base; hide BelowMinimum; hide TradingCap;
    IncomeAndHorizonDefensive(p, a2);
    var a3 := AfterIncome(p, a2);
    IncomeAndHorizonDefensive(p, a3);
    var a4 := AfterHorizon(p, a3);
    DrawdownCaps(p, a4);
    var a5 := AfterDrawdown(p, a4);
    TradingCaps(p, a5);
    var a6 := AfterTrading(p, a5);
    StyleKeepsCaps(p, a6);
    var a7 := AfterStyle(p, a6);
    MinimumsKeep(p.capital, a7);
    assert Risky(a7) <= 100 by { assert NonNegative(a7); }
  }

  /** What is left after the last rule is executable: every category is empty or large enough. */
  lemma MinimumsHold(p: Profile, c: Category)
    requires ValidProfile(p)
    ensures FinalPercents(p)[c] != 0 ==> ShareOf(p.capital, FinalPercents(p)[c]) >= MinimumToman(c) as real
  {
    hide FinalPercents;
    if c == Cash || c == FixedIncome { SafeMinimums(p); } else { VolatileMinimum(p, c); }
  }

  lemma SafeMinimums(p: Profile)
    requires ValidProfile(p)
    ensures ShareOf(p.capital, FinalPercents(p)[Cash]) >= 1.0
    ensures ShareOf(p.capital, FinalPercents(p)[FixedIncome]) >= 100000.0
  {
    hide FinalPercents;
    BaseRoom(p.risk);
    hide Base;
    CapsSurvive(p);
    ShareAtLeast(p.capital, FinalPercents(p)[Cash], 5);
    ShareAtLeast(p.capital, FinalPercents(p)[FixedIncome], 20);
  }

  lemma VolatileMinimum(p: Profile, c: Category)
    requires ValidProfile(p) && c != Cash && c != FixedIncome
    ensures FinalPercents(p)[c] != 0 ==> ShareOf(p.capital, FinalPercents(p)[c]) >= MinimumToman(c) as real
  {
    BeforeMinimumsSound(p);
    hide BeforeMinimums; hide WithMinimums; hide MinimumToman; hide ShareOf;
    MinimumsKeep(p.capital, BeforeMinimums(p));
  }

  lemma ShareAtLeast(capital: real, pct: int, least: nat)
    requires capital >= 1000000.0 && pct >= least
    ensures ShareOf(capital, pct) >= 10000.0 * least as real
  {
    MulMono2(1000000.0, capital, least as real, pct as real);
  }

  lemma BeforeMinimumsSound(p: Profile)
    requires ValidProfile(p)
    ensures Sound(BeforeMinimums(p))
  {
    CashBuffer(p);
    BaseComplete(p.risk);
    var a2 := AfterEmergency(p, AfterLiquidity(p, Base(p.risk)));
    hide AfterIncome; hide AfterHorizon; hide AfterDrawdown; hide AfterTrading; hide AfterStyle;
    hide AfterEmergency; hide AfterLiquidity; hide Base; hide TradingCap;
    IncomeAndHorizonDefensive(p, a2);
    IncomeAndHorizonDefensive(p, AfterIncome(p, a2));
    var a4 := AfterHorizon(p, AfterIncome(p, a2));
    DrawdownCaps(p, a4);
    TradingCaps(p, AfterDrawdown(p, a4));
    StyleKeepsCaps(p, AfterTrading(p, AfterDrawdown(p, a4)));
  }
}
