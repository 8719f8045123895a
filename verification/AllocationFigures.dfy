/**
 The allocation rules in percentage points: what every stage of a recommendation holds, how much each rule moves,
 and what a need for income or a shorter horizon does to the final percentages.
 */
module AllocationFigures {
  import opened Common
  import opened Allocation
  import opened AllocationRules

  /** What a source gives when an amount is asked of it: nothing below zero, and no more than it holds. */
  function Drawn(held: int, amount: int): int {
    if amount <= 0 then 0 else if amount <= held then amount else held
  }

  /** An amount drawn from short-term, equity, mixed and gold, in this order, into fixed income. */
  ghost predicate DrawnFromAll(before: Percents, after: Percents, amount: int)
    requires Complete(before) && Complete(after)
  {
    var s, e, m, g := before[ShortTerm], before[EquityIndex], before[MixedFund], before[Gold];
    && after[ShortTerm] == s - Drawn(s, amount)
    && after[EquityIndex] == e - Drawn(e, amount - s)
    && after[MixedFund] == m - Drawn(m, amount - (s + e))
    && after[Gold] == g - Drawn(g, amount - (s + e + m))
    && after[FixedIncome] == before[FixedIncome] + MinInt(amount, s + e + m + g)
    && after[Cash] == before[Cash]
  }

  /** An amount drawn from short-term, equity and mixed, in this order, into fixed income. */
  ghost predicate DrawnFromGrowth(before: Percents, after: Percents, amount: int)
    requires Complete(before) && Complete(after)
  {
    var s, e, m := before[ShortTerm], before[EquityIndex], before[MixedFund];
    && after[ShortTerm] == s - Drawn(s, amount)
    && after[EquityIndex] == e - Drawn(e, amount - s)
    && after[MixedFund] == m - Drawn(m, amount - (s + e))
    && after[FixedIncome] == before[FixedIncome] + MinInt(amount, s + e + m)
    && after[Gold] == before[Gold] && after[Cash] == before[Cash]
  }

  /** An amount drawn from short-term, then equity, into a target. */
  ghost predicate DrawnFromTwo(before: Percents, after: Percents, amount: int, target: Category)
    requires Complete(before) && Complete(after)
  {
    var s, e := before[ShortTerm], before[EquityIndex];
    && after[ShortTerm] == s - Drawn(s, amount)
    && after[EquityIndex] == e - Drawn(e, amount - s)
    && after[target] == before[target] + MinInt(amount, s + e)
    && forall c :: c != ShortTerm && c != EquityIndex && c != target ==> after[c] == before[c]
  }

  /** An amount drawn from short-term, then equity, then gold, into cash. */
  ghost predicate DrawnToCash(before: Percents, after: Percents, amount: int)
    requires Complete(before) && Complete(after)
  {
    var s, e, g := before[ShortTerm], before[EquityIndex], before[Gold];
    && after[ShortTerm] == s - Drawn(s, amount)
    && after[EquityIndex] == e - Drawn(e, amount - s)
    && after[Gold] == g - Drawn(g, amount - (s + e))
    && after[Cash] == before[Cash] + MinInt(amount, s + e + g)
    && after[FixedIncome] == before[FixedIncome] && after[MixedFund] == before[MixedFund]
  }

  ghost predicate Holds(a: Percents, cash: int, fixed: int, gold: int, equity: int, mixed: int, short: int)
    requires Complete(a)
  {
    && a[Cash] == cash && a[FixedIncome] == fixed && a[Gold] == gold
    && a[EquityIndex] == equity && a[MixedFund] == mixed && a[ShortTerm] == short
  }

  // ----- the stages

  ghost predicate StartsFrom(risk: RiskTolerance, a: Percents)
    requires Complete(a)
  {
    match risk
    case Conservative => Holds(a, 15, 60, 15, 5, 5, 0)
    case Moderate => Holds(a, 10, 40, 20, 20, 5, 5)
    case Aggressive => Holds(a, 5, 20, 15, 40, 5, 15)
  }

  ghost predicate LiquidityServed(p: Profile, before: Percents, after: Percents)
    requires Complete(before) && Complete(after)
  {
    match p.liquidity
    case High => DrawnToCash(before, after, 10)
    case Medium => DrawnFromTwo(before, after, 5, Cash)
    case Low => after == before
  }

  ghost predicate EmergencyServed(p: Profile, before: Percents, after: Percents)
    requires Complete(before) && Complete(after)
  {
    if p.hasEmergencyFund then after == before else DrawnToCash(before, after, 5)
  }

  ghost predicate IncomeServed(p: Profile, before: Percents, after: Percents)
    requires Complete(before) && Complete(after)
  {
    if p.monthlyIncome then DrawnFromAll(before, after, 10) else after == before
  }

  /** Up to six months, up to a year, or longer. */
  function HorizonClass(h: Horizon): nat {
    match h
    case Days => 0 case OneToFourWeeks => 0 case OneToThreeMonths => 0 case ThreeToSixMonths => 0
    case SixToTwelveMonths => 1
    case OneToThreeYears => 2 case ThreeToFiveYears => 2 case OverFiveYears => 2
  }

  ghost predicate HorizonServed(p: Profile, before: Percents, after: Percents)
    requires Complete(before) && Complete(after)
  {
    if HorizonClass(p.horizon) == 0 then DrawnFromAll(before, after, 25)
    else if HorizonClass(p.horizon) == 1 then DrawnFromTwo(before, after, 10, FixedIncome)
    else after == before
  }

  ghost predicate DrawdownServed(p: Profile, before: Percents, after: Percents)
    requires Complete(before) && Complete(after)
  {
    var exposure := before[EquityIndex] + before[MixedFund] + before[ShortTerm];
    if p.maxDrawdown <= 0.10 then DrawnFromGrowth(before, after, if exposure > 10 then exposure - 10 else 0)
    else if p.maxDrawdown <= 0.20 then DrawnFromGrowth(before, after, if exposure > 30 then exposure - 30 else 0)
    else after == before
  }

  /** The largest trading share: nothing unless wanted, 20 at most, 3 for new traders, 5 for new investors. */
  ghost predicate TradingLimit(p: Profile, cap: int) {
    var newTrader := p.tradingExperience == NoExperience || p.tradingExperience == Beginner;
    var newInvestor := p.experience == NoExperience || p.experience == Beginner;
    && (!p.wantsTrading ==> cap == 0)
    && (p.wantsTrading ==>
          && cap <= p.maxTradingPercent && cap <= 20 && (newTrader ==> cap <= 3) && (newInvestor ==> cap <= 5)
          && (cap == p.maxTradingPercent || cap == 20 || (newTrader && cap == 3) || (newInvestor && cap == 5)))
  }

  ghost predicate TradingServed(p: Profile, before: Percents, after: Percents)
    requires Complete(before) && Complete(after)
  {
    exists cap :: TradingLimit(p, cap) && ShortTermCut(before, after, cap)
  }

  /** The short-term share above a limit goes to fixed income. */
  ghost predicate ShortTermCut(before: Percents, after: Percents, cap: int)
    requires Complete(before) && Complete(after)
  {
    var excess := if before[ShortTerm] > cap then before[ShortTerm] - cap else 0;
    Holds(after, before[Cash], before[FixedIncome] + excess, before[Gold], before[EquityIndex], before[MixedFund],
          before[ShortTerm] - excess)
  }

  ghost predicate StyleServed(p: Profile, before: Percents, after: Percents)
    requires Complete(before) && Complete(after)
  {
    if p.style == Passive then
      Holds(after, before[Cash], before[FixedIncome], before[Gold], before[EquityIndex] + before[ShortTerm],
            before[MixedFund], 0)
    else after == before
  }

  /** What is left of a percentage that needs an amount of toman to be executable. */
  ghost function Executable(capital: real, percent: int, minimum: real): int {
    if capital * percent as real / 100.0 < minimum then 0 else percent
  }

  ghost predicate MinimumsServed(p: Profile, before: Percents, after: Percents)
    requires Complete(before) && Complete(after)
  {
    && after[Gold] == Executable(p.capital, before[Gold], 100000.0)
    && after[EquityIndex] == Executable(p.capital, before[EquityIndex], 100000.0)
    && after[MixedFund] == Executable(p.capital, before[MixedFund], 100000.0)
    && after[ShortTerm] == Executable(p.capital, before[ShortTerm], 500000.0)
    && after[Cash] == before[Cash]
    && after[FixedIncome] == before[FixedIncome]
         + (before[Gold] - after[Gold]) + (before[EquityIndex] - after[EquityIndex])
         + (before[MixedFund] - after[MixedFund]) + (before[ShortTerm] - after[ShortTerm])
  }

  // ----- the transfers of the program

  lemma PrefixSums(a: Percents, x: Category, y: Category, z: Category, w: Category)
    requires Complete(a)
    ensures SourcesSum(a, []) == 0 && SourcesSum(a, [x]) == a[x] && SourcesSum(a, [x, y]) == a[x] + a[y]
    ensures SourcesSum(a, [x, y, z]) == a[x] + a[y] + a[z]
    ensures SourcesSum(a, [x, y, z, w]) == a[x] + a[y] + a[z] + a[w]
  {
    assert [x][..0] == [];
    SumOf2(a, x, y);
    SumOf3(a, x, y, z);
    assert [x, y, z, w][..3] == [x, y, z];
  }

  /** What one source of a greedy transfer is left with. */
  lemma SourceGives(a: Percents, r: Percents, amount: int, sources: seq<Category>, target: Category, moved: int,
                    i: nat, earlier: seq<Category>)
    requires Complete(a) && Transferred(a, r, amount, sources, target, moved) && NonNegative(a)
    requires i < |sources| && earlier == sources[..i]
    ensures Complete(r)
    ensures r[sources[i]] == a[sources[i]] - Drawn(a[sources[i]], amount - SourcesSum(a, earlier))
  {
    hide SourcesSum;
    assert r[sources[i]] == a[sources[i]] - Given(a, amount, sources, i);
  }

  lemma OtherStays(a: Percents, r: Percents, amount: int, sources: seq<Category>, target: Category, moved: int,
                   c: Category)
    requires Complete(a) && Transferred(a, r, amount, sources, target, moved)
    requires c !in sources && c != target
    ensures Complete(r) && r[c] == a[c]
  {}

  lemma TargetGains(a: Percents, r: Percents, amount: int, sources: seq<Category>, target: Category, moved: int)
    requires Complete(a) && Transferred(a, r, amount, sources, target, moved)
    ensures Complete(r) && r[target] == a[target] + MinInt(amount, SourcesSum(a, sources))
  {
    hide SourcesSum;
  }

  lemma MovedIsSound(a: Percents, amount: int, sources: seq<Category>, target: Category)
    requires Sound(a) && amount >= 0 && DistinctSources(sources, target)
    ensures Sound(Moved(a, amount, sources, target))
    ensures Transferred(a, Moved(a, amount, sources, target), amount, sources, target,
                        MinInt(amount, SourcesSum(a, sources)))
    ensures NonNegative(a)
  {
    MovedFromSound(a, amount, sources, target, 0);
    MovedMeaning(a, amount, sources, target);
    hide SourcesSum; hide Transferred; hide DistinctSources; hide MovedFrom;
  }

  lemma TransfersDistinct()
    ensures DistinctSources([ShortTerm, EquityIndex, MixedFund, Gold], FixedIncome)
    ensures DistinctSources([ShortTerm, EquityIndex, MixedFund], FixedIncome)
    ensures DistinctSources([ShortTerm, EquityIndex, Gold], Cash)
    ensures DistinctSources([ShortTerm, EquityIndex], FixedIncome)
    ensures DistinctSources([ShortTerm, EquityIndex], Cash)
  {}

  lemma SoundComplete(a: Percents)
    requires Sound(a)
    ensures Complete(a)
  {}

  /** The equations of a drawn source, by its position and what the sources before it hold. */
  lemma SourceDrawn(a: Percents, r: Percents, amount: int, sources: seq<Category>, target: Category, moved: int,
                    i: nat, c: Category, earlier: seq<Category>, held: int)
    requires Complete(a) && Transferred(a, r, amount, sources, target, moved) && NonNegative(a)
    requires i < |sources| && sources[i] == c && sources[..i] == earlier && SourcesSum(a, earlier) == held
    ensures Complete(r) && r[c] == a[c] - Drawn(a[c], amount - held)
  {
    SourceGives(a, r, amount, sources, target, moved, i, earlier);
    hide SourcesSum; hide Transferred; hide Drawn;
  }

  lemma FirstTwoDrawn(a: Percents, r: Percents, amount: int, sources: seq<Category>, target: Category, moved: int)
    requires Complete(a) && Transferred(a, r, amount, sources, target, moved) && NonNegative(a)
    requires |sources| >= 2 && sources[..2] == [ShortTerm, EquityIndex]
    ensures Complete(r)
    ensures r[ShortTerm] == a[ShortTerm] - Drawn(a[ShortTerm], amount)
    ensures r[EquityIndex] == a[EquityIndex] - Drawn(a[EquityIndex], amount - a[ShortTerm])
  {
    PrefixSums(a, ShortTerm, EquityIndex, Gold, Gold);
    hide SourcesSum; hide Transferred; hide Drawn; hide NonNegative; hide Complete;
    var two := sources[..2];
    assert sources[0] == two[0] && sources[1] == two[1] && sources[..0] == [];
    assert sources[..1] == two[..1] == [ShortTerm];
    SourceDrawn(a, r, amount, sources, target, moved, 0, ShortTerm, [], 0);
    SourceDrawn(a, r, amount, sources, target, moved, 1, EquityIndex, [ShortTerm], a[ShortTerm]);
  }

  /** The third source after short-term and equity. */
  lemma ThirdDrawn(a: Percents, r: Percents, amount: int, sources: seq<Category>, target: Category, moved: int,
                   third: Category)
    requires Complete(a) && Transferred(a, r, amount, sources, target, moved) && NonNegative(a)
    requires |sources| >= 3 && sources[..3] == [ShortTerm, EquityIndex, third]
    ensures Complete(r)
    ensures r[third] == a[third] - Drawn(a[third], amount - (a[ShortTerm] + a[EquityIndex]))
  {
    PrefixSums(a, ShortTerm, EquityIndex, third, third);
    hide SourcesSum; hide Transferred; hide Drawn; hide NonNegative; hide Complete;
    var three := sources[..3];
    assert sources[2] == three[2] && sources[..2] == three[..2] == [ShortTerm, EquityIndex];
    SourceDrawn(a, r, amount, sources, target, moved, 2, third, [ShortTerm, EquityIndex],
                a[ShortTerm] + a[EquityIndex]);
  }

  /** Gold as the last of four sources. */
  lemma GoldDrawnLast(a: Percents, r: Percents, amount: int, moved: int)
    requires Complete(a) && NonNegative(a)
    requires Transferred(a, r, amount, [ShortTerm, EquityIndex, MixedFund, Gold], FixedIncome, moved)
    ensures Complete(r)
    ensures r[Gold] == a[Gold] - Drawn(a[Gold], amount - (a[ShortTerm] + a[EquityIndex] + a[MixedFund]))
  {
    PrefixSums(a, ShortTerm, EquityIndex, MixedFund, Gold);
    hide SourcesSum; hide Transferred; hide Drawn; hide NonNegative; hide Complete;
    SourceDrawn(a, r, amount, [ShortTerm, EquityIndex, MixedFund, Gold], FixedIncome, moved, 3, Gold,
                [ShortTerm, EquityIndex, MixedFund], a[ShortTerm] + a[EquityIndex] + a[MixedFund]);
  }

  lemma TotalDrawn(a: Percents, x: Category, y: Category, z: Category, w: Category)
    requires Complete(a)
    ensures SourcesSum(a, [x, y]) == a[x] + a[y]
    ensures SourcesSum(a, [x, y, z]) == a[x] + a[y] + a[z]
    ensures SourcesSum(a, [x, y, z, w]) == a[x] + a[y] + a[z] + a[w]
  {
    PrefixSums(a, x, y, z, w);
  }

  lemma AllDrawnParts(a: Percents, r: Percents, amount: int, from: seq<Category>, moved: int)
    requires Complete(a) && NonNegative(a) && from == [ShortTerm, EquityIndex, MixedFund, Gold]
    requires Transferred(a, r, amount, from, FixedIncome, moved)
    ensures Complete(r) && DrawnFromAll(a, r, amount)
  {
    TotalDrawn(a, ShortTerm, EquityIndex, MixedFund, Gold);
    hide SourcesSum; hide Drawn; hide Transferred; hide NonNegative; hide Complete; hide MinInt;
    FirstTwoDrawn(a, r, amount, from, FixedIncome, moved);
    ThirdDrawn(a, r, amount, from, FixedIncome, moved, MixedFund);
    GoldDrawnLast(a, r, amount, moved);
    TargetGains(a, r, amount, from, FixedIncome, moved);
    OtherStays(a, r, amount, from, FixedIncome, moved, Cash);
  }

  lemma AllDrawn(a: Percents, amount: int)
    requires Sound(a) && amount >= 0
    ensures Complete(a) && Sound(Moved(a, amount, [ShortTerm, EquityIndex, MixedFund, Gold], FixedIncome))
    ensures DrawnFromAll(a, Moved(a, amount, [ShortTerm, EquityIndex, MixedFund, Gold], FixedIncome), amount)
  {
    SoundComplete(a);
    TransfersDistinct();
    var from := [ShortTerm, EquityIndex, MixedFund, Gold];
    MovedIsSound(a, amount, from, FixedIncome);
    hide Moved; hide SourcesSum; hide Sound; hide Transferred; hide DistinctSources; hide NonNegative; hide Complete;
    hide DrawnFromAll; hide MinInt;
    AllDrawnParts(a, Moved(a, amount, from, FixedIncome), amount, from, MinInt(amount, SourcesSum(a, from)));
  }

  lemma GrowthDrawnParts(a: Percents, r: Percents, amount: int, from: seq<Category>, moved: int)
    requires Complete(a) && NonNegative(a) && from == [ShortTerm, EquityIndex, MixedFund]
    requires Transferred(a, r, amount, from, FixedIncome, moved)
    ensures Complete(r) && DrawnFromGrowth(a, r, amount)
  {
    TotalDrawn(a, ShortTerm, EquityIndex, MixedFund, Gold);
    hide SourcesSum; hide Drawn; hide Transferred; hide NonNegative; hide Complete; hide MinInt;
    FirstTwoDrawn(a, r, amount, from, FixedIncome, moved);
    ThirdDrawn(a, r, amount, from, FixedIncome, moved, MixedFund);
    TargetGains(a, r, amount, from, FixedIncome, moved);
    OtherStays(a, r, amount, from, FixedIncome, moved, Cash);
    OtherStays(a, r, amount, from, FixedIncome, moved, Gold);
  }

  lemma GrowthDrawn(a: Percents, amount: int)
    requires Sound(a) && amount >= 0
    ensures Complete(a) && Sound(Moved(a, amount, [ShortTerm, EquityIndex, MixedFund], FixedIncome))
    ensures DrawnFromGrowth(a, Moved(a, amount, [ShortTerm, EquityIndex, MixedFund], FixedIncome), amount)
  {
    SoundComplete(a);
    TransfersDistinct();
    var from := [ShortTerm, EquityIndex, MixedFund];
    MovedIsSound(a, amount, from, FixedIncome);
    hide Moved; hide SourcesSum; hide Sound; hide Transferred; hide DistinctSources; hide NonNegative; hide Complete;
    hide DrawnFromGrowth; hide MinInt;
    GrowthDrawnParts(a, Moved(a, amount, from, FixedIncome), amount, from, MinInt(amount, SourcesSum(a, from)));
  }

  lemma CashDrawnParts(a: Percents, r: Percents, amount: int, from: seq<Category>, moved: int)
    requires Complete(a) && NonNegative(a) && from == [ShortTerm, EquityIndex, Gold]
    requires Transferred(a, r, amount, from, Cash, moved)
    ensures Complete(r) && DrawnToCash(a, r, amount)
  {
    TotalDrawn(a, ShortTerm, EquityIndex, Gold, Cash);
    hide SourcesSum; hide Drawn; hide Transferred; hide NonNegative; hide Complete; hide MinInt;
    FirstTwoDrawn(a, r, amount, from, Cash, moved);
    ThirdDrawn(a, r, amount, from, Cash, moved, Gold);
    TargetGains(a, r, amount, from, Cash, moved);
    OtherStays(a, r, amount, from, Cash, moved, FixedIncome);
    OtherStays(a, r, amount, from, Cash, moved, MixedFund);
  }

  lemma CashDrawn(a: Percents, amount: int)
    requires Sound(a) && amount >= 0
    ensures Complete(a) && Sound(Moved(a, amount, [ShortTerm, EquityIndex, Gold], Cash))
    ensures DrawnToCash(a, Moved(a, amount, [ShortTerm, EquityIndex, Gold], Cash), amount)
  {
    SoundComplete(a);
    TransfersDistinct();
    var from := [ShortTerm, EquityIndex, Gold];
    MovedIsSound(a, amount, from, Cash);
    hide Moved; hide SourcesSum; hide Sound; hide Transferred; hide DistinctSources; hide NonNegative; hide Complete;
    hide DrawnToCash; hide MinInt;
    CashDrawnParts(a, Moved(a, amount, from, Cash), amount, from, MinInt(amount, SourcesSum(a, from)));
  }

  lemma TwoDrawnParts(a: Percents, r: Percents, amount: int, from: seq<Category>, target: Category, moved: int)
    requires Complete(a) && NonNegative(a) && from == [ShortTerm, EquityIndex]
    requires Transferred(a, r, amount, from, target, moved)
    ensures Complete(r) && DrawnFromTwo(a, r, amount, target)
  {
    TotalDrawn(a, ShortTerm, EquityIndex, Gold, MixedFund);
    hide SourcesSum; hide Drawn; hide Transferred; hide NonNegative; hide MinInt;
    FirstTwoDrawn(a, r, amount, from, target, moved);
    TargetGains(a, r, amount, from, target, moved);
    forall c | c != ShortTerm && c != EquityIndex && c != target ensures r[c] == a[c] {
      OtherStays(a, r, amount, from, target, moved, c);
    }
  }

  lemma TwoDrawn(a: Percents, amount: int, target: Category)
    requires Sound(a) && amount >= 0 && (target == Cash || target == FixedIncome)
    ensures Complete(a) && Sound(Moved(a, amount, [ShortTerm, EquityIndex], target))
    ensures DrawnFromTwo(a, Moved(a, amount, [ShortTerm, EquityIndex], target), amount, target)
  {
    SoundComplete(a);
    TransfersDistinct();
    var from := [ShortTerm, EquityIndex];
    MovedIsSound(a, amount, from, target);
    hide Moved; hide SourcesSum; hide Sound; hide Transferred; hide DistinctSources; hide NonNegative; hide Complete;
    hide DrawnFromTwo; hide MinInt;
    TwoDrawnParts(a, Moved(a, amount, from, target), amount, from, target, MinInt(amount, SourcesSum(a, from)));
  }

  // ----- the rules of the program

  lemma BaseStarts(risk: RiskTolerance)
    ensures Sound(Base(risk)) && StartsFrom(risk, Base(risk))
  {
    BaseComplete(risk);
  }

  lemma CashRulesServe(p: Profile, a: Percents)
    requires Sound(a)
    ensures Sound(AfterLiquidity(p, a)) && LiquidityServed(p, a, AfterLiquidity(p, a))
    ensures Sound(AfterEmergency(p, a)) && EmergencyServed(p, a, AfterEmergency(p, a))
  {
    hide Moved; hide Sound; hide DrawnToCash; hide DrawnFromTwo;
    CashDrawn(a, 10);
    CashDrawn(a, 5);
    TwoDrawn(a, 5, Cash);
  }

  lemma IncomeRuleServes(p: Profile, a: Percents)
    requires Sound(a)
    ensures Sound(AfterIncome(p, a)) && IncomeServed(p, a, AfterIncome(p, a))
  {
    hide Moved; hide Sound; hide DrawnFromAll;
    AllDrawn(a, 10);
  }

  lemma HorizonRuleServes(p: Profile, a: Percents)
    requires Sound(a)
    ensures Sound(AfterHorizon(p, a)) && HorizonServed(p, a, AfterHorizon(p, a))
  {
    hide Moved; hide Sound; hide DrawnFromAll; hide DrawnFromTwo;
    AllDrawn(a, 25);
    TwoDrawn(a, 10, FixedIncome);
  }

  lemma DrawdownRuleServes(p: Profile, a: Percents)
    requires Sound(a)
    ensures Sound(AfterDrawdown(p, a)) && DrawdownServed(p, a, AfterDrawdown(p, a))
  {
    SoundComplete(a);
    hide Moved; hide Sound; hide DrawnFromGrowth;
    GrowthDrawn(a, MaxInt(0, Risky(a) - 10));
    GrowthDrawn(a, MaxInt(0, Risky(a) - 30));
  }

  lemma TradingRuleServes(p: Profile, a: Percents)
    requires Sound(a) && ValidProfile(p)
    ensures Sound(AfterTrading(p, a)) && TradingServed(p, a, AfterTrading(p, a))
  {
    TradingCaps(p, a);
    assert TradingLimit(p, TradingCap(p));
    hide TradingCap; hide TradingLimit;
    assert ShortTermCut(a, AfterTrading(p, a), TradingCap(p));
  }

  lemma StyleRuleServes(p: Profile, a: Percents)
    requires Sound(a)
    ensures Sound(AfterStyle(p, a)) && StyleServed(p, a, AfterStyle(p, a))
  {
    StyleKeepsCaps(p, a);
  }

  lemma KeptIsExecutable(capital: real, percent: int, c: Category)
    ensures (if BelowMinimum(capital, percent, c) then 0 else percent)
      == Executable(capital, percent, match c case Cash => 1.0 case ShortTerm => 500000.0 case _ => 100000.0)
  {}

  lemma MinimumRuleServes(p: Profile, a: Percents)
    requires Sound(a)
    ensures Sound(WithMinimums(p.capital, a)) && MinimumsServed(p, a, WithMinimums(p.capital, a))
  {
    MinimumsKeep(p.capital, a);
    KeptIsExecutable(p.capital, a[Gold], Gold);
    KeptIsExecutable(p.capital, a[EquityIndex], EquityIndex);
    KeptIsExecutable(p.capital, a[MixedFund], MixedFund);
    KeptIsExecutable(p.capital, a[ShortTerm], ShortTerm);
    hide WithMinimums; hide BelowMinimum; hide Executable;
  }

  // ----- a whole recommendation

  /** The nine stages of a recommendation, from the base table to the final percentages. */
  datatype Stages = Stages(
    base: Percents, liquid: Percents, safe: Percents, income: Percents, timed: Percents, calm: Percents,
    traded: Percents, styled: Percents, executable: Percents)

  ghost predicate AllComplete(t: Stages) {
    && Complete(t.base) && Complete(t.liquid) && Complete(t.safe) && Complete(t.income) && Complete(t.timed)
    && Complete(t.calm) && Complete(t.traded) && Complete(t.styled) && Complete(t.executable)
  }

  ghost predicate AllSound(t: Stages) {
    && Sound(t.base) && Sound(t.liquid) && Sound(t.safe) && Sound(t.income) && Sound(t.timed)
    && Sound(t.calm) && Sound(t.traded) && Sound(t.styled) && Sound(t.executable)
  }

  /** Every stage follows from the one before in percentage points. */
  ghost predicate Recommends(p: Profile, t: Stages) {
    && AllComplete(t)
    && StartsFrom(p.risk, t.base)
    && LiquidityServed(p, t.base, t.liquid)
    && EmergencyServed(p, t.liquid, t.safe)
    && IncomeServed(p, t.safe, t.income)
    && HorizonServed(p, t.income, t.timed)
    && DrawdownServed(p, t.timed, t.calm)
    && TradingServed(p, t.calm, t.traded)
    && StyleServed(p, t.traded, t.styled)
    && MinimumsServed(p, t.styled, t.executable)
  }

  ghost function StagesOf(p: Profile): Stages {
    var a0 := Base(p.risk);
    var a1 := AfterLiquidity(p, a0);
    var a2 := AfterEmergency(p, a1);
    var a3 := AfterIncome(p, a2);
    var a4 := AfterHorizon(p, a3);
    var a5 := AfterDrawdown(p, a4);
    var a6 := AfterTrading(p, a5);
    var a7 := AfterStyle(p, a6);
    Stages(a0, a1, a2, a3, a4, a5, a6, a7, WithMinimums(p.capital, a7))
  }

  /** The final percentages are the last of stages that obey the rules in percentage points. */
  lemma FinalInFigures(p: Profile)
    requires ValidProfile(p)
    ensures Recommends(p, StagesOf(p)) && AllSound(StagesOf(p))
    ensures StagesOf(p).executable == FinalPercents(p)
  {
    var t := StagesOf(p);
    hide AfterLiquidity; hide AfterEmergency; hide AfterIncome; hide AfterHorizon; hide AfterDrawdown; hide Base;
    hide AfterTrading; hide AfterStyle; hide WithMinimums; hide Sound; hide ValidProfile;
    hide LiquidityServed; hide EmergencyServed; hide IncomeServed; hide HorizonServed; hide DrawdownServed;
    hide TradingServed; hide StyleServed; hide MinimumsServed; hide StartsFrom;
    BaseStarts(p.risk);
    CashRulesServe(p, t.base);
    CashRulesServe(p, t.liquid);
    IncomeRuleServes(p, t.safe);
    HorizonRuleServes(p, t.income);
    DrawdownRuleServes(p, t.timed);
    TradingRuleServes(p, t.calm);
    StyleRuleServes(p, t.traded);
    MinimumRuleServes(p, t.styled);
    StagesComplete(p);
  }

  lemma StagesComplete(p: Profile)
    ensures AllComplete(StagesOf(p)) && StagesOf(p).executable == FinalPercents(p)
  {
    hide AfterLiquidity; hide AfterEmergency; hide AfterIncome; hide AfterHorizon; hide AfterDrawdown; hide Base;
    hide AfterTrading; hide AfterStyle; hide WithMinimums;
  }

  // ----- the figures leave no choice

  ghost predicate SamePercents(x: Percents, y: Percents)
    requires Complete(x) && Complete(y)
  {
    Holds(x, y[Cash], y[FixedIncome], y[Gold], y[EquityIndex], y[MixedFund], y[ShortTerm])
  }

  lemma SameMap(x: Percents, y: Percents)
    requires Complete(x) && Complete(y) && SamePercents(x, y)
    ensures x == y
  {
    forall c: Category ensures x[c] == y[c] {
      match c
      case Cash => case FixedIncome => case Gold => case EquityIndex => case MixedFund => case ShortTerm =>
    }
    assert x.Keys == y.Keys;
  }

  lemma OneCap(p: Profile, x: int, y: int)
    requires TradingLimit(p, x) && TradingLimit(p, y)
    ensures x == y
  {}

  lemma CashStagesSame(p: Profile, a: Percents, x: Percents, y: Percents)
    requires Complete(a) && Complete(x) && Complete(y)
    ensures LiquidityServed(p, a, x) && LiquidityServed(p, a, y) ==> x == y
    ensures EmergencyServed(p, a, x) && EmergencyServed(p, a, y) ==> x == y
  {
    if SamePercents(x, y) { SameMap(x, y); }
  }

  lemma IncomeStagesSame(p: Profile, a: Percents, x: Percents, y: Percents)
    requires Complete(a) && Complete(x) && Complete(y)
    ensures IncomeServed(p, a, x) && IncomeServed(p, a, y) ==> x == y
    ensures HorizonServed(p, a, x) && HorizonServed(p, a, y) ==> x == y
  {
    if SamePercents(x, y) { SameMap(x, y); }
  }

  lemma CapStagesSame(p: Profile, a: Percents, x: Percents, y: Percents)
    requires Complete(a) && Complete(x) && Complete(y)
    ensures DrawdownServed(p, a, x) && DrawdownServed(p, a, y) ==> x == y
    ensures StyleServed(p, a, x) && StyleServed(p, a, y) ==> x == y
    ensures MinimumsServed(p, a, x) && MinimumsServed(p, a, y) ==> x == y
  {
    hide Executable;
    if SamePercents(x, y) { SameMap(x, y); }
  }

  lemma TradingStagesSame(p: Profile, a: Percents, x: Percents, y: Percents)
    requires Complete(a) && Complete(x) && Complete(y) && TradingServed(p, a, x) && TradingServed(p, a, y)
    ensures x == y
  {
    hide TradingLimit;
    var i :| TradingLimit(p, i) && ShortTermCut(a, x, i);
    var j :| TradingLimit(p, j) && ShortTermCut(a, y, j);
    OneCap(p, i, j);
    SameMap(x, y);
  }

  lemma StartsSame(risk: RiskTolerance, x: Percents, y: Percents)
    requires Complete(x) && Complete(y) && StartsFrom(risk, x) && StartsFrom(risk, y)
    ensures x == y
  {
    SameMap(x, y);
  }

  /** The rules in percentage points are a definition: two sequences of stages for one profile are the same. */
  lemma OneRecommendation(p: Profile, s: Stages, t: Stages)
    requires Recommends(p, s) && Recommends(p, t)
    ensures s == t
  {
    hide LiquidityServed; hide EmergencyServed; hide IncomeServed; hide HorizonServed; hide DrawdownServed;
    hide TradingServed; hide StyleServed; hide MinimumsServed; hide StartsFrom; hide Complete;
    StartsSame(p.risk, s.base, t.base);
    CashStagesSame(p, s.base, s.liquid, t.liquid);
    CashStagesSame(p, s.liquid, s.safe, t.safe);
    IncomeStagesSame(p, s.safe, s.income, t.income);
    IncomeStagesSame(p, s.income, s.timed, t.timed);
    CapStagesSame(p, s.timed, s.calm, t.calm);
    TradingStagesSame(p, s.calm, s.traded, t.traded);
    CapStagesSame(p, s.traded, s.styled, t.styled);
    CapStagesSame(p, s.styled, s.executable, t.executable);
  }

  // ----- fixed income, rule by rule

  ghost function FixedAtStart(risk: RiskTolerance): int {
    match risk case Conservative => 60 case Moderate => 40 case Aggressive => 20
  }

  ghost function CashWanted(p: Profile): int {
    (match p.risk case Conservative => 15 case Moderate => 10 case Aggressive => 5)
    + (match p.liquidity case High => 10 case Medium => 5 case Low => 0)
    + (if p.hasEmergencyFund then 0 else 5)
  }

  ghost function ExposureOf(a: Percents): int
    requires Complete(a)
  {
    a[EquityIndex] + a[MixedFund] + a[ShortTerm]
  }

  /** Cash wanted is cash held, fixed income is as at the start, and the rest is in volatile categories. */
  ghost predicate CashTold(p: Profile, a: Percents, cash: int)
    requires Complete(a)
  {
    && a[Cash] == cash && a[FixedIncome] == FixedAtStart(p.risk)
    && a[Gold] + ExposureOf(a) == 100 - cash - FixedAtStart(p.risk)
    && a[Gold] >= 0 && a[EquityIndex] >= 0 && a[MixedFund] == 5 && a[ShortTerm] >= 0
  }

  ghost function StartCash(risk: RiskTolerance): int {
    match risk case Conservative => 15 case Moderate => 10 case Aggressive => 5
  }

  ghost function LiquidCash(p: Profile): int {
    StartCash(p.risk) + match p.liquidity case High => 10 case Medium => 5 case Low => 0
  }

  lemma LiquidTold(p: Profile, t: Stages)
    requires Complete(t.base) && Complete(t.liquid)
    requires StartsFrom(p.risk, t.base) && LiquidityServed(p, t.base, t.liquid)
    ensures CashTold(p, t.liquid, LiquidCash(p))
  {
    match p.risk { case Conservative => case Moderate => case Aggressive => }
  }

  /** The cash rules are always served in full and leave fixed income alone. */
  lemma SafeTold(p: Profile, t: Stages)
    requires Recommends(p, t)
    ensures CashTold(p, t.safe, CashWanted(p))
  {
    LiquidTold(p, t);
    hide LiquidityServed; hide StartsFrom;
    hide IncomeServed; hide HorizonServed; hide DrawdownServed; hide TradingServed; hide StyleServed;
    hide MinimumsServed;
  }

  /** The need for income always moves its whole ten points. */
  ghost predicate IncomeTold(p: Profile, t: Stages)
    requires Complete(t.income)
  {
    && t.income[FixedIncome] == FixedAtStart(p.risk) + (if p.monthlyIncome then 10 else 0)
    && t.income[Cash] == CashWanted(p)
  }

  /**
   A horizon of up to six months moves 25 points, or all that is not cash or fixed income yet; one of up to a year
   moves 10, or all of the short-term and equity shares.
   */
  ghost predicate HorizonTold(p: Profile, t: Stages)
    requires Complete(t.income) && Complete(t.timed)
  {
    t.timed[FixedIncome] == t.income[FixedIncome] +
      match p.horizon
      case Days => MinInt(25, 100 - CashWanted(p) - t.income[FixedIncome])
      case OneToFourWeeks => MinInt(25, 100 - CashWanted(p) - t.income[FixedIncome])
      case OneToThreeMonths => MinInt(25, 100 - CashWanted(p) - t.income[FixedIncome])
      case ThreeToSixMonths => MinInt(25, 100 - CashWanted(p) - t.income[FixedIncome])
      case SixToTwelveMonths => MinInt(10, t.income[ShortTerm] + t.income[EquityIndex])
      case _ => 0
  }

  /**
   The drawdown rule adds the exposure it takes away, the trading and style rules the short-term share they take
   away, and the last rule every percentage it removes.
   */
  ghost predicate CapsTold(t: Stages)
    requires AllComplete(t)
  {
    && t.calm[FixedIncome] - t.timed[FixedIncome] == ExposureOf(t.timed) - ExposureOf(t.calm)
    && t.styled[FixedIncome] - t.calm[FixedIncome] == ExposureOf(t.calm) - ExposureOf(t.styled)
    && t.executable[FixedIncome] - t.styled[FixedIncome]
         == (t.styled[Gold] - t.executable[Gold]) + (ExposureOf(t.styled) - ExposureOf(t.executable))
  }

  lemma IncomeInFigures(p: Profile, t: Stages)
    requires Recommends(p, t)
    ensures IncomeTold(p, t)
    ensures t.income[Gold] + ExposureOf(t.income) == 100 - t.income[Cash] - t.income[FixedIncome]
  {
    SafeTold(p, t);
    hide LiquidityServed; hide EmergencyServed; hide StartsFrom; hide HorizonServed;
    hide DrawdownServed; hide TradingServed; hide StyleServed; hide MinimumsServed;
  }

  lemma HorizonInFigures(p: Profile, t: Stages)
    requires Recommends(p, t)
    ensures HorizonTold(p, t)
  {
    IncomeInFigures(p, t);
    hide LiquidityServed; hide EmergencyServed; hide StartsFrom; hide IncomeServed; hide FixedAtStart;
    hide DrawdownServed; hide TradingServed; hide StyleServed; hide MinimumsServed; hide Drawn;
  }

  lemma CapsInFigures(p: Profile, t: Stages)
    requires Recommends(p, t) && NonNegative(t.timed)
    ensures CapsTold(t)
  {
    hide LiquidityServed; hide EmergencyServed; hide StartsFrom; hide IncomeServed; hide HorizonServed;
    hide Executable; hide TradingLimit;
  }

  /** Fixed income in full, rule by rule, for every profile. */
  lemma FixedIncomeInFigures(p: Profile)
    requires ValidProfile(p)
    ensures var t := StagesOf(p);
      && AllComplete(t) && t.executable == FinalPercents(p)
      && IncomeTold(p, t) && HorizonTold(p, t) && CapsTold(t)
  {
    FinalInFigures(p);
    var t := StagesOf(p);
    StagesSound(t);
    hide StagesOf; hide FinalPercents; hide AllSound; hide Recommends; hide NonNegative; hide Complete;
    IncomeInFigures(p, t);
    HorizonInFigures(p, t);
    CapsInFigures(p, t);
  }

  lemma StagesSound(t: Stages)
    requires AllSound(t)
    ensures AllComplete(t) && NonNegative(t.timed)
  {}
}
