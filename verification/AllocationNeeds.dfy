/** What a need for income or a shorter horizon does to a whole recommendation. */
module AllocationNeeds {
  import opened Common
  import opened Arith
  import opened Allocation
  import opened AllocationRules
  import opened AllocationCaution
  import opened AllocationFigures

  /** Profile q is p with a need for income or a shorter horizon, or both. */
  ghost predicate Needier(q: Profile, p: Profile) {
    && q == p.(monthlyIncome := q.monthlyIncome, horizon := q.horizon)
    && (p.monthlyIncome ==> q.monthlyIncome)
    && HorizonClass(q.horizon) <= HorizonClass(p.horizon)
  }

  /**
   Percentages x hold no more than y in any volatile category, and less of a later source only when the sources
   before it are empty.
   */
  ghost predicate Behind(x: Percents, y: Percents)
    requires Complete(x) && Complete(y)
  {
    && NoMoreVolatile(x, y)
    && (x[MixedFund] < y[MixedFund] ==> x[EquityIndex] == 0 && x[ShortTerm] == 0)
    && (x[EquityIndex] < y[EquityIndex] ==> x[ShortTerm] == 0)
  }

  /** Four volatile percentages, none below zero. */
  ghost predicate NoneNegative(a: Percents)
    requires Complete(a)
  {
    a[Gold] >= 0 && a[EquityIndex] >= 0 && a[MixedFund] >= 0 && a[ShortTerm] >= 0
  }

  lemma BehindItself(a: Percents)
    requires Complete(a)
    ensures Behind(a, a)
  {}

  lemma IncomeBehind(q: Profile, p: Profile, a: Percents, x: Percents, y: Percents)
    requires Complete(a) && Complete(x) && Complete(y) && NoneNegative(a) && Needier(q, p)
    requires IncomeServed(q, a, x) && IncomeServed(p, a, y)
    ensures Behind(x, y)
  {}

  lemma HorizonBehind(q: Profile, p: Profile, a: Percents, b: Percents, x: Percents, y: Percents)
    requires Complete(a) && Complete(b) && Complete(x) && Complete(y) && NoneNegative(a) && NoneNegative(b)
    requires Needier(q, p) && Behind(a, b) && HorizonServed(q, a, x) && HorizonServed(p, b, y)
    ensures Behind(x, y)
  {
    hide HorizonClass;
  }

  lemma DrawdownBehind(q: Profile, p: Profile, a: Percents, b: Percents, x: Percents, y: Percents)
    requires Complete(a) && Complete(b) && Complete(x) && Complete(y) && NoneNegative(a) && NoneNegative(b)
    requires q.maxDrawdown == p.maxDrawdown && Behind(a, b) && DrawdownServed(q, a, x) && DrawdownServed(p, b, y)
    ensures Behind(x, y)
  {}

  lemma SameLimit(q: Profile, p: Profile, cap: int)
    requires Needier(q, p)
    ensures TradingLimit(q, cap) == TradingLimit(p, cap)
  {}

  lemma TradingBehind(q: Profile, p: Profile, a: Percents, b: Percents, x: Percents, y: Percents)
    requires Complete(a) && Complete(b) && Complete(x) && Complete(y) && NoneNegative(a) && NoneNegative(b)
    requires Needier(q, p) && Behind(a, b) && TradingServed(q, a, x) && TradingServed(p, b, y) && NoneNegative(x)
    ensures Behind(x, y)
  {
    var i :| TradingLimit(q, i) && ShortTermCut(a, x, i);
    var j :| TradingLimit(p, j) && ShortTermCut(b, y, j);
    SameLimit(q, p, i);
    OneCap(p, i, j);
    hide TradingLimit;
  }

  lemma StyleBehind(q: Profile, p: Profile, a: Percents, b: Percents, x: Percents, y: Percents)
    requires Complete(a) && Complete(b) && Complete(x) && Complete(y)
    requires q.style == p.style && Behind(a, b) && StyleServed(q, a, x) && StyleServed(p, b, y)
    ensures Behind(x, y)
  {}

  lemma ExecutableMonotone(capital: real, i: int, j: int, minimum: real)
    requires capital >= 0.0 && 0 <= i <= j && minimum > 0.0
    ensures 0 <= Executable(capital, i, minimum) <= Executable(capital, j, minimum)
  {
    ShareMonotone(capital, capital, i as real, j as real);
  }

  lemma MinimumsBehind(q: Profile, p: Profile, a: Percents, b: Percents, x: Percents, y: Percents)
    requires Complete(a) && Complete(b) && Complete(x) && Complete(y) && NoneNegative(a) && NoneNegative(b)
    requires q.capital == p.capital >= 0.0 && Behind(a, b) && MinimumsServed(q, a, x) && MinimumsServed(p, b, y)
    ensures NoMoreVolatile(x, y)
  {
    hide Executable;
    ExecutableMonotone(p.capital, a[Gold], b[Gold], 100000.0);
    ExecutableMonotone(p.capital, a[EquityIndex], b[EquityIndex], 100000.0);
    ExecutableMonotone(p.capital, a[MixedFund], b[MixedFund], 100000.0);
    ExecutableMonotone(p.capital, a[ShortTerm], b[ShortTerm], 500000.0);
  }

  /** No stage holds a negative percentage. */
  ghost predicate StagesNonNegative(t: Stages)
    requires AllComplete(t)
  {
    && NoneNegative(t.safe) && NoneNegative(t.income) && NoneNegative(t.timed) && NoneNegative(t.calm)
    && NoneNegative(t.traded) && NoneNegative(t.styled)
  }

  lemma SoundStages(t: Stages)
    requires AllSound(t)
    ensures AllComplete(t) && StagesNonNegative(t)
  {
    hide Total;
  }

  lemma SafeStagesSame(q: Profile, p: Profile, s: Stages, t: Stages)
    requires Needier(q, p) && Recommends(q, s) && Recommends(p, t)
    ensures s.safe == t.safe
  {
    hide IncomeServed; hide HorizonServed; hide DrawdownServed; hide TradingServed; hide StyleServed;
    hide MinimumsServed; hide HorizonClass; hide StartsFrom; hide LiquidityServed; hide EmergencyServed;
    StartsSame(p.risk, s.base, t.base);
    SameCashRules(q, p, s.base, s.liquid);
    SameCashRules(q, p, s.liquid, s.safe);
    CashStagesSame(p, s.base, s.liquid, t.liquid);
    CashStagesSame(p, s.liquid, s.safe, t.safe);
  }

  lemma SameCashRules(q: Profile, p: Profile, a: Percents, b: Percents)
    requires Needier(q, p) && Complete(a) && Complete(b)
    ensures LiquidityServed(q, a, b) == LiquidityServed(p, a, b)
    ensures EmergencyServed(q, a, b) == EmergencyServed(p, a, b)
  {}

  lemma NeedierStages(q: Profile, p: Profile, s: Stages, t: Stages)
    requires Needier(q, p) && Recommends(q, s) && Recommends(p, t) && p.capital >= 0.0
    requires StagesNonNegative(s) && StagesNonNegative(t)
    ensures NoMoreVolatile(s.executable, t.executable)
  {
    hide IncomeServed; hide HorizonServed; hide DrawdownServed; hide TradingServed; hide StyleServed;
    hide MinimumsServed; hide HorizonClass; hide StartsFrom; hide LiquidityServed; hide EmergencyServed;
    hide Complete; hide NoneNegative; hide Behind; hide NoMoreVolatile;
    SafeStagesSame(q, p, s, t);
    IncomeBehind(q, p, s.safe, s.income, t.income);
    HorizonBehind(q, p, s.income, t.income, s.timed, t.timed);
    DrawdownBehind(q, p, s.timed, t.timed, s.calm, t.calm);
    TradingBehind(q, p, s.calm, t.calm, s.traded, t.traded);
    StyleBehind(q, p, s.traded, t.traded, s.styled, t.styled);
    MinimumsBehind(q, p, s.styled, t.styled, s.executable, t.executable);
  }

  lemma LessVolatileMoreFixed(x: Percents, y: Percents)
    requires Sound(x) && Sound(y) && NoMoreVolatile(x, y)
    ensures x[FixedIncome] >= y[FixedIncome]
  {}

  /**
   A need for income or a shorter horizon never leaves more of any volatile category, never less fixed income, and
   the same cash.
   */
  lemma NeedsNeverAddRisk(q: Profile, p: Profile)
    requires ValidProfile(q) && ValidProfile(p) && Needier(q, p)
    ensures NoMoreVolatile(FinalPercents(q), FinalPercents(p))
    ensures FinalPercents(q)[FixedIncome] >= FinalPercents(p)[FixedIncome]
  {
    var s, t := StagesOf(q), StagesOf(p);
    FinalInFigures(q);
    FinalInFigures(p);
    hide StagesOf; hide FinalPercents; hide Recommends; hide StagesNonNegative; hide Sound; hide NoMoreVolatile;
    SoundStages(s);
    SoundStages(t);
    NeedierStages(q, p, s, t);
    LessVolatileMoreFixed(FinalPercents(q), FinalPercents(p));
  }
}
