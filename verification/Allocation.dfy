/**
 The rule engine that turns an investor profile into six percentages and six amounts: base allocation,
 greedy transfers, caps, removals below the executable minimum, and rounding with a residual bucket.
 */
module Allocation {
  import opened Common

  datatype Category = Cash | FixedIncome | Gold | EquityIndex | MixedFund | ShortTerm

  datatype RiskTolerance = Conservative | Moderate | Aggressive

  datatype LiquidityNeed = Low | Medium | High

  datatype Experience = NoExperience | Beginner | Intermediate | Advanced

  datatype Style = Passive | Balanced | Active

  datatype Horizon =
    | Days | OneToFourWeeks | OneToThreeMonths | ThreeToSixMonths | SixToTwelveMonths
    | OneToThreeYears | ThreeToFiveYears | OverFiveYears

  datatype Profile = Profile(
    capital: real, horizon: Horizon, risk: RiskTolerance, maxDrawdown: real, monthlyIncome: bool,
    liquidity: LiquidityNeed, experience: Experience, tradingExperience: Experience, style: Style,
    wantsTrading: bool, maxTradingPercent: int, hasEmergencyFund: bool)

  /** The field bounds of the investor profile. */
  ghost predicate ValidProfile(p: Profile) {
    && p.capital >= 1000000.0
    && 0.0 <= p.maxDrawdown <= 1.0
    && 0 <= p.maxTradingPercent <= 20
  }

  type Percents = map<Category, int>

  const CATEGORIES: seq<Category> := [Cash, FixedIncome, Gold, EquityIndex, MixedFund, ShortTerm]

  function MinimumToman(c: Category): nat {
    match c
    case Cash => 1
    case ShortTerm => 500000
    case _ => 100000
  }

  function BasePercent(risk: RiskTolerance, c: Category): nat {
    match risk
    case Conservative =>
      (match c case Cash => 15 case FixedIncome => 60 case Gold => 15
               case EquityIndex => 5 case MixedFund => 5 case ShortTerm => 0)
    case Moderate =>
      (match c case Cash => 10 case FixedIncome => 40 case Gold => 20
               case EquityIndex => 20 case MixedFund => 5 case ShortTerm => 5)
    case Aggressive =>
      (match c case Cash => 5 case FixedIncome => 20 case Gold => 15
               case EquityIndex => 40 case MixedFund => 5 case ShortTerm => 15)
  }

  function Base(risk: RiskTolerance): (a: Percents)
    ensures Complete(a)
  {
    map c: Category | true :: BasePercent(risk, c)
  }

  function HorizonMonths(h: Horizon): nat {
    match h
    case Days => 1
    case OneToFourWeeks => 1
    case OneToThreeMonths => 3
    case ThreeToSixMonths => 6
    case SixToTwelveMonths => 12
    case OneToThreeYears => 24
    case ThreeToFiveYears => 48
    case OverFiveYears => 72
  }

  ghost predicate Complete(a: Percents) { forall c: Category :: c in a }

  function Total(a: Percents): int
    requires Complete(a)
  {
    a[Cash] + a[FixedIncome] + a[Gold] + a[EquityIndex] + a[MixedFund] + a[ShortTerm]
  }

  ghost predicate NonNegative(a: Percents)
    requires Complete(a)
  {
    forall c: Category :: a[c] >= 0
  }

  /** What every rule keeps: six non-negative percentages that sum to 100. */
  ghost predicate Sound(a: Percents) { Complete(a) && NonNegative(a) && Total(a) == 100 }

  function Risky(a: Percents): int
    requires Complete(a)
  {
    a[EquityIndex] + a[MixedFund] + a[ShortTerm]
  }

  // ----- the greedy transfer

  function SourcesSum(a: Percents, sources: seq<Category>): int
    requires Complete(a)
  {
    if sources == [] then 0 else SourcesSum(a, sources[..|sources| - 1]) + a[sources[|sources| - 1]]
  }

  ghost predicate DistinctSources(sources: seq<Category>, target: Category) {
    && target !in sources
    && forall i, j :: 0 <= i < j < |sources| ==> sources[i] != sources[j]
  }

  /** What source i still has to give after the sources before it gave all they could. */
  function Given(before: Percents, amount: int, sources: seq<Category>, i: nat): int
    requires Complete(before) && i < |sources|
  {
    MinInt(before[sources[i]], MaxInt(0, amount - SourcesSum(before, sources[..i])))
  }

  /**
   The meaning of a greedy transfer: it moves as much as the sources hold, up to the amount; each source is
   drained in order, after what the earlier ones gave; the rest of the book stays as it was.
   */
  ghost predicate Transferred(before: Percents, after: Percents, amount: int, sources: seq<Category>,
                              target: Category, moved: int)
    requires Complete(before)
  {
    && Complete(after)
    && moved == MinInt(amount, SourcesSum(before, sources))
    && after[target] == before[target] + moved
    && (forall i :: 0 <= i < |sources| ==>
          after[sources[i]] == before[sources[i]] - Given(before, amount, sources, i))
    && (forall c :: c !in sources && c != target ==> after[c] == before[c])
  }

  /** The transfer from source i on, with the amount still to move. */
  function MovedFrom(a: Percents, remaining: int, sources: seq<Category>, target: Category, i: nat): (r: Percents)
    requires Complete(a) && i <= |sources|
    ensures Complete(r)
    decreases |sources| - i
  {
    if i == |sources| then a
    else
      var share := MinInt(a[sources[i]], remaining);
      MovedFrom(Shifted(a, sources[i], target, share), remaining - share, sources, target, i + 1)
  }

  function Shifted(a: Percents, source: Category, target: Category, share: int): (r: Percents)
    requires Complete(a)
    ensures Complete(r)
  {
    var taken := a[source := a[source] - share];
    taken[target := taken[target] + share]
  }

  function Moved(a: Percents, amount: int, sources: seq<Category>, target: Category): (r: Percents)
    requires Complete(a)
    ensures Complete(r)
  {
    MovedFrom(a, amount, sources, target, 0)
  }

  /** A transfer moves percentages around and loses none. */
  lemma {:induction false} MovedFromSound(a: Percents, remaining: int, sources: seq<Category>, target: Category, i: nat)
    requires Complete(a) && NonNegative(a) && remaining >= 0 && i <= |sources| && target !in sources
    ensures NonNegative(MovedFrom(a, remaining, sources, target, i))
    ensures Total(MovedFrom(a, remaining, sources, target, i)) == Total(a)
    ensures MovedFrom(a, 0, sources, target, i) == a
    decreases |sources| - i
  {
    if i < |sources| {
      var share := MinInt(a[sources[i]], remaining);
      ShiftedSound(a, sources[i], target, share);
      ShiftedSound(a, sources[i], target, 0);
      hide Shifted; hide Total;
      MovedFromSound(Shifted(a, sources[i], target, share), remaining - share, sources, target, i + 1);
      MovedFromSound(a, 0, sources, target, i + 1);
    }
  }

  lemma ShiftedSound(a: Percents, source: Category, target: Category, share: int)
    requires Complete(a) && NonNegative(a) && 0 <= share <= a[source] && source != target
    ensures NonNegative(Shifted(a, source, target, share)) && Total(Shifted(a, source, target, share)) == Total(a)
    ensures share == 0 ==> Shifted(a, source, target, share) == a
  {
    hide Total;
    var taken := a[source := a[source] - share];
    TotalUpdate(a, source, a[source] - share);
    TotalUpdate(taken, target, taken[target] + share);
  }

  lemma TotalUpdate(a: Percents, c: Category, v: int)
    requires Complete(a)
    ensures Complete(a[c := v]) && Total(a[c := v]) == Total(a) - a[c] + v
  {
    match c
    case Cash => case FixedIncome => case Gold => case EquityIndex => case MixedFund => case ShortTerm =>
  }

  lemma {:induction false} MovedFromMeaning(start: Percents, now: Percents, amount: int, sources: seq<Category>,
                                            target: Category, i: nat, remaining: int)
    requires Complete(start) && NonNegative(start) && Complete(now) && DistinctSources(sources, target)
    requires i <= |sources| && 0 <= remaining <= amount
    requires InProgress(start, now, amount, sources, target, i, remaining)
    ensures Transferred(start, MovedFrom(now, remaining, sources, target, i), amount, sources, target,
                        MinInt(amount, SourcesSum(start, sources)))
    decreases |sources| - i
  {
    hide InProgress; hide Transferred; hide SourcesSum; hide DistinctSources;
    if i == |sources| {
      TransferStops(start, now, amount, sources, target, i, remaining);
    } else {
      TransferContinues(start, now, amount, sources, target, i, remaining);
      var share := MinInt(now[sources[i]], remaining);
      MovedFromMeaning(start, Shifted(now, sources[i], target, share), amount, sources, target, i + 1,
                       remaining - share);
    }
  }

  /** The loop of shares is the greedy transfer it is meant to be. */
  lemma MovedMeaning(a: Percents, amount: int, sources: seq<Category>, target: Category)
    requires Complete(a) && NonNegative(a) && amount >= 0 && DistinctSources(sources, target)
    ensures Transferred(a, Moved(a, amount, sources, target), amount, sources, target,
                        MinInt(amount, SourcesSum(a, sources)))
  {
    TransferStarts(a, amount, sources, target);
    MovedFromMeaning(a, a, amount, sources, target, 0, amount);
  }

  /** Greedy order: a source gives only once every source before it is empty. */
  lemma EarlierSourcesFirst(a: Percents, amount: int, sources: seq<Category>, target: Category, i: nat, j: nat)
    requires Complete(a) && NonNegative(a) && amount >= 0 && DistinctSources(sources, target)
    requires i < j < |sources| && Moved(a, amount, sources, target)[sources[j]] < a[sources[j]]
    ensures Moved(a, amount, sources, target)[sources[i]] == 0
  {
    MovedMeaning(a, amount, sources, target);
    hide Moved; hide Given; hide SourcesSum; hide DistinctSources;
    var r := Moved(a, amount, sources, target);
    assert r[sources[i]] == a[sources[i]] - Given(a, amount, sources, i);
    assert r[sources[j]] == a[sources[j]] - Given(a, amount, sources, j);
    DrainedBefore(a, amount, sources, i, j);
  }

  lemma DrainedBefore(a: Percents, amount: int, sources: seq<Category>, i: nat, j: nat)
    requires Complete(a) && NonNegative(a) && i < j < |sources| && Given(a, amount, sources, j) > 0
    ensures Given(a, amount, sources, i) == a[sources[i]]
  {
    SourcesSumGrows(a, sources[..j], i + 1);
    assert sources[..j][..i + 1] == sources[..i + 1];
    assert sources[..i + 1][..i] == sources[..i];
  }

  /** The percentages, changed in place by every rule. */
  class AllocationBook {
    var percent: Percents

    constructor (risk: RiskTolerance)
      ensures percent == Base(risk)
    {
      percent := Base(risk);
    }

    method Transfer(amount: int, sources: seq<Category>, target: Category) returns (moved: int)
      requires Complete(percent) && NonNegative(percent) && amount >= 0
      requires DistinctSources(sources, target)
      modifies this
      ensures percent == Moved(old(percent), amount, sources, target)
      ensures moved == MinInt(amount, SourcesSum(old(percent), sources))
      ensures Transferred(old(percent), percent, amount, sources, target, moved)
    {
      ghost var start := percent;
      var remaining := amount;
      hide MovedFrom; hide InProgress; hide SourcesSum; hide Transferred; hide DistinctSources; hide NonNegative;
      MovedMeaning(start, amount, sources, target);
      TransferStarts(start, amount, sources, target);
      for i := 0 to |sources|
        invariant Complete(percent) && 0 <= remaining <= amount
        invariant InProgress(start, percent, amount, sources, target, i, remaining)
        invariant MovedFrom(percent, remaining, sources, target, i) == Moved(start, amount, sources, target)
      {
        var source := sources[i];
        var share := MinInt(percent[source], remaining);
        TransferContinues(start, percent, amount, sources, target, i, remaining);
        MovedFromStep(percent, remaining, sources, target, i);
        percent := percent[source := percent[source] - share];
        percent := percent[target := percent[target] + share];
        remaining := remaining - share;
        if remaining == 0 {
          TransferStops(start, percent, amount, sources, target, i + 1, remaining);
          SameTransfer(start, percent, Moved(start, amount, sources, target), amount, sources, target, amount,
                       MinInt(amount, SourcesSum(start, sources)));
          return amount;
        }
      }
      TransferStops(start, percent, amount, sources, target, |sources|, remaining);
      SameTransfer(start, percent, Moved(start, amount, sources, target), amount, sources, target,
                   amount - remaining, MinInt(amount, SourcesSum(start, sources)));
      return amount - remaining;
    }

    /** Moves a known share from one category to another. */
    method Shift(source: Category, target: Category, share: int)
      requires Complete(percent)
      modifies this
      ensures percent == Shifted(old(percent), source, target, share)
    {
      percent := percent[source := percent[source] - share];
      percent := percent[target := percent[target] + share];
    }

    /** Categories whose amount is below the executable minimum go to fixed income. */
    method EnforceMinimums(capital: real)
      requires Complete(percent)
      modifies this
      ensures percent == WithMinimums(capital, old(percent))
    {
      ghost var start := percent;
      var removed := 0;
      hide BelowMinimum; hide MinimumToman;
      for i := 0 to |CATEGORIES|
        invariant Complete(percent)
        invariant forall c: Category :: percent[c] == if c in CATEGORIES[..i] then Kept(capital, start, c) else start[c]
        invariant removed == RemovedSum(capital, start, i)
      {
        var category := CATEGORIES[i];
        CategoriesDistinct(i);
        if category != Cash && category != FixedIncome {
          if BelowMinimum(capital, percent[category], category) {
            removed := removed + percent[category];
            percent := percent[category := 0];
          }
        }
        assert CATEGORIES[..i + 1] == CATEGORIES[..i] + [category];
      }
      CategoriesComplete();
      percent := percent[FixedIncome := percent[FixedIncome] + removed];
      assert percent == WithMinimums(capital, start) by {
        forall c: Category ensures percent[c] == WithMinimums(capital, start)[c] {}
        assert percent.Keys == WithMinimums(capital, start).Keys;
      }
    }
  }

  lemma CategoriesDistinct(i: nat)
    requires i < |CATEGORIES|
    ensures CATEGORIES[i] !in CATEGORIES[..i]
  {}

  lemma CategoriesComplete()
    ensures forall c: Category :: c in CATEGORIES[..|CATEGORIES|]
  {
    assert CATEGORIES[..|CATEGORIES|] == CATEGORIES;
    forall c: Category ensures c in CATEGORIES {
      match c
      case Cash => assert CATEGORIES[0] == c;
      case FixedIncome => assert CATEGORIES[1] == c;
      case Gold => assert CATEGORIES[2] == c;
      case EquityIndex => assert CATEGORIES[3] == c;
      case MixedFund => assert CATEGORIES[4] == c;
      case ShortTerm => assert CATEGORIES[5] == c;
    }
  }

  /** The exact amount of a percentage of the capital. */
  function ShareOf(capital: real, percent: int): real { capital * percent as real / 100.0 }

  predicate BelowMinimum(capital: real, percent: int, c: Category) {
    percent != 0 && ShareOf(capital, percent) < MinimumToman(c) as real
  }

  /** What a category keeps: cash and fixed income always, the others only an executable amount. */
  function Kept(capital: real, a: Percents, c: Category): int
    requires Complete(a)
  {
    if c == Cash || c == FixedIncome then a[c]
    else if BelowMinimum(capital, a[c], c) then 0
    else a[c]
  }

  function RemovedSum(capital: real, a: Percents, n: nat): int
    requires Complete(a) && n <= |CATEGORIES|
  {
    if n == 0 then 0
    else RemovedSum(capital, a, n - 1) + a[CATEGORIES[n - 1]] - Kept(capital, a, CATEGORIES[n - 1])
  }

  function WithMinimums(capital: real, a: Percents): (r: Percents)
    requires Complete(a)
    ensures Complete(r)
  {
    map c: Category | true ::
      if c == FixedIncome then a[c] + RemovedSum(capital, a, |CATEGORIES|) else Kept(capital, a, c)
  }

  lemma MovedFromStep(a: Percents, remaining: int, sources: seq<Category>, target: Category, i: nat)
    requires Complete(a) && i < |sources|
    ensures var share := MinInt(a[sources[i]], remaining);
      MovedFrom(a, remaining, sources, target, i)
      == MovedFrom(Shifted(a, sources[i], target, share), remaining - share, sources, target, i + 1)
  {}

  /** The meaning of a transfer leaves no choice. */
  lemma SameTransfer(before: Percents, x: Percents, y: Percents, amount: int, sources: seq<Category>, target: Category,
                     movedX: int, movedY: int)
    requires Complete(before)
    requires Transferred(before, x, amount, sources, target, movedX)
    requires Transferred(before, y, amount, sources, target, movedY)
    ensures x == y && movedX == movedY
  {
    forall c: Category ensures x[c] == y[c] {
      if c in sources {
        var i :| 0 <= i < |sources| && sources[i] == c;
      }
    }
    assert x.Keys == y.Keys;
  }

  /** The first i sources have given their part, the others are untouched. */
  ghost predicate InProgress(start: Percents, now: Percents, amount: int, sources: seq<Category>,
                             target: Category, i: nat, remaining: int)
    requires Complete(start) && Complete(now)
  {
    && i <= |sources|
    && amount - remaining == MinInt(amount, SourcesSum(start, sources[..i]))
    && now[target] == start[target] + amount - remaining
    && (forall j :: 0 <= j < i ==> now[sources[j]] == start[sources[j]] - Given(start, amount, sources, j))
    && (forall j :: i <= j < |sources| ==> now[sources[j]] == start[sources[j]])
    && (forall c :: c !in sources && c != target ==> now[c] == start[c])
  }

  lemma TransferStarts(start: Percents, amount: int, sources: seq<Category>, target: Category)
    requires Complete(start) && amount >= 0
    ensures InProgress(start, start, amount, sources, target, 0, amount)
  {
    NothingGiven(start, amount, sources);
  }

  lemma TransferContinues(start: Percents, now: Percents, amount: int, sources: seq<Category>,
                          target: Category, i: nat, remaining: int)
    requires Complete(start) && NonNegative(start) && Complete(now) && DistinctSources(sources, target)
    requires i < |sources| && 0 <= remaining <= amount
    requires InProgress(start, now, amount, sources, target, i, remaining)
    ensures var share := MinInt(now[sources[i]], remaining);
      && 0 <= share
      && InProgress(start, Shifted(now, sources[i], target, share), amount, sources, target, i + 1, remaining - share)
  {
    hide InProgress;
    var share := MinInt(now[sources[i]], remaining);
    TransferMoved(start, now, Shifted(now, sources[i], target, share), amount, sources, target, i, remaining, share);
  }

  lemma TransferMoved(start: Percents, now: Percents, after: Percents, amount: int, sources: seq<Category>,
                      target: Category, i: nat, remaining: int, share: int)
    requires Complete(start) && NonNegative(start) && Complete(now) && DistinctSources(sources, target)
    requires i < |sources| && 0 <= remaining <= amount
    requires InProgress(start, now, amount, sources, target, i, remaining)
    requires Complete(after) && share == MinInt(now[sources[i]], remaining)
    requires after[sources[i]] == now[sources[i]] - share && after[target] == now[target] + share
    requires forall c :: c != sources[i] && c != target ==> after[c] == now[c]
    ensures 0 <= share && InProgress(start, after, amount, sources, target, i + 1, remaining - share)
  {
    hide SourcesSum; hide Given;
    GivenStep(start, amount, sources, i, remaining);
    forall j | 0 <= j < |sources| && j != i ensures after[sources[j]] == now[sources[j]] {
      if j < i { assert sources[j] != sources[i]; }
      assert sources[j] != target;
    }
  }

  lemma TransferStops(start: Percents, now: Percents, amount: int, sources: seq<Category>,
                      target: Category, i: nat, remaining: int)
    requires Complete(start) && NonNegative(start) && Complete(now)
    requires i <= |sources| && (remaining == 0 || i == |sources|) && 0 <= remaining <= amount
    requires InProgress(start, now, amount, sources, target, i, remaining)
    ensures Transferred(start, now, amount, sources, target, amount - remaining)
    ensures amount - remaining == MinInt(amount, SourcesSum(start, sources))
  {
    hide SourcesSum; hide Given;
    if i == |sources| {
      assert sources[..i] == sources;
    } else {
      RestUntouched(start, amount, sources, i);
    }
  }

  lemma NothingGiven(start: Percents, amount: int, sources: seq<Category>)
    requires Complete(start)
    ensures SourcesSum(start, sources[..0]) == 0
  {}

  lemma GivenStep(start: Percents, amount: int, sources: seq<Category>, i: nat, remaining: int)
    requires Complete(start) && NonNegative(start) && i < |sources| && 0 <= remaining <= amount
    requires amount - remaining == MinInt(amount, SourcesSum(start, sources[..i]))
    ensures var share := MinInt(start[sources[i]], remaining);
      && share == Given(start, amount, sources, i)
      && amount - (remaining - share) == MinInt(amount, SourcesSum(start, sources[..i + 1]))
  {
    assert sources[..i + 1][..i] == sources[..i];
  }

  lemma {:induction false} SourcesSumGrows(a: Percents, sources: seq<Category>, i: nat)
    requires Complete(a) && NonNegative(a) && i <= |sources|
    ensures 0 <= SourcesSum(a, sources[..i]) <= SourcesSum(a, sources)
    decreases |sources|
  {
    if i < |sources| {
      assert sources[..|sources| - 1][..i] == sources[..i];
      SourcesSumGrows(a, sources[..|sources| - 1], i);
    } else {
      assert sources[..i] == sources;
      if i > 0 {
        SourcesSumGrows(a, sources[..i - 1], i - 1);
        assert sources[..i - 1][..i - 1] == sources[..i - 1];
      }
    }
  }

  /** Once the amount is used up, later sources give nothing. */
  lemma RestUntouched(start: Percents, amount: int, sources: seq<Category>, k: nat)
    requires Complete(start) && NonNegative(start) && k <= |sources| && amount >= 0
    requires SourcesSum(start, sources[..k]) >= amount
    ensures SourcesSum(start, sources) >= amount
    ensures forall j :: k <= j < |sources| ==> Given(start, amount, sources, j) == 0
  {
    SourcesSumGrows(start, sources, k);
    forall j | k <= j < |sources|
      ensures SourcesSum(start, sources[..j]) >= amount
    {
      assert sources[..j][..k] == sources[..k];
      SourcesSumGrows(start, sources[..j], k);
    }
  }
}
