/**
 The evidence-gated ranking of the active funds of one type. Moments are in seconds; a fund's history
 lists the days of its rows that hold a NAV, oldest first.
 */
module Ranking {
  import opened Common
  import opened Ordering
  import Finance

  const MIN_OBSERVATIONS := 90
  const MAX_STALENESS_DAYS := 7

  datatype Fund = Fund(id: nat, name: string, fundType: string, active: bool, quality: string,
                       lastDataAt: Option<int>, history: seq<int>, metrics: map<string, Option<real>>)

  datatype Reason = InvalidQuality | InsufficientHistory | MissingTimestamp | Stale | MissingMetrics

  datatype Components = Components(cagr: real, sharpe: real, drawdown: real, stability: real, history: real,
                                   quality: real)

  /** A candidate's score is in millionths. */
  datatype Candidate = Candidate(id: nat, name: string, score: int, components: Components, observations: nat)

  datatype Ranked = Ranked(candidate: Candidate, rank: nat)

  // ----- the evidence gate

  function Metric(f: Fund, name: string): Option<real> {
    if name in f.metrics then f.metrics[name] else None
  }

  predicate Complete(f: Fund) {
    && Metric(f, "cagr").Some?
    && Metric(f, "sharpe").Some?
    && Metric(f, "maximum_drawdown").Some?
    && Metric(f, "positive_period_ratio").Some?
  }

  function Exclusion(f: Fund, now: int): Option<Reason> {
    if f.quality != "valid" then Some(InvalidQuality)
    else if |f.history| < MIN_OBSERVATIONS then Some(InsufficientHistory)
    else if f.lastDataAt.None? then Some(MissingTimestamp)
    else if (now - f.lastDataAt.value) / SECONDS_PER_DAY > MAX_STALENESS_DAYS then Some(Stale)
    else if !Complete(f) then Some(MissingMetrics)
    else None
  }

  /** A fund passes the gate until its last data is eight full days old. */
  lemma EligibleIff(f: Fund, now: int)
    ensures Exclusion(f, now).None? <==>
      && f.quality == "valid" && |f.history| >= 90 && f.lastDataAt.Some?
      && now < f.lastDataAt.value + 8 * SECONDS_PER_DAY && Complete(f)
  {}

  // ----- the score

  function Abs(x: real): real { if x < 0.0 then -x else x }

  function OrZero(m: Option<real>): real { if m.Some? then m.value else 0.0 }

  function AgeDays(f: Fund): int
    requires f.history != []
  {
    MaxInt(1, f.history[|f.history| - 1] - f.history[0])
  }

  function ComponentsOf(cagr: real, sharpe: real, drawdown: real, stability: real, age: int,
                        quality: real): Components {
    Components(MaxReal(-1.0, MinReal(1.0, cagr)),
               MaxReal(-1.0, MinReal(2.0, sharpe)) / 2.0,
               1.0 - MinReal(1.0, Abs(drawdown)),
               stability,
               MinReal(1.0, age as real / (365.25 * 3.0)),
               quality)
  }

  function Evidence(f: Fund): Components
    requires f.history != []
  {
    ComponentsOf(OrZero(Metric(f, "cagr")), OrZero(Metric(f, "sharpe")), OrZero(Metric(f, "maximum_drawdown")),
                 OrZero(Metric(f, "positive_period_ratio")), AgeDays(f), OrZero(Metric(f, "data_quality_score")))
  }

  function Weighted(c: Components): real {
    c.cagr * 0.25 + c.sharpe * 0.20 + c.drawdown * 0.20 + c.stability * 0.15 + c.history * 0.10 + c.quality * 0.10
  }

  /** The nearest integer; halfway cases go to the even neighbour. */
  function RoundHalfEven(x: real): int {
    var below := x.Floor;
    var rest := x - below as real;
    if rest < 0.5 then below
    else if rest > 0.5 then below + 1
    else if below % 2 == 0 then below
    else below + 1
  }

  function Score(c: Components): int { RoundHalfEven(Weighted(c) * 1000000.0) }

  /** It is the only integer within a half that is even when there are two. */
  lemma RoundNear(x: real, n: int)
    ensures n == RoundHalfEven(x) <==>
      && -0.5 <= n as real - x <= 0.5
      && (n as real - x == 0.5 || n as real - x == -0.5 ==> n % 2 == 0)
  {}

  lemma RoundMonotone(x: real, y: real)
    requires x <= y
    ensures RoundHalfEven(x) <= RoundHalfEven(y)
  {
    if x.Floor < y.Floor {
      assert x.Floor + 1 <= y.Floor;
    }
  }

  ghost predicate NoWorse(c: Components, d: Components) {
    && c.cagr >= d.cagr && c.sharpe >= d.sharpe && c.drawdown >= d.drawdown && c.stability >= d.stability
    && c.history >= d.history && c.quality >= d.quality
  }

  /** A fund no worse in every component never scores lower. */
  lemma ScoreMonotone(c: Components, d: Components)
    requires NoWorse(c, d)
    ensures Score(c) >= Score(d)
  {
    RoundMonotone(Weighted(d) * 1000000.0, Weighted(c) * 1000000.0);
  }

  /** The same for the stored evidence: more return, less drawdown, more history never score lower. */
  lemma BetterEvidence(f: Fund, g: Fund)
    requires f.history != [] && g.history != []
    requires OrZero(Metric(f, "cagr")) >= OrZero(Metric(g, "cagr"))
    requires OrZero(Metric(f, "sharpe")) >= OrZero(Metric(g, "sharpe"))
    requires Abs(OrZero(Metric(f, "maximum_drawdown"))) <= Abs(OrZero(Metric(g, "maximum_drawdown")))
    requires OrZero(Metric(f, "positive_period_ratio")) >= OrZero(Metric(g, "positive_period_ratio"))
    requires AgeDays(f) >= AgeDays(g)
    requires OrZero(Metric(f, "data_quality_score")) >= OrZero(Metric(g, "data_quality_score"))
    ensures Score(Evidence(f)) >= Score(Evidence(g))
  {
    hide AgeDays; hide OrZero; hide Abs; hide Score;
    ScoreMonotone(Evidence(f), Evidence(g));
  }

  ghost predicate InUnit(x: real) { 0.0 <= x <= 1.0 }

  ghost predicate InRange(c: Components) {
    && -1.0 <= c.cagr <= 1.0 && -0.5 <= c.sharpe <= 1.0 && InUnit(c.drawdown) && InUnit(c.stability)
    && InUnit(c.history) && InUnit(c.quality)
  }

  lemma ComponentsInRange(cagr: real, sharpe: real, drawdown: real, stability: real, age: int, quality: real)
    requires InUnit(stability) && InUnit(quality) && age >= 1
    ensures InRange(ComponentsOf(cagr, sharpe, drawdown, stability, age, quality))
  {}

  lemma WeightedRange(c: Components)
    requires InRange(c)
    ensures -350000.0 <= Weighted(c) * 1000000.0 <= 1000000.0
  {}

  /** The bounds are met only by a fund that is perfect, or worst, in every component at once. */
  lemma WeightedExtremes(c: Components)
    requires InRange(c)
    ensures Weighted(c) == 1.0 <==> c == Components(1.0, 1.0, 1.0, 1.0, 1.0, 1.0)
    ensures Weighted(c) == -0.35 <==> c == Components(-1.0, -0.5, 0.0, 0.0, 0.0, 0.0)
  {}

  /** Scores lie between -0.35 and 1, in millionths. */
  lemma ScoreRange(f: Fund)
    requires f.history != []
    requires InUnit(OrZero(Metric(f, "positive_period_ratio"))) && InUnit(OrZero(Metric(f, "data_quality_score")))
    ensures -350000 <= Score(Evidence(f)) <= 1000000
  {
    ComponentsInRange(OrZero(Metric(f, "cagr")), OrZero(Metric(f, "sharpe")), OrZero(Metric(f, "maximum_drawdown")),
                      OrZero(Metric(f, "positive_period_ratio")), AgeDays(f), OrZero(Metric(f, "data_quality_score")));
    var c := Evidence(f);
    hide ComponentsOf; hide InRange; hide AgeDays; hide OrZero; hide Metric;
    WeightedRange(c);
    hide Weighted;
    RoundMonotone(-350000.0, Weighted(c) * 1000000.0);
    RoundMonotone(Weighted(c) * 1000000.0, 1000000.0);
    Whole(-350000);
    Whole(1000000);
  }

  lemma Whole(n: int)
    ensures RoundHalfEven(n as real) == n
  {}

  // ----- the two metrics the range depends on, as the fund analytics produce them

  function Gains(navs: seq<real>): nat
    requires Finance.Positive(navs)
  {
    if |navs| < 2 then 0
    else Gains(navs[..|navs| - 1]) + if navs[|navs| - 1] / navs[|navs| - 2] - 1.0 > 0.0 then 1 else 0
  }

  function PositiveRatio(navs: seq<real>): real
    requires |navs| >= 2 && Finance.Positive(navs)
  {
    Gains(navs) as real / (|navs| - 1) as real
  }

  function QualityScore(observations: nat, days: int): real {
    MinReal(1.0, observations as real / 252.0) * (if days > 0 then 1.0 else 0.0)
  }

  lemma {:induction false} GainsBound(navs: seq<real>)
    requires Finance.Positive(navs)
    ensures |navs| >= 1 ==> Gains(navs) <= |navs| - 1
  {
    if |navs| >= 2 { GainsBound(navs[..|navs| - 1]); }
  }

  lemma AnalyticsInRange(navs: seq<real>, days: int)
    requires |navs| >= 2 && Finance.Positive(navs)
    ensures InUnit(PositiveRatio(navs)) && InUnit(QualityScore(|navs|, days))
  {
    GainsBound(navs);
    var g, n := Gains(navs) as real, (|navs| - 1) as real;
    hide Gains;
    assert 0.0 <= g <= n && n > 0.0;
    RatioInRange(g, n);
  }

  lemma RatioInRange(g: real, n: real)
    requires 0.0 <= g <= n && n > 0.0
    ensures InUnit(g / n)
  {}

  /** The stored metrics of f that the score reads without a clamp are those of its NAVs. */
  ghost predicate Analysed(f: Fund, navs: seq<real>) {
    && |navs| == |f.history| >= 2 && Finance.Positive(navs)
    && Metric(f, "positive_period_ratio") == Some(PositiveRatio(navs))
    && Metric(f, "data_quality_score") == Some(QualityScore(|navs|, f.history[|navs| - 1] - f.history[0]))
    && Metric(f, "maximum_drawdown").Some?
    && Finance.IsMaximumDrawdown(navs, Metric(f, "maximum_drawdown").value)
  }

  /** A fund with the metrics of its NAVs scores in the range, and its drawdown component is what was kept. */
  lemma AnalysedScore(f: Fund, navs: seq<real>)
    requires Analysed(f, navs)
    ensures -350000 <= Score(Evidence(f)) <= 1000000
    ensures Evidence(f).drawdown == 1.0 - Metric(f, "maximum_drawdown").value && Evidence(f).drawdown > 0.0
  {
    AnalyticsInRange(navs, f.history[|navs| - 1] - f.history[0]);
    Finance.MaximumDrawdownRange(navs, Metric(f, "maximum_drawdown").value);
    hide Score; hide PositiveRatio; hide QualityScore; hide Finance.IsMaximumDrawdown; hide Finance.Positive;
    ScoreRange(f);
  }

  // ----- the order

  predicate AtLeast(a: Candidate, b: Candidate) {
    a.score > b.score || (a.score == b.score && LexLe(a.name, b.name))
  }

  lemma AtLeastIsAnOrder()
    ensures TotalPreorder(AtLeast)
    ensures forall a, b :: Same(a, b, AtLeast) <==> a.score == b.score && a.name == b.name
  {
    forall a, b ensures AtLeast(a, b) || AtLeast(b, a) { LexTotal(a.name, b.name); }
    forall a, b, c | AtLeast(a, b) && AtLeast(b, c) ensures AtLeast(a, c) {
      if a.score == b.score == c.score { LexTransitive(a.name, b.name, c.name); }
    }
    forall a, b ensures Same(a, b, AtLeast) <==> a.score == b.score && a.name == b.name {
      LexTotal(a.name, b.name);
      if a.name == b.name { LexTotal(a.name, a.name); }
    }
  }

  // ----- the ranking

  predicate Listed(f: Fund, fundType: string) { f.fundType == fundType && f.active }

  function Known(funds: seq<Fund>, fundType: string): nat {
    if funds == [] then 0
    else Known(funds[..|funds| - 1], fundType) + if Listed(funds[|funds| - 1], fundType) then 1 else 0
  }

  function CandidateOf(f: Fund): Candidate
    requires f.history != []
  {
    Candidate(f.id, f.name, Score(Evidence(f)), Evidence(f), |f.history|)
  }

  predicate Enters(f: Fund, fundType: string, now: int) { Listed(f, fundType) && Exclusion(f, now).None? }

  function Candidates(funds: seq<Fund>, fundType: string, now: int): seq<Candidate> {
    if funds == [] then []
    else
      var f := funds[|funds| - 1];
      Candidates(funds[..|funds| - 1], fundType, now) + if Enters(f, fundType, now) then [CandidateOf(f)] else []
  }

  function Excluded(funds: seq<Fund>, fundType: string, now: int, reason: Reason): nat {
    if funds == [] then 0
    else
      var f := funds[|funds| - 1];
      Excluded(funds[..|funds| - 1], fundType, now, reason)
      + if Listed(f, fundType) && Exclusion(f, now) == Some(reason) then 1 else 0
  }

  function WithRanks(s: seq<Candidate>): (r: seq<Ranked>)
    ensures |r| == |s|
  {
    seq(|s|, i requires 0 <= i < |s| => Ranked(s[i], i + 1))
  }

  function Ranking(funds: seq<Fund>, fundType: string, now: int): seq<Ranked> {
    WithRanks(StableSort(Candidates(funds, fundType, now), AtLeast))
  }

  /** What the service returns for one fund type. */
  datatype Report = Report(items: seq<Ranked>, eligible: nat, known: nat, exclusions: map<Reason, nat>)

  ghost predicate Counts(m: map<Reason, nat>, funds: seq<Fund>, fundType: string, now: int) {
    forall r: Reason :: (r in m <==> Excluded(funds, fundType, now, r) > 0)
      && (r in m ==> m[r] == Excluded(funds, fundType, now, r))
  }

  method RankFunds(funds: seq<Fund>, fundType: string, now: int) returns (report: Report)
    ensures report.items == Ranking(funds, fundType, now)
    ensures report.eligible == |report.items|
    ensures report.known == Known(funds, fundType)
    ensures Counts(report.exclusions, funds, fundType, now)
  {
    hide Candidates; hide Known; hide Counts; hide Exclusion; hide CandidateOf; hide StableSort; hide WithRanks;
    var candidates: seq<Candidate> := [];
    var exclusions: map<Reason, nat> := map[];
    var known := 0;
    NoFunds(fundType, now);
    for i := 0 to |funds|
      invariant candidates == Candidates(funds[..i], fundType, now)
      invariant known == Known(funds[..i], fundType)
      invariant Counts(exclusions, funds[..i], fundType, now)
    {
      var f := funds[i];
      OneMoreFund(funds, i, fundType, now);
      CountsStep(exclusions, funds, i, fundType, now);
      if Listed(f, fundType) {
        known := known + 1;
        var reason := Exclusion(f, now);
        if reason.Some? {
          var sofar := if reason.value in exclusions then exclusions[reason.value] else 0;
          exclusions := exclusions[reason.value := sofar + 1];
        } else {
          HasHistory(f, now);
          candidates := candidates + [CandidateOf(f)];
        }
      }
    }
    assert funds[..|funds|] == funds;
    var sorted := StableSort(candidates, AtLeast);
    var items: seq<Ranked> := [];
    RankedSoFar(sorted);
    for i := 0 to |sorted|
      invariant items == WithRanks(sorted[..i])
    {
      OneMoreRank(sorted, i);
      items := items + [Ranked(sorted[i], i + 1)];
    }
    assert sorted[..|sorted|] == sorted;
    report := Report(items, |candidates|, known, exclusions);
  }

  lemma HasHistory(f: Fund, now: int)
    requires Exclusion(f, now).None?
    ensures f.history != []
  {}

  lemma NoFunds(fundType: string, now: int)
    ensures Candidates([], fundType, now) == [] && Known([], fundType) == 0 && Counts(map[], [], fundType, now)
  {}

  lemma OneMoreFund(funds: seq<Fund>, i: nat, fundType: string, now: int)
    requires i < |funds|
    ensures Known(funds[..i + 1], fundType) == Known(funds[..i], fundType) + if Listed(funds[i], fundType) then 1 else 0
    ensures Enters(funds[i], fundType, now) ==> funds[i].history != []
    ensures Candidates(funds[..i + 1], fundType, now) ==
      Candidates(funds[..i], fundType, now) + if Enters(funds[i], fundType, now) then [CandidateOf(funds[i])] else []
  {
    hide CandidateOf;
    assert funds[..i + 1][..i] == funds[..i];
  }

  lemma CountsStep(m: map<Reason, nat>, funds: seq<Fund>, i: nat, fundType: string, now: int)
    requires i < |funds| && Counts(m, funds[..i], fundType, now)
    ensures var f := funds[i];
      if Listed(f, fundType) && Exclusion(f, now).Some? then
        var r := Exclusion(f, now).value;
        Counts(m[r := (if r in m then m[r] else 0) + 1], funds[..i + 1], fundType, now)
      else Counts(m, funds[..i + 1], fundType, now)
  {
    hide Exclusion;
    assert funds[..i + 1][..i] == funds[..i];
  }

  lemma RankedSoFar(s: seq<Candidate>)
    ensures WithRanks(s[..0]) == []
  {}

  lemma OneMoreRank(s: seq<Candidate>, i: nat)
    requires i < |s|
    ensures WithRanks(s[..i + 1]) == WithRanks(s[..i]) + [Ranked(s[i], i + 1)]
  {}

  /** Every known fund is ranked or excluded for exactly one reason. */
  lemma {:induction false} EveryFundAccounted(funds: seq<Fund>, fundType: string, now: int)
    ensures Known(funds, fundType) == |Ranking(funds, fundType, now)|
      + Excluded(funds, fundType, now, InvalidQuality) + Excluded(funds, fundType, now, InsufficientHistory)
      + Excluded(funds, fundType, now, MissingTimestamp) + Excluded(funds, fundType, now, Stale)
      + Excluded(funds, fundType, now, MissingMetrics)
  {
    if funds != [] { EveryFundAccounted(funds[..|funds| - 1], fundType, now); }
  }

  /** A rank is one more than the number of candidates strictly ahead, up to exact ties. */
  lemma RankIsPosition(funds: seq<Fund>, fundType: string, now: int, p: nat)
    requires p < |Ranking(funds, fundType, now)|
    ensures var item, all := Ranking(funds, fundType, now)[p], Candidates(funds, fundType, now);
      Below(all, item.candidate, AtLeast) < item.rank <=
        Below(all, item.candidate, AtLeast) + |Ties(all, item.candidate, AtLeast)|
  {
    var all := Candidates(funds, fundType, now);
    AtLeastIsAnOrder();
    SortIsStable(all, AtLeast);
    var sorted := StableSort(all, AtLeast);
    PlaceOf(sorted, p, AtLeast);
    SortBelow(all, sorted[p], AtLeast);
    assert Ties(sorted, sorted[p], AtLeast) == Ties(all, sorted[p], AtLeast);
  }

  /** Ranks run from 1, scores never increase, and equal scores are in the order of their names. */
  lemma RanksInOrder(funds: seq<Fund>, fundType: string, now: int)
    ensures var items := Ranking(funds, fundType, now);
      forall i, j :: 0 <= i < j < |items| ==>
        && items[i].rank < items[j].rank && items[i].candidate.score >= items[j].candidate.score
        && (items[i].candidate.score == items[j].candidate.score ==>
              LexLe(items[i].candidate.name, items[j].candidate.name))
  {
    AtLeastIsAnOrder();
    SortIsStable(Candidates(funds, fundType, now), AtLeast);
  }

  /** The ranked candidates are the eligible funds, each as often as it is listed. */
  lemma RankedAreEligible(funds: seq<Fund>, fundType: string, now: int, c: Candidate)
    ensures (exists p :: 0 <= p < |Ranking(funds, fundType, now)| && Ranking(funds, fundType, now)[p].candidate == c)
      <==> FromFund(funds, fundType, now, c)
  {
    var all := Candidates(funds, fundType, now);
    var sorted := StableSort(all, AtLeast);
    CandidateMembers(funds, fundType, now, c);
    assert c in all <==> c in multiset(all);
    assert c in sorted <==> c in multiset(sorted);
    var ranking := WithRanks(sorted);
    assert ranking == Ranking(funds, fundType, now);
    hide CandidateOf; hide Candidates; hide Enters; hide StableSort;
    assert forall p :: 0 <= p < |ranking| ==> ranking[p].candidate == sorted[p];
    if c in sorted {
      var p :| 0 <= p < |sorted| && sorted[p] == c;
      assert ranking[p].candidate == c;
    }
  }

  /** c stands for one of the funds that pass the gate. */
  ghost predicate FromFund(funds: seq<Fund>, fundType: string, now: int, c: Candidate) {
    exists i :: 0 <= i < |funds| && Enters(funds[i], fundType, now) && CandidateOf(funds[i]) == c
  }

  lemma FromFundAppend(rest: seq<Fund>, f: Fund, fundType: string, now: int, c: Candidate)
    ensures FromFund(rest + [f], fundType, now, c) <==>
      FromFund(rest, fundType, now, c) || (Enters(f, fundType, now) && CandidateOf(f) == c)
  {
    var all := rest + [f];
    assert all[|rest|] == f && forall i :: 0 <= i < |rest| ==> all[i] == rest[i];
    if i :| 0 <= i < |rest| && Enters(rest[i], fundType, now) && CandidateOf(rest[i]) == c {
      assert Enters(all[i], fundType, now) && CandidateOf(all[i]) == c;
    }
  }

  lemma {:induction false} CandidateMembers(funds: seq<Fund>, fundType: string, now: int, c: Candidate)
    ensures c in Candidates(funds, fundType, now) <==> FromFund(funds, fundType, now, c)
  {
    if funds == [] { return; }
    var n := |funds| - 1;
    hide CandidateOf; hide Enters; hide FromFund;
    CandidateMembers(funds[..n], fundType, now, c);
    FromFundAppend(funds[..n], funds[n], fundType, now, c);
    assert funds == funds[..n] + [funds[n]];
  }

  ghost predicate AllAnalysed(funds: seq<Fund>, fundType: string, now: int) {
    forall i :: 0 <= i < |funds| && Enters(funds[i], fundType, now) ==> exists navs :: Analysed(funds[i], navs)
  }

  /** A ranking of funds with the metrics of their NAVs has scores between -0.35 and 1. */
  lemma RankedScoresInRange(funds: seq<Fund>, fundType: string, now: int, p: nat)
    requires AllAnalysed(funds, fundType, now) && p < |Ranking(funds, fundType, now)|
    ensures -350000 <= Ranking(funds, fundType, now)[p].candidate.score <= 1000000
  {
    var c := Ranking(funds, fundType, now)[p].candidate;
    hide Ranking; hide Analysed; hide Evidence; hide Score; hide Exclusion;
    RankedAreEligible(funds, fundType, now, c);
    var i :| 0 <= i < |funds| && Enters(funds[i], fundType, now) && CandidateOf(funds[i]) == c;
    var navs :| Analysed(funds[i], navs);
    AnalysedScore(funds[i], navs);
  }

  // ----- the order of the input

  /** The candidates that tie with c, as a bag. */
  function TieBag(funds: seq<Fund>, fundType: string, now: int, c: Candidate): multiset<Candidate> {
    multiset(Ties(Candidates(funds, fundType, now), c, AtLeast))
  }

  lemma {:induction false} CandidatesConcat(a: seq<Fund>, b: seq<Fund>, fundType: string, now: int)
    ensures Candidates(a + b, fundType, now) == Candidates(a, fundType, now) + Candidates(b, fundType, now)
  {
    if b == [] {
      assert a + b == a;
    } else {
      CandidatesConcat(a, b[..|b| - 1], fundType, now);
      assert (a + b)[..|a + b| - 1] == a + b[..|b| - 1];
    }
  }

  lemma TieBagConcat(a: seq<Fund>, b: seq<Fund>, fundType: string, now: int, c: Candidate)
    ensures TieBag(a + b, fundType, now, c) == TieBag(a, fundType, now, c) + TieBag(b, fundType, now, c)
  {
    CandidatesConcat(a, b, fundType, now);
    TiesConcat(Candidates(a, fundType, now), Candidates(b, fundType, now), c, AtLeast);
  }

  /** b with its element at i moved to the front holds the same elements. */
  lemma MovedToFront(b: seq<Fund>, i: nat)
    requires i < |b|
    ensures b == b[..i] + [b[i]] + b[i + 1..]
    ensures multiset(b) == multiset([b[i]] + (b[..i] + b[i + 1..]))
    ensures multiset(b[..i] + b[i + 1..]) == multiset(b) - multiset([b[i]])
  {
    assert b == b[..i] + [b[i]] + b[i + 1..];
  }

  lemma TieBagFront(b: seq<Fund>, i: nat, fundType: string, now: int, c: Candidate)
    requires i < |b|
    ensures TieBag(b, fundType, now, c) ==
      TieBag([b[i]], fundType, now, c) + TieBag(b[..i] + b[i + 1..], fundType, now, c)
  {
    var front, back := b[..i], b[i + 1..];
    MovedToFront(b, i);
    assert b == front + ([b[i]] + back);
    hide TieBag;
    TieBagConcat(front, back, fundType, now, c);
    TieBagConcat(front, [b[i]] + back, fundType, now, c);
    TieBagConcat([b[i]], back, fundType, now, c);
  }

  lemma {:induction false} TieBagPermuted(a: seq<Fund>, b: seq<Fund>, fundType: string, now: int, c: Candidate)
    requires multiset(a) == multiset(b)
    ensures TieBag(a, fundType, now, c) == TieBag(b, fundType, now, c)
  {
    hide TieBag;
    if a == [] {
      assert |multiset(a)| == |a| && |multiset(b)| == |b|;
    } else {
      assert a[0] in multiset(b);
      var i :| 0 <= i < |b| && b[i] == a[0];
      var tail, rest := a[..0] + a[1..], b[..i] + b[i + 1..];
      MovedToFront(a, 0);
      MovedToFront(b, i);
      TieBagFront(a, 0, fundType, now, c);
      TieBagFront(b, i, fundType, now, c);
      TieBagPermuted(tail, rest, fundType, now, c);
    }
  }

  /** Candidates with the same score and the same name are one and the same. */
  ghost predicate TiesAlike(funds: seq<Fund>, fundType: string, now: int) {
    forall i, j :: 0 <= i < |funds| && 0 <= j < |funds| && Enters(funds[i], fundType, now)
      && Enters(funds[j], fundType, now) && Same(CandidateOf(funds[i]), CandidateOf(funds[j]), AtLeast)
      ==> CandidateOf(funds[i]) == CandidateOf(funds[j])
  }

  lemma {:induction false} TieMembers(s: seq<Candidate>, c: Candidate)
    ensures forall x :: x in Ties(s, c, AtLeast) ==> x in s && Same(x, c, AtLeast)
  {
    if s != [] { TieMembers(s[1..], c); }
  }

  lemma AlikeBag(s: seq<Candidate>, t: seq<Candidate>)
    requires multiset(s) == multiset(t) && forall i, j :: 0 <= i < |s| && 0 <= j < |s| ==> s[i] == s[j]
    ensures s == t
  {
    assert |multiset(s)| == |s| && |multiset(t)| == |t|;
    forall k | 0 <= k < |t| ensures t[k] == s[k] {
      assert t[k] in multiset(s);
    }
  }

  lemma SameTies(a: seq<Fund>, b: seq<Fund>, fundType: string, now: int, c: Candidate)
    requires multiset(a) == multiset(b) && TiesAlike(a, fundType, now)
    ensures Ties(Candidates(a, fundType, now), c, AtLeast) == Ties(Candidates(b, fundType, now), c, AtLeast)
  {
    var s := Ties(Candidates(a, fundType, now), c, AtLeast);
    TieBagPermuted(a, b, fundType, now, c);
    TieMembers(Candidates(a, fundType, now), c);
    AtLeastIsAnOrder();
    forall i, j | 0 <= i < |s| && 0 <= j < |s| ensures s[i] == s[j] {
      CandidateMembers(a, fundType, now, s[i]);
      CandidateMembers(a, fundType, now, s[j]);
      assert Same(s[i], c, AtLeast) && Same(s[j], c, AtLeast);
    }
    AlikeBag(s, Ties(Candidates(b, fundType, now), c, AtLeast));
  }

  lemma SameRanking(a: seq<Fund>, b: seq<Fund>, fundType: string, now: int)
    requires multiset(a) == multiset(b) && TiesAlike(a, fundType, now)
    ensures Ranking(a, fundType, now) == Ranking(b, fundType, now)
  {
    var all, all' := Candidates(a, fundType, now), Candidates(b, fundType, now);
    AtLeastIsAnOrder();
    SortIsStable(all, AtLeast);
    SortIsStable(all', AtLeast);
    forall c ensures Ties(StableSort(all, AtLeast), c, AtLeast) == Ties(StableSort(all', AtLeast), c, AtLeast) {
      SameTies(a, b, fundType, now, c);
      assert Ties(StableSort(all, AtLeast), c, AtLeast) == Ties(all, c, AtLeast);
    }
    ArrangementUnique(StableSort(all, AtLeast), StableSort(all', AtLeast), AtLeast);
  }

  function FundFirst(funds: seq<Fund>, i: nat): (r: seq<Fund>)
    requires i < |funds|
    ensures multiset(r) == multiset(funds)
  {
    MovedToFront(funds, i);
    [funds[i]] + (funds[..i] + funds[i + 1..])
  }

  /** A fund read first comes first among its ties. */
  lemma FirstAmongTies(funds: seq<Fund>, i: nat, fundType: string, now: int, c: Candidate)
    requires i < |funds| && Enters(funds[i], fundType, now) && Same(CandidateOf(funds[i]), c, AtLeast)
    ensures var t := Ties(StableSort(Candidates(FundFirst(funds, i), fundType, now), AtLeast), c, AtLeast);
      t != [] && t[0] == CandidateOf(funds[i])
  {
    var x, rest := CandidateOf(funds[i]), funds[..i] + funds[i + 1..];
    var all := Candidates(FundFirst(funds, i), fundType, now);
    AtLeastIsAnOrder();
    SortIsStable(all, AtLeast);
    CandidatesConcat([funds[i]], rest, fundType, now);
    assert Candidates([funds[i]], fundType, now) == [x];
    TiesConcat([x], Candidates(rest, fundType, now), c, AtLeast);
    assert Ties([x], c, AtLeast) == [x];
    assert Ties(StableSort(all, AtLeast), c, AtLeast) == Ties(all, c, AtLeast);
  }

  lemma RankingGivesOrder(a: seq<Fund>, b: seq<Fund>, fundType: string, now: int)
    requires Ranking(a, fundType, now) == Ranking(b, fundType, now)
    ensures StableSort(Candidates(a, fundType, now), AtLeast) == StableSort(Candidates(b, fundType, now), AtLeast)
  {
    var s := StableSort(Candidates(a, fundType, now), AtLeast);
    var t := StableSort(Candidates(b, fundType, now), AtLeast);
    assert |WithRanks(s)| == |WithRanks(t)|;
    forall i | 0 <= i < |s| ensures s[i] == t[i] {
      assert WithRanks(s)[i] == WithRanks(t)[i];
    }
  }

  ghost predicate OrderIrrelevant(funds: seq<Fund>, fundType: string, now: int) {
    forall other | multiset(other) == multiset(funds) :: Ranking(other, fundType, now) == Ranking(funds, fundType, now)
  }

  /** The order in which funds are read does not matter exactly when no two different candidates tie. */
  lemma InputOrderIrrelevantIff(funds: seq<Fund>, fundType: string, now: int)
    ensures OrderIrrelevant(funds, fundType, now) <==> TiesAlike(funds, fundType, now)
  {
    if TiesAlike(funds, fundType, now) {
      forall other | multiset(other) == multiset(funds)
        ensures Ranking(other, fundType, now) == Ranking(funds, fundType, now)
      {
        SameRanking(funds, other, fundType, now);
      }
    }
    if OrderIrrelevant(funds, fundType, now) {
      forall i, j | 0 <= i < |funds| && 0 <= j < |funds| && Enters(funds[i], fundType, now)
        && Enters(funds[j], fundType, now) && Same(CandidateOf(funds[i]), CandidateOf(funds[j]), AtLeast)
        ensures CandidateOf(funds[i]) == CandidateOf(funds[j])
      {
        var c := CandidateOf(funds[j]);
        AtLeastIsAnOrder();
        FirstAmongTies(funds, i, fundType, now, c);
        FirstAmongTies(funds, j, fundType, now, c);
        RankingGivesOrder(FundFirst(funds, i), FundFirst(funds, j), fundType, now);
      }
    }
  }
}
