/**
 The ranking in the figures of the stored metrics: who is counted, excluded and ranked, with which score, and what
 the two analytics the score trusts are.
 */
module RankingFigures {
  import opened Arith
  import opened Common
  import opened Ordering
  import opened Gate = Ranking
  import Finance

  // ----- the gate

  ghost predicate Stored(f: Fund, name: string) { name in f.metrics && f.metrics[name].Some? }

  ghost predicate AllStored(f: Fund) {
    Stored(f, "cagr") && Stored(f, "sharpe") && Stored(f, "maximum_drawdown") && Stored(f, "positive_period_ratio")
  }

  /** Why a fund is not ranked: the first of five conditions that holds. */
  ghost predicate FailsFor(f: Fund, now: int, reason: Reason) {
    var valid, enough, dated := f.quality == "valid", |f.history| >= 90, f.lastDataAt.Some?;
    var recent := dated && now < f.lastDataAt.value + 8 * 86400;
    match reason
    case InvalidQuality => !valid
    case InsufficientHistory => valid && !enough
    case MissingTimestamp => valid && enough && !dated
    case Stale => valid && enough && dated && !recent
    case MissingMetrics => valid && enough && recent && !AllStored(f)
  }

  ghost predicate Passes(f: Fund, now: int) { forall reason: Reason :: !FailsFor(f, now, reason) }

  lemma ExclusionInFigures(f: Fund, now: int)
    ensures forall reason: Reason :: Exclusion(f, now) == Some(reason) <==> FailsFor(f, now, reason)
    ensures Exclusion(f, now).None? <==> Passes(f, now)
  {
    EligibleIff(f, now);
    if Exclusion(f, now).None? {
      forall reason: Reason ensures !FailsFor(f, now, reason) {}
    } else {
      assert FailsFor(f, now, Exclusion(f, now).value);
    }
  }

  // ----- the score

  /** A value moved into an interval. */
  ghost function Clamped(x: real, low: real, high: real): real { if x < low then low else if x > high then high else x }

  ghost function Of(f: Fund, name: string): real { if Stored(f, name) then f.metrics[name].value else 0.0 }

  /** The days between the first and the last row, but at least one. */
  ghost function Age(f: Fund): int
    requires f.history != []
  {
    var days := f.history[|f.history| - 1] - f.history[0];
    if days < 1 then 1 else days
  }

  /**
   The score in millionths, before rounding: a quarter for the yearly return, a tenth per unit of the Sharpe ratio, a
   fifth for what the drawdown left, 15 percent for the share of gains, a tenth for three years of history and a
   tenth for the data quality.
   */
  ghost function PointsFor(cagr: real, sharpe: real, drawdown: real, ratio: real, age: int, quality: real): real {
    250000.0 * Clamped(cagr, -1.0, 1.0) + 100000.0 * Clamped(sharpe, -1.0, 2.0)
    + 200000.0 * (1.0 - Clamped(if drawdown < 0.0 then -drawdown else drawdown, 0.0, 1.0))
    + 150000.0 * ratio + 100000.0 * Clamped(age as real / 1095.75, 0.0, 1.0) + 100000.0 * quality
  }

  ghost function Points(f: Fund): real
    requires f.history != []
  {
    PointsFor(Of(f, "cagr"), Of(f, "sharpe"), Of(f, "maximum_drawdown"), Of(f, "positive_period_ratio"), Age(f),
              Of(f, "data_quality_score"))
  }

  /** The nearest whole number; of two, the even one. */
  ghost predicate Nearest(n: int, x: real) {
    && -0.5 <= n as real - x <= 0.5
    && (n as real - x == 0.5 || n as real - x == -0.5 ==> n % 2 == 0)
  }

  lemma MetricIs(f: Fund, name: string)
    ensures OrZero(Metric(f, name)) == Of(f, name)
    ensures Metric(f, name).Some? <==> Stored(f, name)
  {}

  lemma PointsOf(cagr: real, sharpe: real, drawdown: real, ratio: real, age: int, quality: real)
    requires age >= 1
    ensures Weighted(ComponentsOf(cagr, sharpe, drawdown, ratio, age, quality)) * 1000000.0
      == PointsFor(cagr, sharpe, drawdown, ratio, age, quality)
  {
    assert 365.25 * 3.0 == 1095.75;
  }

  lemma EvidenceOf(f: Fund)
    requires f.history != []
    ensures Age(f) >= 1
    ensures Evidence(f) == ComponentsOf(Of(f, "cagr"), Of(f, "sharpe"), Of(f, "maximum_drawdown"),
                                        Of(f, "positive_period_ratio"), Age(f), Of(f, "data_quality_score"))
  {
    MetricIs(f, "cagr");
    MetricIs(f, "sharpe");
    MetricIs(f, "maximum_drawdown");
    MetricIs(f, "positive_period_ratio");
    MetricIs(f, "data_quality_score");
    assert AgeDays(f) == Age(f);
    hide Of; hide OrZero; hide Metric; hide ComponentsOf;
  }

  lemma ScoreRounds(c: Components)
    ensures Nearest(Score(c), Weighted(c) * 1000000.0)
  {
    RoundNear(Weighted(c) * 1000000.0, Score(c));
  }

  /** The score of a fund is the nearest whole number to its points. */
  lemma ScoreInFigures(f: Fund)
    requires f.history != []
    ensures Nearest(Score(Evidence(f)), Points(f))
  {
    hide Age; hide Of; hide Weighted; hide ComponentsOf; hide PointsFor; hide Evidence; hide Score; hide Nearest;
    EvidenceOf(f);
    ScoreRounds(Evidence(f));
    PointsOf(Of(f, "cagr"), Of(f, "sharpe"), Of(f, "maximum_drawdown"), Of(f, "positive_period_ratio"), Age(f),
             Of(f, "data_quality_score"));
  }

  /** The component values shown beside a score. */
  ghost predicate ComponentsTold(c: Components, f: Fund)
    requires f.history != []
  {
    && c.cagr == Clamped(Of(f, "cagr"), -1.0, 1.0)
    && 2.0 * c.sharpe == Clamped(Of(f, "sharpe"), -1.0, 2.0)
    && c.drawdown == 1.0 - Clamped(if Of(f, "maximum_drawdown") < 0.0 then -Of(f, "maximum_drawdown")
                                   else Of(f, "maximum_drawdown"), 0.0, 1.0)
    && c.stability == Of(f, "positive_period_ratio") && c.quality == Of(f, "data_quality_score")
    && c.history == Clamped(Age(f) as real / 1095.75, 0.0, 1.0)
  }

  lemma EvidenceTold(f: Fund)
    requires f.history != []
    ensures ComponentsTold(Evidence(f), f)
  {
    EvidenceOf(f);
    assert 365.25 * 3.0 == 1095.75;
    hide Of; hide Evidence; hide Age;
  }

  // ----- the report

  ghost predicate OfType(f: Fund, fundType: string) { f.fundType == fundType && f.active }

  ghost function KnownAt(funds: seq<Fund>, fundType: string): set<int> {
    set i | 0 <= i < |funds| && OfType(funds[i], fundType)
  }

  ghost function FailingAt(funds: seq<Fund>, fundType: string, now: int, reason: Reason): set<int> {
    set i | 0 <= i < |funds| && OfType(funds[i], fundType) && FailsFor(funds[i], now, reason)
  }

  ghost function PassingAt(funds: seq<Fund>, fundType: string, now: int): set<int> {
    set i | 0 <= i < |funds| && OfType(funds[i], fundType) && Passes(funds[i], now)
  }

  lemma {:induction false} KnownCount(funds: seq<Fund>, fundType: string)
    ensures Known(funds, fundType) == |KnownAt(funds, fundType)|
  {
    if funds == [] {
      assert KnownAt(funds, fundType) == {};
    } else {
      var n, rest := |funds| - 1, funds[..|funds| - 1];
      KnownCount(rest, fundType);
      assert n !in KnownAt(rest, fundType);
      assert KnownAt(funds, fundType) == KnownAt(rest, fundType) + if OfType(funds[n], fundType) then {n} else {};
    }
  }

  lemma FailingStep(rest: seq<Fund>, f: Fund, fundType: string, now: int, reason: Reason)
    ensures |FailingAt(rest + [f], fundType, now, reason)| == |FailingAt(rest, fundType, now, reason)|
      + if OfType(f, fundType) && FailsFor(f, now, reason) then 1 else 0
  {
    hide FailsFor; hide OfType;
    var all, n := rest + [f], |rest|;
    forall i | 0 <= i < n ensures all[i] == rest[i] {}
    assert all[n] == f && n !in FailingAt(rest, fundType, now, reason);
    var counts := OfType(f, fundType) && FailsFor(f, now, reason);
    assert FailingAt(all, fundType, now, reason) == FailingAt(rest, fundType, now, reason) + if counts then {n} else {};
  }

  lemma {:induction false} FailingCount(funds: seq<Fund>, fundType: string, now: int, reason: Reason)
    ensures Excluded(funds, fundType, now, reason) == |FailingAt(funds, fundType, now, reason)|
  {
    if funds == [] {
      assert FailingAt(funds, fundType, now, reason) == {};
      return;
    }
    hide FailsFor; hide Exclusion; hide FailingAt;
    var rest, f := funds[..|funds| - 1], funds[|funds| - 1];
    assert funds == rest + [f];
    FailingCount(rest, fundType, now, reason);
    ExclusionInFigures(f, now);
    FailingStep(rest, f, fundType, now, reason);
  }

  lemma PassingStep(rest: seq<Fund>, f: Fund, fundType: string, now: int)
    ensures |PassingAt(rest + [f], fundType, now)| == |PassingAt(rest, fundType, now)|
      + if OfType(f, fundType) && Passes(f, now) then 1 else 0
  {
    hide Passes; hide OfType;
    var all, n := rest + [f], |rest|;
    forall i | 0 <= i < n ensures all[i] == rest[i] {}
    assert all[n] == f && n !in PassingAt(rest, fundType, now);
    var counts := OfType(f, fundType) && Passes(f, now);
    assert PassingAt(all, fundType, now) == PassingAt(rest, fundType, now) + if counts then {n} else {};
  }

  lemma {:induction false} PassingCount(funds: seq<Fund>, fundType: string, now: int)
    ensures |Candidates(funds, fundType, now)| == |PassingAt(funds, fundType, now)|
  {
    if funds == [] {
      assert PassingAt(funds, fundType, now) == {};
      return;
    }
    hide Passes; hide Exclusion; hide CandidateOf; hide PassingAt;
    var rest, f := funds[..|funds| - 1], funds[|funds| - 1];
    assert funds == rest + [f];
    PassingCount(rest, fundType, now);
    ExclusionInFigures(f, now);
    PassingHasHistory(f, now);
    PassingStep(rest, f, fundType, now);
  }

  lemma PassingHasHistory(f: Fund, now: int)
    ensures Exclusion(f, now).None? ==> f.history != []
  {}

  /** A ranked item that stands for a fund, in its own figures. */
  ghost predicate StandsFor(c: Candidate, f: Fund) {
    && f.history != []
    && c.id == f.id && c.name == f.name && c.observations == |f.history|
    && Nearest(c.score, Points(f)) && ComponentsTold(c.components, f)
  }

  lemma CandidateStands(f: Fund)
    requires f.history != []
    ensures StandsFor(CandidateOf(f), f)
  {
    ScoreInFigures(f);
    EvidenceTold(f);
    hide Points; hide Nearest; hide Score; hide Evidence; hide ComponentsTold;
  }

  ghost predicate SomeFundFor(c: Candidate, funds: seq<Fund>, fundType: string, now: int) {
    exists i :: i in PassingAt(funds, fundType, now) && StandsFor(c, funds[i])
  }

  lemma ItemStandsFor(funds: seq<Fund>, fundType: string, now: int, p: nat)
    requires p < |Ranking(funds, fundType, now)|
    ensures SomeFundFor(Ranking(funds, fundType, now)[p].candidate, funds, fundType, now)
  {
    var c := Ranking(funds, fundType, now)[p].candidate;
    hide Ranking; hide CandidateOf; hide Passes; hide StandsFor;
    RankedAreEligible(funds, fundType, now, c);
    var i :| 0 <= i < |funds| && Enters(funds[i], fundType, now) && CandidateOf(funds[i]) == c;
    ExclusionInFigures(funds[i], now);
    CandidateStands(funds[i]);
    assert i in PassingAt(funds, fundType, now);
  }

  ghost predicate HasItemFor(items: seq<Ranked>, f: Fund) {
    exists p :: 0 <= p < |items| && StandsFor(items[p].candidate, f)
  }

  /** Every fund that passes has an item that stands for it. */
  lemma PassingIsRanked(funds: seq<Fund>, fundType: string, now: int, i: int)
    requires i in PassingAt(funds, fundType, now)
    ensures HasItemFor(Ranking(funds, fundType, now), funds[i])
  {
    ExclusionInFigures(funds[i], now);
    PassingHasHistory(funds[i], now);
    hide Ranking; hide CandidateOf; hide Passes; hide StandsFor; hide Exclusion;
    CandidateStands(funds[i]);
    assert FromFund(funds, fundType, now, CandidateOf(funds[i]));
    RankedAreEligible(funds, fundType, now, CandidateOf(funds[i]));
    var p :| 0 <= p < |Ranking(funds, fundType, now)|
      && Ranking(funds, fundType, now)[p].candidate == CandidateOf(funds[i]);
    assert StandsFor(Ranking(funds, fundType, now)[p].candidate, funds[i]);
  }

  /**
   The whole report in figures: as many items as funds of the type pass, ranked from one, each standing for one of
   them; the known funds; and the number of funds that fail for each reason.
   */
  lemma ReportInFigures(funds: seq<Fund>, fundType: string, now: int)
    ensures var items := Ranking(funds, fundType, now);
      && |items| == |PassingAt(funds, fundType, now)|
      && (forall p :: 0 <= p < |items| ==>
            items[p].rank == p + 1 && SomeFundFor(items[p].candidate, funds, fundType, now))
      && Known(funds, fundType) == |KnownAt(funds, fundType)|
      && (forall reason: Reason ::
            Excluded(funds, fundType, now, reason) == |FailingAt(funds, fundType, now, reason)|)
  {
    PassingCount(funds, fundType, now);
    KnownCount(funds, fundType);
    var items := Ranking(funds, fundType, now);
    hide Candidates; hide Known; hide Excluded; hide KnownAt; hide FailingAt; hide SomeFundFor; hide PassingAt;
    hide StableSort;
    forall reason: Reason
      ensures Excluded(funds, fundType, now, reason) == |FailingAt(funds, fundType, now, reason)|
    {
      FailingCount(funds, fundType, now, reason);
    }
    forall p | 0 <= p < |items|
      ensures items[p].rank == p + 1 && SomeFundFor(items[p].candidate, funds, fundType, now)
    {
      ItemStandsFor(funds, fundType, now, p);
    }
  }

  // ----- the analytics the score trusts

  ghost predicate RisesAt(navs: seq<real>, i: int) { 0 < i < |navs| && navs[i] > navs[i - 1] }

  ghost function GainsAt(navs: seq<real>): set<int> { set i | 0 <= i < |navs| && RisesAt(navs, i) }

  lemma GainIsRise(before: real, after: real)
    requires before > 0.0
    ensures after / before - 1.0 > 0.0 <==> after > before
  {
    var q := after / before;
    DivMul(after, before);
    if q > 1.0 { MulMonoStrict(1.0, q, before); } else { MulMono(q, 1.0, before); }
  }

  lemma GainsStep(rest: seq<real>, x: real)
    requires rest != []
    ensures |GainsAt(rest + [x])| == |GainsAt(rest)| + if x > rest[|rest| - 1] then 1 else 0
  {
    var all, n := rest + [x], |rest|;
    forall i | 0 <= i < n ensures RisesAt(all, i) == RisesAt(rest, i) {}
    assert RisesAt(all, n) <==> x > rest[n - 1];
    hide RisesAt;
    assert n !in GainsAt(rest);
    assert GainsAt(all) == GainsAt(rest) + if RisesAt(all, n) then {n} else {};
  }

  lemma {:induction false} GainsCount(navs: seq<real>)
    requires Finance.Positive(navs)
    ensures Gains(navs) == |GainsAt(navs)|
  {
    if |navs| < 2 {
      assert GainsAt(navs) == {};
      return;
    }
    hide GainsAt;
    var n, rest := |navs| - 1, navs[..|navs| - 1];
    assert navs == rest + [navs[n]];
    GainsCount(rest);
    GainIsRise(navs[n - 1], navs[n]);
    GainsStep(rest, navs[n]);
  }

  /** The share of rises, and a full score for 252 rows over more than one day. */
  lemma AnalyticsInFigures(navs: seq<real>, days: int)
    requires |navs| >= 2 && Finance.Positive(navs)
    ensures PositiveRatio(navs) * (|navs| - 1) as real == |GainsAt(navs)| as real
    ensures days <= 0 ==> QualityScore(|navs|, days) == 0.0
    ensures days > 0 && |navs| >= 252 ==> QualityScore(|navs|, days) == 1.0
    ensures days > 0 && |navs| < 252 ==> 252.0 * QualityScore(|navs|, days) == |navs| as real
  {
    GainsCount(navs);
    hide Gains; hide GainsAt; hide Finance.Positive;
  }
}
