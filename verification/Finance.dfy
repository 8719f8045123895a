/** The one-pass risk calculations and the savings plan, each against a declarative meaning. */
module Finance {
  import opened Common
  import opened RealSeqs
  import opened Arith

  datatype FinanceError =
    | ReturnBelowMinusOne | EmptySeries | NonPositiveValue | DivisionByZero

  // ----- cumulative return

  /** Compounds the period returns; a period return below -1 is refused. */
  method CumulativeReturn(periodReturns: seq<real>) returns (r: Result<real, FinanceError>)
    ensures (exists i :: 0 <= i < |periodReturns| && periodReturns[i] < -1.0) ==> r == Err(ReturnBelowMinusOne)
    ensures (forall i :: 0 <= i < |periodReturns| ==> periodReturns[i] >= -1.0) ==>
      r == Ok(Growth(periodReturns) - 1.0)
  {
    var growth := 1.0;
    for i := 0 to |periodReturns|
      invariant growth == Growth(periodReturns[..i])
      invariant forall j :: 0 <= j < i ==> periodReturns[j] >= -1.0
    {
      if periodReturns[i] < -1.0 { return Err(ReturnBelowMinusOne); }
      GrowthAppend(periodReturns[..i], periodReturns[i]);
      assert periodReturns[..i + 1] == periodReturns[..i] + [periodReturns[i]];
      growth := growth * (1.0 + periodReturns[i]);
    }
    assert periodReturns[..|periodReturns|] == periodReturns;
    r := Ok(growth - 1.0);
  }

  // ----- maximum drawdown

  ghost predicate Positive(v: seq<real>) {
    forall i :: 0 <= i < |v| ==> v[i] > 0.0
  }

  ghost predicate NonDecreasing(v: seq<real>) {
    forall i, j :: 0 <= i <= j < |v| ==> v[i] <= v[j]
  }

  /** The relative loss of selling at v when the high was peak. */
  function Loss(peak: real, v: real): real
    requires peak != 0.0
  {
    (peak - v) / peak
  }

  ghost predicate SomeDrawdown(v: seq<real>, i: int, j: int, d: real)
    requires Positive(v)
  {
    0 <= i <= j < |v| && Loss(v[i], v[j]) == d
  }

  /** The quadratic meaning: the largest loss between any earlier and any later value. */
  ghost predicate IsMaximumDrawdown(v: seq<real>, m: real)
    requires Positive(v)
  {
    && (exists i, j :: SomeDrawdown(v, i, j, m))
    && (forall i, j :: 0 <= i <= j < |v| ==> Loss(v[i], v[j]) <= m)
  }

  lemma LossFromHigherPeak(low: real, high: real, x: real)
    requires 0.0 < low <= high && x > 0.0
    ensures Loss(low, x) <= Loss(high, x)
  {
    MulMono(low, high, x);
    assert (low - x) * high <= (high - x) * low;
    DivMono(low - x, low, high - x, high);
  }

  lemma LossSign(peak: real, x: real)
    requires peak > 0.0 && x > 0.0
    ensures Loss(peak, x) < 1.0
    ensures Loss(peak, x) > 0.0 <==> x < peak
    ensures Loss(peak, x) >= 0.0 <==> x <= peak
  {
    var d := Loss(peak, x);
    DivMul(peak - x, peak);
    if d >= 1.0 { MulMono(1.0, d, peak); }
    if d > 0.0 { MulPos(d, peak); }
    if d < 0.0 { MulPos(-d, peak); }
  }

  lemma LossScaled(peak: real, x: real, k: real)
    requires peak != 0.0 && k != 0.0
    ensures Scale(k, peak) != 0.0 && Loss(Scale(k, peak), Scale(k, x)) == Loss(peak, x)
  {
    ScaleDiv(k, peak - x, peak);
    ScaleAdd(k, peak - x, x);
  }

  method MaximumDrawdown(values: seq<real>) returns (r: Result<real, FinanceError>)
    ensures values == [] ==> r == Err(EmptySeries)
    ensures values != [] && !Positive(values) ==> r == Err(NonPositiveValue)
    ensures values != [] && Positive(values) ==> r.Ok? && IsMaximumDrawdown(values, r.value)
  {
    if values == [] { return Err(EmptySeries); }
    if exists i :: 0 <= i < |values| && values[i] <= 0.0 { return Err(NonPositiveValue); }
    var peak, maximum := values[0], 0.0;
    ghost var p, best := 0, (0, 0);
    assert SomeDrawdown(values, 0, 0, 0.0);
    for k := 0 to |values|
      invariant 0 <= p < |values| && (p < k || p == k == 0) && peak == values[p]
      invariant forall i :: 0 <= i < k ==> values[i] <= peak
      invariant SomeDrawdown(values, best.0, best.1, maximum)
      invariant forall i, j :: 0 <= i <= j < k ==> Loss(values[i], values[j]) <= maximum
    {
      var value := values[k];
      if value > peak { p := k; }
      peak := MaxReal(peak, value);
      forall i | 0 <= i <= k ensures Loss(values[i], value) <= Loss(peak, value) {
        LossFromHigherPeak(values[i], peak, value);
      }
      if Loss(peak, value) > maximum { best := (p, k); }
      maximum := MaxReal(maximum, (peak - value) / peak);
    }
    r := Ok(maximum);
  }

  lemma MaximumDrawdownUnique(v: seq<real>, m: real, m': real)
    requires Positive(v) && IsMaximumDrawdown(v, m) && IsMaximumDrawdown(v, m')
    ensures m == m'
  {
    var i, j :| SomeDrawdown(v, i, j, m);
    var i', j' :| SomeDrawdown(v, i', j', m');
    assert Loss(v[i], v[j]) <= m' && Loss(v[i'], v[j']) <= m;
  }

  /** It lies in [0, 1) and vanishes exactly on non-decreasing series. */
  lemma MaximumDrawdownRange(v: seq<real>, m: real)
    requires Positive(v) && IsMaximumDrawdown(v, m)
    ensures 0.0 <= m < 1.0
    ensures m == 0.0 <==> NonDecreasing(v)
  {
    var i, j :| SomeDrawdown(v, i, j, m);
    LossSign(v[i], v[j]);
    assert Loss(v[0], v[0]) <= m;
    LossSign(v[0], v[0]);
    forall a, b | 0 <= a <= b < |v| ensures (v[a] > v[b] ==> m > 0.0) {
      LossSign(v[a], v[b]);
    }
    if NonDecreasing(v) { assert v[i] <= v[j]; }
  }

  lemma MaximumDrawdownScaled(v: seq<real>, m: real, k: real)
    requires Positive(v) && k > 0.0 && IsMaximumDrawdown(v, m)
    ensures Positive(Scaled(v, k)) && IsMaximumDrawdown(Scaled(v, k), m)
  {
    var t := Scaled(v, k);
    forall i | 0 <= i < |t| ensures t[i] == Scale(k, v[i]) && t[i] > 0.0 { MulPos(k, v[i]); }
    hide Scaled; hide Scale;
    forall i, j | 0 <= i <= j < |t| ensures Loss(t[i], t[j]) == Loss(v[i], v[j]) {
      LossScaled(v[i], v[j], k);
    }
    var i, j :| SomeDrawdown(v, i, j, m);
    assert SomeDrawdown(t, i, j, m);
  }

  // ----- recovery period

  /** The earliest index of the running maximum of v[..j + 1]. */
  ghost function PeakIndex(v: seq<real>, j: nat): (p: nat)
    requires j < |v|
    ensures p <= j
    ensures forall i :: 0 <= i < p ==> v[i] < v[p]
    ensures forall i :: 0 <= i <= j ==> v[i] <= v[p]
  {
    if j == 0 then 0
    else if v[j] > v[PeakIndex(v, j - 1)] then j
    else PeakIndex(v, j - 1)
  }

  ghost predicate PeaksNonzero(v: seq<real>) {
    forall j: nat :: j < |v| ==> v[PeakIndex(v, j)] != 0.0
  }

  /** The loss at j from the running maximum. */
  ghost function Depth(v: seq<real>, j: nat): real
    requires j < |v| && v[PeakIndex(v, j)] != 0.0
  {
    Loss(v[PeakIndex(v, j)], v[j])
  }

  /** The earliest of the deepest troughs; there is one as soon as any loss is positive. */
  ghost predicate FirstDeepest(v: seq<real>, w: nat)
    requires PeaksNonzero(v)
  {
    && w < |v| && Depth(v, w) > 0.0
    && (forall j: nat :: j < |v| ==> Depth(v, j) <= Depth(v, w))
    && (forall j: nat :: j < w ==> Depth(v, j) < Depth(v, w))
  }

  /** The values strictly between two indices stay below a level. */
  ghost predicate AllBelow(v: seq<real>, from: nat, to: nat, level: real) {
    to <= |v| && forall s :: from < s < to ==> v[s] < level
  }

  /** t is the first index after the trough w whose value is back at level. */
  ghost predicate FirstReturn(v: seq<real>, w: nat, level: real, t: nat) {
    w < t < |v| && v[t] >= level && AllBelow(v, w, t, level)
  }

  lemma AllBelowStep(v: seq<real>, w: nat, k: nat, level: real)
    requires w < k < |v| && AllBelow(v, w, k, level)
    ensures if v[k] >= level then FirstReturn(v, w, level, k) else AllBelow(v, w, k + 1, level)
  {}

  /** What the recovery period means: the distance from the trough's peak to the first return to it. */
  ghost predicate IsRecovery(v: seq<real>, r: Option<nat>)
    requires PeaksNonzero(v)
  {
    && ((forall j: nat :: j < |v| ==> Depth(v, j) <= 0.0) ==> r == Some(0))
    && (forall w: nat :: FirstDeepest(v, w) ==>
          match r
          case Some(n) => FirstReturn(v, w, v[PeakIndex(v, w)], n + PeakIndex(v, w))
          case None => AllBelow(v, w, |v|, v[PeakIndex(v, w)]))
  }

  /** The state of the scan after k values: the deepest loss so far and where it was first reached. */
  ghost predicate Scanned(v: seq<real>, k: nat, worst: real, worstIndex: nat, worstPeakIndex: nat) {
    && k <= |v|
    && (forall j: nat :: j < k ==> v[PeakIndex(v, j)] != 0.0)
    && (forall j: nat :: j < k ==> Depth(v, j) <= worst)
    && worst >= 0.0
    && (worst > 0.0 ==>
          && worstIndex < k
          && worst == Depth(v, worstIndex)
          && worstPeakIndex == PeakIndex(v, worstIndex)
          && (forall j: nat :: j < worstIndex ==> Depth(v, j) < worst))
  }

  lemma PeakStep(v: seq<real>, k: nat)
    requires k < |v|
    ensures k == 0 ==> PeakIndex(v, k) == 0
    ensures k > 0 ==> PeakIndex(v, k) == if v[k] > v[PeakIndex(v, k - 1)] then k else PeakIndex(v, k - 1)
  {}

  lemma ZeroPeak(v: seq<real>, k: nat)
    requires k < |v| && v[PeakIndex(v, k)] == 0.0
    ensures !PeaksNonzero(v)
  {}

  lemma NothingScanned(v: seq<real>)
    ensures Scanned(v, 0, 0.0, 0, 0)
  {}

  lemma ScanStep(v: seq<real>, k: nat, worst: real, worstIndex: nat, worstPeakIndex: nat, d: real)
    requires k < |v| && Scanned(v, k, worst, worstIndex, worstPeakIndex)
    requires v[PeakIndex(v, k)] != 0.0 && d == Loss(v[PeakIndex(v, k)], v[k])
    ensures d > worst ==> Scanned(v, k + 1, d, k, PeakIndex(v, k))
    ensures d <= worst ==> Scanned(v, k + 1, worst, worstIndex, worstPeakIndex)
  {
    assert d == Depth(v, k);
    hide Depth; hide PeakIndex; hide Loss;
  }

  lemma ScanDone(v: seq<real>, worst: real, worstIndex: nat, worstPeakIndex: nat)
    requires Scanned(v, |v|, worst, worstIndex, worstPeakIndex)
    ensures PeaksNonzero(v) && worst >= 0.0
    ensures worst == 0.0 ==> IsRecovery(v, Some(0))
    ensures worst > 0.0 ==>
      FirstDeepest(v, worstIndex) && worstIndex < |v| && worstPeakIndex == PeakIndex(v, worstIndex)
  {
    hide Depth; hide PeakIndex;
  }

  lemma DeepestIsUnique(v: seq<real>, w: nat, w': nat)
    requires PeaksNonzero(v) && FirstDeepest(v, w) && FirstDeepest(v, w')
    ensures w == w'
  {}

  lemma RecoveryFromDeepest(v: seq<real>, w: nat, r: Option<nat>)
    requires PeaksNonzero(v) && FirstDeepest(v, w)
    requires r.Some? ==> FirstReturn(v, w, v[PeakIndex(v, w)], r.value + PeakIndex(v, w))
    requires r.None? ==> AllBelow(v, w, |v|, v[PeakIndex(v, w)])
    ensures IsRecovery(v, r)
  {
    hide Depth; hide PeakIndex; hide FirstReturn; hide AllBelow;
    forall w': nat | FirstDeepest(v, w') ensures w' == w {
      DeepestIsUnique(v, w, w');
    }
  }

  method RecoveryPeriod(values: seq<real>) returns (r: Result<Option<nat>, FinanceError>)
    ensures |values| < 2 ==> r == Ok(Some(0))
    ensures |values| >= 2 && !PeaksNonzero(values) ==> r == Err(DivisionByZero)
    ensures |values| >= 2 && PeaksNonzero(values) ==> r.Ok? && IsRecovery(values, r.value)
  {
    if |values| < 2 { return Ok(Some(0)); }
    hide Depth; hide Loss; hide PeakIndex; hide PeaksNonzero; hide Scanned; hide FirstDeepest; hide IsRecovery;
    hide FirstReturn;
    NothingScanned(values);
    var peakIndex, peak := 0, values[0];
    var worstPeakIndex, worstIndex, worst := 0, 0, 0.0;
    for index := 0 to |values|
      invariant 0 <= peakIndex < |values| && peak == values[peakIndex]
      invariant index == 0 ==> peakIndex == 0
      invariant index > 0 ==> peakIndex == PeakIndex(values, index - 1)
      invariant Scanned(values, index, worst, worstIndex, worstPeakIndex)
    {
      var value := values[index];
      PeakStep(values, index);
      if value > peak { peak, peakIndex := value, index; }
      if peak == 0.0 {
        ZeroPeak(values, index);
        return Err(DivisionByZero);
      }
      var drawdown := Loss(peak, value);
      ScanStep(values, index, worst, worstIndex, worstPeakIndex, drawdown);
      if drawdown > worst {
        worst, worstPeakIndex, worstIndex := drawdown, peakIndex, index;
      }
    }
    ScanDone(values, worst, worstIndex, worstPeakIndex);
    if worst == 0.0 { return Ok(Some(0)); }
    var target := values[worstPeakIndex];
    assert AllBelow(values, worstIndex, worstIndex + 1, target);
    hide AllBelow;
    for index := worstIndex + 1 to |values|
      invariant AllBelow(values, worstIndex, index, target)
    {
      AllBelowStep(values, worstIndex, index, target);
      if values[index] >= target {
        r := Ok(Some(index - worstPeakIndex));
        RecoveryFromDeepest(values, worstIndex, r.value);
        return;
      }
    }
    r := Ok(None);
    RecoveryFromDeepest(values, worstIndex, r.value);
  }

  /** The deepest loss from a running maximum is the maximum drawdown over all pairs. */
  lemma DeepestIsMaximumDrawdown(v: seq<real>, w: nat)
    requires Positive(v) && FirstDeepest(v, w)
    ensures IsMaximumDrawdown(v, Depth(v, w))
  {
    assert SomeDrawdown(v, PeakIndex(v, w), w, Depth(v, w));
    forall i, j | 0 <= i <= j < |v| ensures Loss(v[i], v[j]) <= Depth(v, w) {
      LossFromHigherPeak(v[i], v[PeakIndex(v, j)], v[j]);
      assert Depth(v, j) <= Depth(v, w);
    }
  }

  lemma {:induction false} DeepestUpTo(v: seq<real>, k: nat) returns (w: nat)
    requires PeaksNonzero(v) && 0 < k <= |v|
    ensures w < k
    ensures forall j: nat :: j < k ==> Depth(v, j) <= Depth(v, w)
    ensures forall j: nat :: j < w ==> Depth(v, j) < Depth(v, w)
  {
    if k == 1 {
      w := 0;
    } else {
      w := DeepestUpTo(v, k - 1);
      if Depth(v, k - 1) > Depth(v, w) { w := k - 1; }
    }
  }

  /**
   On a positive series of two values or more: the result is zero exactly when the series never
   falls, and otherwise any recovery takes at least two steps.
   */
  lemma RecoveryMeaning(v: seq<real>, r: Option<nat>)
    requires Positive(v) && |v| >= 2 && IsRecovery(v, r)
    ensures r == Some(0) <==> NonDecreasing(v)
    ensures r.Some? && r.value != 0 ==> r.value >= 2
    ensures !NonDecreasing(v) ==> exists w: nat :: FirstDeepest(v, w)
  {
    var w := DeepestUpTo(v, |v|);
    if Depth(v, w) > 0.0 {
      assert FirstDeepest(v, w);
      DeepestIsMaximumDrawdown(v, w);
      MaximumDrawdownRange(v, Depth(v, w));
      LossSign(v[PeakIndex(v, w)], v[w]);
      assert PeakIndex(v, w) < w;
    } else {
      assert r == Some(0);
      forall i, j | 0 <= i <= j < |v| ensures v[i] <= v[j] {
        assert Depth(v, j) <= 0.0;
        LossSign(v[PeakIndex(v, j)], v[j]);
      }
    }
  }

  // ----- the same on the values alone

  lemma LossIs(peak: real, x: real, m: real)
    requires peak > 0.0
    ensures Loss(peak, x) <= m <==> x >= (1.0 - m) * peak
    ensures Loss(peak, x) == m <==> x == (1.0 - m) * peak
  {
    var d := Loss(peak, x);
    DivMul(peak - x, peak);
    assert (1.0 - m) * peak == peak - m * peak;
    if d < m { MulMonoStrict(d, m, peak); }
    if d > m { MulMonoStrict(m, d, peak); }
  }

  /** m is lost from some earlier value to some later one, and no more than m is ever lost. */
  ghost predicate LosesAtMost(v: seq<real>, m: real) {
    && (forall i, j :: 0 <= i <= j < |v| ==> v[j] >= (1.0 - m) * v[i])
    && LosesSomewhere(v, m)
  }

  ghost predicate LosesSomewhere(v: seq<real>, m: real) {
    exists i, j :: 0 <= i <= j < |v| && v[j] == (1.0 - m) * v[i]
  }

  /** The maximum drawdown on the values: the share that is left of an earlier value is never below 1 - m. */
  lemma DrawdownInFigures(v: seq<real>, m: real)
    requires Positive(v)
    ensures IsMaximumDrawdown(v, m) <==> LosesAtMost(v, m)
  {
    hide Loss;
    forall i, j | 0 <= i <= j < |v|
      ensures Loss(v[i], v[j]) <= m <==> v[j] >= (1.0 - m) * v[i]
      ensures Loss(v[i], v[j]) == m <==> v[j] == (1.0 - m) * v[i]
    {
      LossIs(v[i], v[j], m);
    }
    if IsMaximumDrawdown(v, m) {
      var i, j :| SomeDrawdown(v, i, j, m);
      assert v[j] == (1.0 - m) * v[i];
    }
    if LosesSomewhere(v, m) {
      var i, j :| 0 <= i <= j < |v| && v[j] == (1.0 - m) * v[i];
      assert SomeDrawdown(v, i, j, m);
    }
  }

  /** The loss from p to w is no smaller than the one from i to j. */
  ghost predicate AsDeep(v: seq<real>, p: nat, w: nat, i: nat, j: nat)
    requires p < |v| && w < |v| && i < |v| && j < |v|
  {
    v[w] * v[i] <= v[j] * v[p]
  }

  /** The fall from p to w: p is the first highest value up to w, and no fall that ends before w is as deep. */
  ghost predicate DeepestFall(v: seq<real>, p: nat, w: nat) {
    && p < w < |v| && v[w] < v[p]
    && (forall i: nat :: i <= w ==> v[i] <= v[p]) && (forall i: nat :: i < p ==> v[i] < v[p])
    && (forall i: nat, j: nat :: i <= j < |v| ==> AsDeep(v, p, w, i, j))
    && (forall i: nat, j: nat :: i <= j < w ==> !AsDeep(v, i, j, p, w))
  }

  /** From the peak of the deepest fall to the first value after it that is as high again. */
  ghost predicate RecoversAfter(v: seq<real>, p: nat, w: nat, r: Option<nat>)
    requires p < |v|
  {
    match r
    case Some(n) => w < p + n < |v| && v[p + n] >= v[p] && forall k :: w < k < p + n ==> v[k] < v[p]
    case None => forall k :: w < k < |v| ==> v[k] < v[p]
  }

  lemma LossOrder(a: real, x: real, b: real, y: real)
    requires a > 0.0 && b > 0.0
    ensures Loss(a, x) <= Loss(b, y) <==> y * a <= x * b
  {
    var d, e := Loss(a, x), Loss(b, y);
    DivMul(a - x, a);
    DivMul(b - y, b);
    MulPos(a, b);
    assert d * (a * b) == (d * a) * b && e * (a * b) == (e * b) * a;
    assert (a - x) * b == a * b - x * b && (b - y) * a == a * b - y * a;
    if d <= e { MulMono(d, e, a * b); } else { MulMonoStrict(e, d, a * b); }
  }

  lemma PeakIsHighest(v: seq<real>, j: nat, i: nat)
    requires Positive(v) && i <= j < |v|
    ensures v[PeakIndex(v, j)] > 0.0 && v[i] > 0.0 && Loss(v[i], v[j]) <= Depth(v, j)
  {
    LossFromHigherPeak(v[i], v[PeakIndex(v, j)], v[j]);
  }

  lemma LossAgainst(v: seq<real>, p: nat, w: nat, i: nat, j: nat)
    requires p < |v| && w < |v| && i < |v| && j < |v| && v[p] > 0.0 && v[i] > 0.0
    ensures Loss(v[i], v[j]) <= Loss(v[p], v[w]) <==> AsDeep(v, p, w, i, j)
  {
    LossOrder(v[i], v[j], v[p], v[w]);
  }

  /** Every pair of indices against the deepest trough. */
  lemma TroughAgainst(v: seq<real>, w: nat, i: nat, j: nat)
    requires Positive(v) && PeaksNonzero(v) && FirstDeepest(v, w) && i <= j < |v|
    ensures AsDeep(v, PeakIndex(v, w), w, i, j)
    ensures j < w ==> !AsDeep(v, i, j, PeakIndex(v, w), w)
  {
    PeakIsHighest(v, j, i);
    PeakIsHighest(v, w, w);
    hide PeakIndex; hide Loss; hide AsDeep; hide Positive;
    assert Depth(v, j) <= Depth(v, w) && (j < w ==> Depth(v, j) < Depth(v, w));
    hide FirstDeepest; hide PeaksNonzero;
    LossAgainst(v, PeakIndex(v, w), w, i, j);
    if j < w { LossAgainst(v, i, j, PeakIndex(v, w), w); }
  }

  lemma TroughIsFall(v: seq<real>, w: nat)
    requires Positive(v) && PeaksNonzero(v) && FirstDeepest(v, w)
    ensures DeepestFall(v, PeakIndex(v, w), w)
  {
    var p := PeakIndex(v, w);
    PeakIsHighest(v, w, w);
    LossSign(v[p], v[w]);
    assert v[w] < v[p];
    hide Depth; hide FirstDeepest; hide AsDeep; hide PeakIndex;
    forall i: nat, j: nat | i <= j < |v| ensures AsDeep(v, p, w, i, j) && (j < w ==> !AsDeep(v, i, j, p, w)) {
      TroughAgainst(v, w, i, j);
    }
  }

  lemma OneDeepestFall(v: seq<real>, p: nat, w: nat, p': nat, w': nat)
    requires DeepestFall(v, p, w) && DeepestFall(v, p', w')
    ensures p == p' && w == w'
  {
    hide AsDeep;
    assert AsDeep(v, p, w, p', w') && AsDeep(v, p', w', p, w);
  }

  /**
   The recovery period on the values: zero for a series that never falls, and otherwise, for the one deepest fall, the
   distance from its peak to the first later value as high again, or None when there is none.
   */
  lemma RecoveryInFigures(v: seq<real>, r: Option<nat>)
    requires Positive(v) && |v| >= 2 && IsRecovery(v, r)
    ensures NonDecreasing(v) ==> r == Some(0)
    ensures !NonDecreasing(v) ==> exists p: nat, w: nat :: DeepestFall(v, p, w)
    ensures forall p: nat, w: nat :: DeepestFall(v, p, w) ==> RecoversAfter(v, p, w, r)
  {
    RecoveryMeaning(v, r);
    if !NonDecreasing(v) {
      var w: nat :| FirstDeepest(v, w);
      TroughIsFall(v, w);
      RecoveryOfTrough(v, w, r);
    }
    hide IsRecovery; hide AsDeep; hide PeakIndex; hide FirstDeepest;
    forall p: nat, w: nat | DeepestFall(v, p, w) ensures RecoversAfter(v, p, w, r) {
      assert !NonDecreasing(v);
      var w': nat :| FirstDeepest(v, w');
      TroughIsFall(v, w');
      RecoveryOfTrough(v, w', r);
      OneDeepestFall(v, p, w, PeakIndex(v, w'), w');
    }
  }

  lemma RecoveryOfTrough(v: seq<real>, w: nat, r: Option<nat>)
    requires PeaksNonzero(v) && FirstDeepest(v, w) && IsRecovery(v, r)
    ensures RecoversAfter(v, PeakIndex(v, w), w, r)
  {
    hide Depth;
  }
}
