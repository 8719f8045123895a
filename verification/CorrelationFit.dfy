/**
 What the sign and the size of a correlation say, on the values of the series alone: its value for series that move
 in proportion, and the share of the squared error that the best straight line leaves.
 */
module CorrelationFit {
  import opened Common
  import opened RealSeqs
  import opened Arith
  import opened Series = Correlation

  // ----- a series and its own straight-line images

  lemma AffineIs(s: seq<real>, t: seq<real>, k: real, shift: real)
    requires |s| == |t| && forall i :: 0 <= i < |s| ==> t[i] == k * s[i] + shift
    ensures t == Affine(s, k, shift)
  {}

  lemma SquaredRoot(root: real, x: real, k: real)
    requires IsRoot(root, x * Scale(k, Scale(k, x))) && x > 0.0 && k != 0.0
    ensures root == if k > 0.0 then Scale(k, x) else Scale(-k, x)
    ensures root > 0.0
  {
    var kx := k * x;
    assert x * (k * kx) == kx * kx;
    if k > 0.0 {
      MulPos(k, x);
      RootUnique(root, kx);
    } else {
      MulPos(-k, x);
      assert (-k) * x == -kx && (-kx) * (-kx) == kx * kx;
      RootUnique(root, -kx);
    }
  }

  /** The correlation of a series that moves with its image k * s + shift is 1 for positive k and -1 for negative k. */
  lemma CorrelationOfLine(s: seq<real>, t: seq<real>, root: real, k: real, shift: real)
    requires |s| == |t| >= 2 && !Constant(s) && k != 0.0
    requires forall i :: 0 <= i < |s| ==> t[i] == k * s[i] + shift
    requires IsRoot(root, SquareSum(s) * SquareSum(t))
    ensures Correlation(s, t, root) == Ok(Some(if k > 0.0 then 1.0 else -1.0))
  {
    AffineIs(s, t, k, shift);
    var c, x := Centred(s), SquareSum(s);
    CentredAffine(s, k, shift);
    DotScaled(c, Scaled(c, k), k);
    DotScaled(c, c, k);
    DotSymmetric(c, Scaled(c, k));
    SpreadZeroIffConstant(s);
    assert CrossSum(s, t) == Scale(k, x) && SquareSum(t) == Scale(k, Scale(k, x));
    hide Dot; hide Centred; hide Affine; hide Scaled; hide SquareSum; hide CrossSum; hide Constant;
    SquaredRoot(root, x, k);
    DivUnique(Scale(k, x), root, if k > 0.0 then 1.0 else -1.0);
  }

  /** All differences of left are those of right times k. */
  ghost predicate InProportion(left: seq<real>, right: seq<real>, k: real)
    requires |left| == |right|
  {
    forall i, j :: 0 <= i < |left| && 0 <= j < |left| ==> left[i] - left[j] == k * (right[i] - right[j])
  }

  lemma ProportionIsLine(left: seq<real>, right: seq<real>, k: real)
    requires |left| == |right| >= 2 && InProportion(left, right, k)
    ensures forall i :: 0 <= i < |left| ==> left[i] == k * right[i] + (left[0] - k * right[0])
  {
    forall i | 0 <= i < |left| ensures left[i] == k * right[i] + (left[0] - k * right[0]) {
      assert left[i] - left[0] == k * (right[i] - right[0]);
      MulMinus(k, right[i], right[0]);
    }
  }

  lemma MultipleInProportion(left: seq<real>, right: seq<real>, k: real)
    requires |left| == |right| >= 2 && Multiple(Centred(left), Centred(right), k)
    ensures InProportion(left, right, k)
  {
    var c, d := Centred(left), Centred(right);
    forall i, j | 0 <= i < |left| && 0 <= j < |left| ensures left[i] - left[j] == k * (right[i] - right[j]) {
      assert c[i] == k * d[i] && c[j] == k * d[j];
      assert left[i] - left[j] == c[i] - c[j] && right[i] - right[j] == d[i] - d[j];
      MulMinus(k, d[i], d[j]);
    }
  }

  lemma ConstantProportion(left: seq<real>, right: seq<real>, k: real)
    requires |left| == |right| >= 2 && InProportion(left, right, k) && Constant(right)
    ensures Constant(left)
  {
    forall i, j | 0 <= i < |left| && 0 <= j < |left| ensures left[i] == left[j] {
      var d := right[i] - right[j];
      assert left[i] - left[j] == k * d && d == 0.0;
      ZeroProduct(k, d);
    }
  }

  lemma CommuteRoot(root: real, x: real, y: real)
    requires IsRoot(root, x * y)
    ensures IsRoot(root, y * x)
  {}

  lemma ProportionGivesSign(left: seq<real>, right: seq<real>, root: real, k: real)
    requires |left| == |right| >= 2 && IsRoot(root, SquareSum(left) * SquareSum(right)) && k != 0.0
    requires !Constant(left) && InProportion(left, right, k)
    ensures Correlation(left, right, root) == Ok(Some(if k > 0.0 then 1.0 else -1.0))
  {
    if Constant(right) { ConstantProportion(left, right, k); }
    ProportionIsLine(left, right, k);
    hide Constant; hide InProportion; hide SquareSum; hide Correlation;
    CommuteRoot(root, SquareSum(left), SquareSum(right));
    CorrelationOfLine(right, left, root, k, left[0] - k * right[0]);
    CorrelationSymmetric(left, right, root);
  }

  lemma QuotientSign(n: real, d: real)
    requires d > 0.0
    ensures n / d > 0.0 <==> n > 0.0
    ensures n / d < 0.0 <==> n < 0.0
  {
    DivMul(n, d);
    if n > 0.0 { DivPos(n, d); }
    if n < 0.0 {
      DivPos(-n, d);
      DivUnique(n, d, -(-n / d));
    }
    if n == 0.0 { DivUnique(n, d, 0.0); }
  }

  /** The multiple a coefficient of 1 or -1 stands for, with its sign. */
  lemma UnitGivesProportion(left: seq<real>, right: seq<real>, root: real) returns (k: real)
    requires |left| == |right| >= 2 && IsRoot(root, SquareSum(left) * SquareSum(right)) && root != 0.0
    requires var r := Correlation(left, right, root).value.value; r == 1.0 || r == -1.0
    ensures k != 0.0 && InProportion(left, right, k)
    ensures k > 0.0 <==> Correlation(left, right, root).value.value == 1.0
  {
    PerfectCorrelation(left, right, root);
    SpreadZeroIffConstant(right);
    k := CrossSum(left, right) / SquareSum(right);
    MultipleInProportion(left, right, k);
    hide InProportion; hide Multiple; hide CrossSum; hide SquareSum; hide Constant;
    QuotientSign(CrossSum(left, right), root);
    QuotientSign(CrossSum(left, right), SquareSum(right));
  }

  /**
   A coefficient of 1 means exactly that all differences of one series are those of the other times some positive
   number, a coefficient of -1 that they are those times some negative number.
   */
  lemma PerfectBySign(left: seq<real>, right: seq<real>, root: real)
    requires |left| == |right| >= 2 && IsRoot(root, SquareSum(left) * SquareSum(right)) && root != 0.0
    ensures var r := Correlation(left, right, root).value.value;
      && (r == 1.0 <==> exists k :: k > 0.0 && InProportion(left, right, k))
      && (r == -1.0 <==> exists k :: k < 0.0 && InProportion(left, right, k))
  {
    SpreadZeroIffConstant(left);
    RootZero(root, SquareSum(left), SquareSum(right));
    var r := Correlation(left, right, root).value.value;
    hide InProportion; hide SquareSum; hide Constant; hide Correlation;
    if r == 1.0 || r == -1.0 { var k := UnitGivesProportion(left, right, root); }
    if k :| k > 0.0 && InProportion(left, right, k) { ProportionGivesSign(left, right, root, k); }
    if k :| k < 0.0 && InProportion(left, right, k) { ProportionGivesSign(left, right, root, k); }
  }

  // ----- the best straight line

  /** The squared error of the line a + t * x over the points (right[i], left[i]). */
  ghost function LineError(left: seq<real>, right: seq<real>, a: real, t: real): real
    requires |left| == |right|
  {
    if left == [] then 0.0
    else
      var n := |left| - 1;
      var miss := left[n] - (a + t * right[n]);
      LineError(left[..n], right[..n], a, t) + miss * miss
  }

  ghost predicate BestLine(left: seq<real>, right: seq<real>, a: real, t: real)
    requires |left| == |right|
  {
    forall b, u :: LineError(left, right, a, t) <= LineError(left, right, b, u)
  }

  ghost predicate BestLevel(left: seq<real>, right: seq<real>, a: real)
    requires |left| == |right|
  {
    forall b :: LineError(left, right, a, 0.0) <= LineError(left, right, b, 0.0)
  }

  /** A square with a weight. */
  ghost function Weighted(weight: real, x: real): real { weight * (x * x) }

  ghost function Twice(d: real, sums: real): real { 2.0 * d * sums }

  ghost function Sums(left: seq<real>, right: seq<real>, m: real, k: real, t: real): real
    requires |left| == |right|
  {
    Sum(left) - |left| as real * m - t * (Sum(right) - |left| as real * k)
  }

  lemma MissSquare(x: real, y: real, m: real, k: real, a: real, t: real, w: real, d: real)
    requires w == (x - m) - t * (y - k) && d == m - a - t * k
    ensures x - (a + t * y) == w + d
    ensures (w + d) * (w + d) == w * w + 2.0 * d * w + d * d
  {
    MulMinus(t, y, k);
    assert (w + d) * (w + d) == w * (w + d) + d * (w + d);
  }

  lemma SumsStep(left: seq<real>, right: seq<real>, m: real, k: real, t: real, n: nat)
    requires |left| == |right| == n + 1
    ensures Sums(left, right, m, k, t)
      == Sums(left[..n], right[..n], m, k, t) + ((left[n] - m) - t * (right[n] - k))
  {
    var x, y, l, r := left[n], right[n], Sum(left[..n]), Sum(right[..n]);
    var c := n as real;
    assert (n + 1) as real == c + 1.0;
    assert (c + 1.0) * m == c * m + m && (c + 1.0) * k == c * k + k;
    assert t * ((r - c * k) + (y - k)) == t * (r - c * k) + t * (y - k);
  }

  /** The deviations from m and k, lined up by t: the list whose squares the fit adds up. */
  function Deviations(left: seq<real>, right: seq<real>, m: real, k: real, t: real): (w: seq<real>)
    requires |left| == |right|
    ensures |w| == |left|
  {
    Residue(Shifted(left, m), Shifted(right, k), t)
  }

  lemma DeviationsPrefix(left: seq<real>, right: seq<real>, m: real, k: real, t: real, n: nat)
    requires |left| == |right| == n + 1
    ensures Deviations(left, right, m, k, t)[..n] == Deviations(left[..n], right[..n], m, k, t)
    ensures Deviations(left, right, m, k, t)[n] == (left[n] - m) - t * (right[n] - k)
  {
    var c, d := Shifted(left, m), Shifted(right, k);
    ResiduePrefix(c, d, t, n);
    assert c[..n] == Shifted(left[..n], m) && d[..n] == Shifted(right[..n], k);
    ResidueAt(c, d, t, n);
  }

  lemma ErrorAdds(before: real, square: real, sums: real, count: real, w: real, d: real, miss: real, after: real,
                  square': real, sums': real)
    requires before == square + Twice(d, sums) + Weighted(count, d)
    requires miss == w * w + 2.0 * d * w + d * d && after == before + miss
    requires square' == square + w * w && sums' == sums + w
    ensures after == square' + Twice(d, sums') + Weighted(count + 1.0, d)
  {
    assert 2.0 * d * (sums + w) == 2.0 * d * sums + 2.0 * d * w;
    assert (count + 1.0) * (d * d) == count * (d * d) + d * d;
  }

  lemma {:induction false} ErrorFromDeviations(left: seq<real>, right: seq<real>, m: real, k: real, a: real, t: real)
    requires |left| == |right|
    ensures var d, w := m - a - t * k, Deviations(left, right, m, k, t);
      LineError(left, right, a, t) == Dot(w, w) + Twice(d, Sums(left, right, m, k, t)) + Weighted(|left| as real, d)
  {
    hide Dot; hide Deviations; hide Sums; hide LineError; hide Twice; hide Weighted;
    if left == [] {
      NoError(left, right, m, k, a, t);
    } else {
      var n, d, w := |left| - 1, m - a - t * k, Deviations(left, right, m, k, t);
      ErrorFromDeviations(left[..n], right[..n], m, k, a, t);
      ErrorStep(left, right, a, t, n);
      DeviationsPrefix(left, right, m, k, t, n);
      DotStep(w, w, n);
      SumsStep(left, right, m, k, t, n);
      MissSquare(left[n], right[n], m, k, a, t, w[n], d);
      ErrorAdds(LineError(left[..n], right[..n], a, t), Dot(w[..n], w[..n]), Sums(left[..n], right[..n], m, k, t),
                n as real, w[n], d, (w[n] + d) * (w[n] + d), LineError(left, right, a, t), Dot(w, w),
                Sums(left, right, m, k, t));
    }
  }

  lemma NoError(left: seq<real>, right: seq<real>, m: real, k: real, a: real, t: real)
    requires left == right == []
    ensures var d, w := m - a - t * k, Deviations(left, right, m, k, t);
      LineError(left, right, a, t) == Dot(w, w) + Twice(d, Sums(left, right, m, k, t)) + Weighted(|left| as real, d)
  {
    var d := m - a - t * k;
    assert Sums(left, right, m, k, t) == 0.0 by {
      ZeroProduct(0.0, m);
      ZeroProduct(0.0, k);
      ZeroProduct(t, 0.0);
    }
    ZeroProduct(2.0 * d, 0.0);
    ZeroProduct(0.0, d * d);
  }

  lemma ErrorStep(left: seq<real>, right: seq<real>, a: real, t: real, n: nat)
    requires |left| == |right| == n + 1
    ensures var miss := left[n] - (a + t * right[n]);
      LineError(left, right, a, t) == LineError(left[..n], right[..n], a, t) + miss * miss
  {}

  lemma MeanSums(left: seq<real>, right: seq<real>, t: real)
    requires |left| == |right| && left != []
    ensures Sums(left, right, Mean(left), Mean(right), t) == 0.0
  {
    DivMul(Sum(left), |left| as real);
    DivMul(Sum(right), |right| as real);
    hide Sum;
    var n, m, k := |left| as real, Mean(left), Mean(right);
    assert n * m == m * n && n * k == k * n;
    ZeroProduct(t, 0.0);
  }

  /** How far a line misses the two means. */
  ghost function MeanMiss(left: seq<real>, right: seq<real>, a: real, t: real): real
    requires |left| == |right| && left != []
  {
    Mean(left) - a - t * Mean(right)
  }

  lemma NoTwice(d: real, sums: real)
    requires sums == 0.0
    ensures Twice(d, sums) == 0.0
  {
    ZeroProduct(2.0 * d, 0.0);
  }

  lemma DeviationsAreResidue(left: seq<real>, right: seq<real>, t: real)
    requires |left| == |right| && left != []
    ensures var w := Deviations(left, right, Mean(left), Mean(right), t);
      Dot(w, w) == Quadratic(SquareSum(left), CrossSum(left, right), SquareSum(right), t)
  {
    DotResidue(Centred(left), Centred(right), t);
    hide Mean; hide Dot; hide Quadratic;
  }

  /** The error of any line is the quadratic of the three product sums plus what it misses the means by. */
  lemma ErrorIs(left: seq<real>, right: seq<real>, a: real, t: real)
    requires |left| == |right| && left != []
    ensures LineError(left, right, a, t)
      == Quadratic(SquareSum(left), CrossSum(left, right), SquareSum(right), t)
         + Weighted(|left| as real, MeanMiss(left, right, a, t))
  {
    var m, k := Mean(left), Mean(right);
    var d := m - a - t * k;
    assert MeanMiss(left, right, a, t) == d;
    hide MeanMiss; hide Mean; hide Dot; hide Quadratic; hide Deviations; hide LineError; hide Sums; hide Twice;
    hide Weighted; hide SquareSum; hide CrossSum;
    ErrorFromDeviations(left, right, m, k, a, t);
    MeanSums(left, right, t);
    DeviationsAreResidue(left, right, t);
    NoTwice(d, Sums(left, right, m, k, t));
  }

  /** The quadratic around its lowest point. */
  lemma LowestPoint(aa: real, ab: real, bb: real, best: real, t: real)
    requires bb > 0.0 && best * bb == ab
    ensures Quadratic(aa, ab, bb, t) == (aa - Scale(best, ab)) + Weighted(bb, t - best)
  {
    var u := t - best;
    assert u * u == t * t - 2.0 * t * best + best * best;
    assert bb * (u * u) == t * t * bb - 2.0 * t * (best * bb) + best * (best * bb);
  }

  /** The least error a line can have: what the quadratic leaves at its lowest point. */
  ghost function Least(left: seq<real>, right: seq<real>, best: real): real
    requires |left| == |right| && left != []
  {
    SquareSum(left) - Scale(best, CrossSum(left, right))
  }

  ghost predicate Slope(left: seq<real>, right: seq<real>, best: real)
    requires |left| == |right| && left != []
  {
    SquareSum(right) > 0.0 && best * SquareSum(right) == CrossSum(left, right)
  }

  lemma QuadraticAround(left: seq<real>, right: seq<real>, best: real, t: real)
    requires |left| == |right| && left != [] && Slope(left, right, best)
    ensures Quadratic(SquareSum(left), CrossSum(left, right), SquareSum(right), t)
      == Least(left, right, best) + Weighted(SquareSum(right), t - best)
  {
    hide SquareSum; hide CrossSum; hide Quadratic; hide Scale; hide Weighted;
    LowestPoint(SquareSum(left), CrossSum(left, right), SquareSum(right), best, t);
  }

  lemma ErrorAround(left: seq<real>, right: seq<real>, best: real, a: real, t: real)
    requires |left| == |right| && left != [] && Slope(left, right, best)
    ensures LineError(left, right, a, t) == Least(left, right, best)
      + Weighted(SquareSum(right), t - best) + Weighted(|left| as real, MeanMiss(left, right, a, t))
  {
    hide SquareSum; hide CrossSum; hide Quadratic; hide LineError; hide MeanMiss; hide Least; hide Weighted; hide Slope;
    ErrorIs(left, right, a, t);
    QuadraticAround(left, right, best, t);
  }

  lemma WeightedSign(weight: real, x: real)
    requires weight > 0.0
    ensures Weighted(weight, x) >= 0.0
    ensures Weighted(weight, x) == 0.0 <==> x == 0.0
  {
    Square(x);
    var square := Scale(x, x);
    assert Weighted(weight, x) == weight * square;
    hide Scale; hide Weighted;
    MulNonneg(weight, square);
    if square > 0.0 { MulPos(weight, square); }
    if x == 0.0 { ZeroProduct(weight, square); }
  }

  /** No line has a smaller error, and only the one through the means with the best slope has it. */
  lemma LeastError(left: seq<real>, right: seq<real>, best: real, a: real, t: real)
    requires |left| == |right| && left != [] && Slope(left, right, best)
    ensures LineError(left, right, a, t) >= Least(left, right, best)
    ensures LineError(left, right, a, t) == Least(left, right, best)
      <==> t == best && MeanMiss(left, right, a, t) == 0.0
  {
    ErrorAround(left, right, best, a, t);
    var spread, n := SquareSum(right), |left| as real;
    assert spread > 0.0;
    hide SquareSum; hide LineError; hide MeanMiss; hide Weighted; hide Slope; hide Least;
    WeightedSign(spread, t - best);
    WeightedSign(n, MeanMiss(left, right, a, t));
  }

  lemma ThroughMeans(left: seq<real>, right: seq<real>, t: real)
    requires |left| == |right| && left != []
    ensures MeanMiss(left, right, Mean(left) - t * Mean(right), t) == 0.0
  {}

  /** There is a best line, and every best line has the slope of the quadratic's lowest point. */
  lemma BestLineIs(left: seq<real>, right: seq<real>, best: real, a: real, t: real)
    requires |left| == |right| && left != [] && Slope(left, right, best)
    ensures BestLine(left, right, a, t) <==> t == best && MeanMiss(left, right, a, t) == 0.0
    ensures BestLine(left, right, a, t) ==> LineError(left, right, a, t) == Least(left, right, best)
  {
    hide Slope; hide Least; hide LineError; hide MeanMiss; hide Mean;
    var a0 := Mean(left) - best * Mean(right);
    ThroughMeans(left, right, best);
    LeastError(left, right, best, a0, best);
    LeastError(left, right, best, a, t);
    forall b, u ensures LineError(left, right, b, u) >= Least(left, right, best) {
      LeastError(left, right, best, b, u);
    }
  }

  lemma LevelError(left: seq<real>, right: seq<real>, a: real)
    requires |left| == |right| && left != []
    ensures LineError(left, right, a, 0.0) >= SquareSum(left)
    ensures LineError(left, right, a, 0.0) == SquareSum(left) <==> a == Mean(left)
  {
    ErrorIs(left, right, a, 0.0);
    var miss, n := MeanMiss(left, right, a, 0.0), |left| as real;
    assert miss == Mean(left) - a by { ZeroProduct(0.0, Mean(right)); }
    assert Quadratic(SquareSum(left), CrossSum(left, right), SquareSum(right), 0.0) == SquareSum(left);
    hide SquareSum; hide CrossSum; hide LineError; hide MeanMiss; hide Mean; hide Quadratic; hide Weighted;
    WeightedSign(n, miss);
  }

  lemma BestLevelIs(left: seq<real>, right: seq<real>, a: real)
    requires |left| == |right| && left != []
    ensures BestLevel(left, right, a) <==> a == Mean(left)
    ensures BestLevel(left, right, a) ==> LineError(left, right, a, 0.0) == SquareSum(left)
  {
    hide SquareSum; hide LineError; hide Mean;
    LevelError(left, right, a);
    LevelError(left, right, Mean(left));
    forall b ensures LineError(left, right, b, 0.0) >= SquareSum(left) { LevelError(left, right, b); }
  }

  /** The part of a squared error that a coefficient r leaves unexplained. */
  ghost function Unexplained(r: real, error: real): real { (1.0 - r * r) * error }

  lemma ShareLeft(aa: real, ab: real, bb: real, root: real, best: real)
    requires aa > 0.0 && bb > 0.0 && root > 0.0 && root * root == aa * bb && best * bb == ab
    ensures Unexplained(ab / root, aa) == aa - Scale(best, ab)
  {
    var r := ab / root;
    DivMul(ab, root);
    assert (r * r) * (root * root) == (r * root) * (r * root) == ab * ab;
    assert ((r * r) * aa) * bb == ab * ab == (best * ab) * bb by {
      assert ((r * r) * aa) * bb == (r * r) * (aa * bb);
      assert (best * ab) * bb == (best * bb) * ab;
    }
    MulCancel((r * r) * aa, best * ab, bb);
  }

  lemma SlopeOf(left: seq<real>, right: seq<real>)
    requires |left| == |right| && left != [] && SquareSum(right) > 0.0
    ensures Slope(left, right, CrossSum(left, right) / SquareSum(right))
  {
    DivMul(CrossSum(left, right), SquareSum(right));
  }

  /**
   The fit law. For every best straight line and every best constant level, the squared error of the line is 1 - r * r
   times that of the level, and the slope of the line is positive, zero or negative as the correlation r is.
   */
  lemma FitLaw(left: seq<real>, right: seq<real>, root: real, a: real, t: real, level: real)
    requires |left| == |right| >= 2 && IsRoot(root, SquareSum(left) * SquareSum(right)) && root != 0.0
    requires BestLine(left, right, a, t) && BestLevel(left, right, level)
    ensures var r := Correlation(left, right, root).value.value;
      && LineError(left, right, a, t) == Unexplained(r, LineError(left, right, level, 0.0))
      && (t > 0.0 <==> r > 0.0) && (t < 0.0 <==> r < 0.0)
  {
    hide LineError; hide MeanMiss; hide Mean; hide BestLine; hide BestLevel; hide SquareSum; hide IsRoot;
    hide Least; hide Slope; hide Unexplained; hide Correlation;
    var r, best := Coefficient(left, right, root);
    BestLineIs(left, right, best, a, t);
    BestLevelIs(left, right, level);
  }

  /** The coefficient, and the slope of the best line it stands for. */
  lemma Coefficient(left: seq<real>, right: seq<real>, root: real) returns (r: real, best: real)
    requires |left| == |right| >= 2 && IsRoot(root, SquareSum(left) * SquareSum(right)) && root != 0.0
    ensures Correlation(left, right, root) == Ok(Some(r)) && Slope(left, right, best)
    ensures Least(left, right, best) == Unexplained(r, SquareSum(left))
    ensures (best > 0.0 <==> r > 0.0) && (best < 0.0 <==> r < 0.0)
  {
    SpreadZeroIffConstant(left);
    SpreadZeroIffConstant(right);
    RootZero(root, SquareSum(left), SquareSum(right));
    SlopeOf(left, right);
    r, best := CrossSum(left, right) / root, CrossSum(left, right) / SquareSum(right);
    hide Constant; hide SquareSum; hide CrossSum; hide Unexplained; hide Scale; hide Slope; hide IsRoot;
    CoefficientFits(SquareSum(left), CrossSum(left, right), SquareSum(right), root, best);
  }

  lemma CoefficientFits(aa: real, ab: real, bb: real, root: real, best: real)
    requires aa > 0.0 && bb > 0.0 && IsRoot(root, aa * bb) && best == ab / bb
    ensures root > 0.0 && Unexplained(ab / root, aa) == aa - Scale(best, ab)
    ensures (best > 0.0 <==> ab / root > 0.0) && (best < 0.0 <==> ab / root < 0.0)
  {
    DivMul(ab, bb);
    RootZero(root, aa, bb);
    hide Unexplained; hide Scale;
    ShareLeft(aa, ab, bb, root, best);
    QuotientSign(ab, root);
    QuotientSign(ab, bb);
  }

  /** There is a best line and a best level. */
  lemma BestsExist(left: seq<real>, right: seq<real>)
    requires |left| == |right| >= 2 && !Constant(right)
    ensures exists a, t :: BestLine(left, right, a, t)
    ensures exists level :: BestLevel(left, right, level)
  {
    SpreadZeroIffConstant(right);
    SlopeOf(left, right);
    var best := CrossSum(left, right) / SquareSum(right);
    ThroughMeans(left, right, best);
    hide SquareSum; hide CrossSum; hide LineError; hide MeanMiss; hide Mean; hide BestLine; hide BestLevel;
    hide Constant; hide Slope;
    BestLineIs(left, right, best, Mean(left) - best * Mean(right), best);
    BestLevelIs(left, right, Mean(left));
  }
}
