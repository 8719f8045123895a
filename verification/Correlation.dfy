/**
 The sample correlation of two aligned series. The square root of the denominator is a parameter: the
 non-negative number whose square is the product of the two centred square sums.
 */
module Correlation {
  import opened Common
  import opened RealSeqs
  import opened Arith

  datatype SeriesError = NotAligned

  function Shifted(s: seq<real>, m: real): seq<real> {
    seq(|s|, i requires 0 <= i < |s| => s[i] - m)
  }

  function Centred(s: seq<real>): (c: seq<real>)
    requires s != []
    ensures |c| == |s|
  {
    Shifted(s, Mean(s))
  }

  function Dot(a: seq<real>, b: seq<real>): real
    requires |a| == |b|
  {
    if a == [] then 0.0 else Dot(a[..|a| - 1], b[..|b| - 1]) + a[|a| - 1] * b[|b| - 1]
  }

  function CrossSum(left: seq<real>, right: seq<real>): real
    requires |left| == |right| && left != []
  {
    Dot(Centred(left), Centred(right))
  }

  function SquareSum(s: seq<real>): real
    requires s != []
  {
    Dot(Centred(s), Centred(s))
  }

  ghost predicate IsRoot(root: real, square: real) { root >= 0.0 && root * root == square }

  function Correlation(left: seq<real>, right: seq<real>, root: real): (r: Result<Option<real>, SeriesError>)
    requires |left| == |right| >= 2 ==> IsRoot(root, SquareSum(left) * SquareSum(right))
  {
    if |left| != |right| || |left| < 2 then Err(NotAligned)
    else if root != 0.0 then Ok(Some(CrossSum(left, right) / root))
    else Ok(None)
  }

  // ----- sums of products

  lemma {:induction false} DotSymmetric(a: seq<real>, b: seq<real>)
    requires |a| == |b|
    ensures Dot(a, b) == Dot(b, a)
  {
    if a != [] { DotSymmetric(a[..|a| - 1], b[..|b| - 1]); }
  }

  lemma SameSign(x: real, y: real)
    requires (x > 0.0 && y > 0.0) || (x < 0.0 && y < 0.0)
    ensures Scale(x, y) > 0.0
  {
    if x > 0.0 {
      MulPos(x, y);
    } else {
      MulPos(-x, -y);
      assert (-x) * (-y) == x * y;
    }
  }

  lemma Square(x: real)
    ensures Scale(x, x) >= 0.0
    ensures Scale(x, x) == 0.0 <==> x == 0.0
  {
    if x == 0.0 {
      ZeroProduct(x, x);
    } else {
      hide Scale;
      SameSign(x, x);
    }
  }

  lemma ZeroProduct(x: real, y: real)
    requires x == 0.0 || y == 0.0
    ensures x * y == 0.0
  {
    if x == 0.0 { assert x * y == 0.0 * y; } else { assert x * y == x * 0.0; }
  }

  lemma ProductZeroIff(x: real, y: real, product: real)
    requires product == x * y
    ensures product == 0.0 <==> x == 0.0 || y == 0.0
  {
    if x == 0.0 || y == 0.0 {
      ZeroProduct(x, y);
    } else if product == 0.0 {
      MulCancel(x, 0.0, y);
    }
  }

  /** A square sum is non-negative, and zero only when every term is. */
  lemma {:induction false} DotOwn(a: seq<real>)
    ensures Dot(a, a) >= 0.0
    ensures Dot(a, a) == 0.0 <==> AllZero(a)
  {
    if a != [] {
      var n := |a| - 1;
      hide Dot; hide AllZero;
      DotOwn(a[..n]);
      DotOwnStep(a, n);
      Square(a[n]);
      AllZeroStep(a, n);
      hide Scale;
    }
  }

  lemma DotOwnStep(a: seq<real>, n: nat)
    requires |a| == n + 1
    ensures Dot(a, a) == Dot(a[..n], a[..n]) + Scale(a[n], a[n])
  {}

  ghost predicate AllZero(a: seq<real>) { forall i :: 0 <= i < |a| ==> a[i] == 0.0 }

  lemma AllZeroStep(a: seq<real>, n: nat)
    requires |a| == n + 1
    ensures AllZero(a) <==> AllZero(a[..n]) && a[n] == 0.0
  {
    assert forall i :: 0 <= i < n ==> a[..n][i] == a[i];
  }

  /** a - t * b, term by term. */
  function Residue(a: seq<real>, b: seq<real>, t: real): (r: seq<real>)
    requires |a| == |b|
    ensures |r| == |a|
  {
    seq(|a|, i requires 0 <= i < |a| => a[i] - t * b[i])
  }

  /** The value at t of the quadratic whose coefficients are the three product sums. */
  function Quadratic(aa: real, ab: real, bb: real, t: real): real { aa - 2.0 * t * ab + t * t * bb }

  lemma QuadraticAdds(aa: real, ab: real, bb: real, x: real, y: real, t: real, r: real,
                      aa': real, ab': real, bb': real, rr: real)
    requires r == x - t * y && aa' == aa + x * x && ab' == ab + x * y && bb' == bb + y * y && rr == r * r
    ensures Quadratic(aa', ab', bb', t) == Quadratic(aa, ab, bb, t) + rr
  {
    assert rr == x * x - 2.0 * t * (x * y) + t * t * (y * y);
    assert 2.0 * t * ab' == 2.0 * t * ab + 2.0 * t * (x * y);
    assert t * t * bb' == t * t * bb + t * t * (y * y);
  }

  lemma DotStep(a: seq<real>, b: seq<real>, n: nat)
    requires |a| == |b| == n + 1
    ensures Dot(a, b) == Dot(a[..n], b[..n]) + a[n] * b[n]
  {}

  lemma ResiduePrefix(a: seq<real>, b: seq<real>, t: real, n: nat)
    requires |a| == |b| && n <= |a|
    ensures Residue(a, b, t)[..n] == Residue(a[..n], b[..n], t)
  {
    var r, q := Residue(a, b, t)[..n], Residue(a[..n], b[..n], t);
    forall i | 0 <= i < n ensures r[i] == q[i] {
      assert r[i] == Residue(a, b, t)[i] == a[i] - t * b[i];
      assert q[i] == a[..n][i] - t * b[..n][i];
    }
  }

  lemma {:induction false} DotResidue(a: seq<real>, b: seq<real>, t: real)
    requires |a| == |b|
    ensures Dot(Residue(a, b, t), Residue(a, b, t)) == Quadratic(Dot(a, a), Dot(a, b), Dot(b, b), t)
  {
    hide Quadratic; hide Dot; hide Residue;
    if a == [] {
      EmptyDots(a, b, t);
    } else {
      var n, r := |a| - 1, Residue(a, b, t);
      ResidueAt(a, b, t, n);
      DotResidue(a[..n], b[..n], t);
      ResiduePrefix(a, b, t, n);
      DotStep(a, a, n);
      DotStep(a, b, n);
      DotStep(b, b, n);
      DotStep(r, r, n);
      QuadraticAdds(Dot(a[..n], a[..n]), Dot(a[..n], b[..n]), Dot(b[..n], b[..n]), a[n], b[n], t, r[n],
                    Dot(a, a), Dot(a, b), Dot(b, b), r[n] * r[n]);
    }
  }

  lemma EmptyDots(a: seq<real>, b: seq<real>, t: real)
    requires a == b == []
    ensures Dot(Residue(a, b, t), Residue(a, b, t)) == Quadratic(Dot(a, a), Dot(a, b), Dot(b, b), t)
  {
    assert Quadratic(0.0, 0.0, 0.0, t) == 0.0;
  }

  lemma ResidueAt(a: seq<real>, b: seq<real>, t: real, n: nat)
    requires n < |a| == |b|
    ensures Residue(a, b, t)[n] == a[n] - t * b[n]
  {}

  /** The Cauchy-Schwarz inequality for sums of products. */
  lemma CauchySchwarz(a: seq<real>, b: seq<real>)
    requires |a| == |b|
    ensures Dot(a, b) * Dot(a, b) <= Dot(a, a) * Dot(b, b)
  {
    var aa, ab, bb := Dot(a, a), Dot(a, b), Dot(b, b);
    DotOwn(a);
    DotOwn(b);
    if bb == 0.0 {
      ZeroFactor(a, b);
    } else {
      var t := ab / bb;
      DivMul(ab, bb);
      DotResidue(a, b, t);
      DotOwn(Residue(a, b, t));
      hide Dot; hide Quadratic;
      QuadraticNonneg(aa, ab, bb, t);
    }
  }

  lemma QuadraticNonneg(aa: real, ab: real, bb: real, t: real)
    requires bb > 0.0 && t * bb == ab && Quadratic(aa, ab, bb, t) >= 0.0
    ensures ab * ab <= aa * bb
    ensures Quadratic(aa, ab, bb, t) == 0.0 <==> ab * ab == aa * bb
  {
    var rest := Quadratic(aa, ab, bb, t);
    assert t * t * bb == t * ab by { MulAssoc(t, t, bb); }
    assert rest == aa - t * ab;
    hide Quadratic;
    assert rest * bb == aa * bb - (t * bb) * ab;
    MulNonneg(rest, bb);
    if rest != 0.0 { MulPos(rest, bb); }
  }

  lemma {:induction false} ZeroFactor(a: seq<real>, b: seq<real>)
    requires |a| == |b| && forall i :: 0 <= i < |b| ==> b[i] == 0.0
    ensures Dot(a, b) == 0.0
  {
    if a != [] { ZeroFactor(a[..|a| - 1], b[..|b| - 1]); }
  }

  ghost predicate Multiple(a: seq<real>, b: seq<real>, t: real)
    requires |a| == |b|
  {
    forall i :: 0 <= i < |a| ==> a[i] == t * b[i]
  }

  lemma ResidueZeroIff(a: seq<real>, b: seq<real>, t: real)
    requires |a| == |b|
    ensures Dot(Residue(a, b, t), Residue(a, b, t)) == 0.0 <==> Multiple(a, b, t)
  {
    var r := Residue(a, b, t);
    DotOwn(r);
    hide Dot;
    assert forall i :: 0 <= i < |a| ==> r[i] == a[i] - t * b[i];
  }

  /** Equality holds exactly when one list is a multiple of the other. */
  lemma CauchySchwarzEquality(a: seq<real>, b: seq<real>)
    requires |a| == |b| && Dot(b, b) != 0.0
    ensures Dot(a, b) * Dot(a, b) == Dot(a, a) * Dot(b, b) <==> Multiple(a, b, Dot(a, b) / Dot(b, b))
  {
    hide Dot; hide Quadratic; hide Multiple; hide Residue;
    var aa, ab, bb := Dot(a, a), Dot(a, b), Dot(b, b);
    var t := ab / bb;
    DotOwn(b);
    DivMul(ab, bb);
    DotResidue(a, b, t);
    DotOwn(Residue(a, b, t));
    ResidueZeroIff(a, b, t);
    QuadraticNonneg(aa, ab, bb, t);
  }

  // ----- the coefficient

  ghost predicate Constant(s: seq<real>) {
    forall i, j :: 0 <= i < |s| && 0 <= j < |s| ==> s[i] == s[j]
  }

  lemma {:induction false} SumOfConstant(s: seq<real>, c: real)
    requires forall i :: 0 <= i < |s| ==> s[i] == c
    ensures Sum(s) == |s| as real * c
  {
    if s != [] {
      SumOfConstant(s[..|s| - 1], c);
      assert |s| as real * c == (|s| - 1) as real * c + c;
    }
  }

  /** A series has no spread exactly when it is constant. */
  lemma SpreadZeroIffConstant(s: seq<real>)
    requires s != []
    ensures SquareSum(s) >= 0.0
    ensures SquareSum(s) == 0.0 <==> Constant(s)
  {
    DotOwn(Centred(s));
    var c := Centred(s);
    if Constant(s) {
      SumOfConstant(s, s[0]);
      DivUnique(Sum(s), |s| as real, s[0]);
      assert forall i :: 0 <= i < |s| ==> c[i] == 0.0;
    }
    if forall i :: 0 <= i < |s| ==> c[i] == 0.0 {
      forall i, j | 0 <= i < |s| && 0 <= j < |s| ensures s[i] == s[j] {
        assert c[i] == s[i] - Mean(s) && c[j] == s[j] - Mean(s);
      }
    }
  }

  lemma RootZero(root: real, x: real, y: real)
    requires IsRoot(root, x * y)
    ensures root == 0.0 <==> x == 0.0 || y == 0.0
  {
    Square(root);
    ProductZeroIff(x, y, x * y);
    assert Scale(root, root) == x * y;
    hide Scale;
  }

  lemma RatioInUnit(n: real, root: real)
    requires root > 0.0 && n * n <= root * root
    ensures -1.0 <= n / root <= 1.0
  {
    DivMul(n, root);
    BelowRoot(n, root);
    assert (-n) * (-n) == n * n;
    BelowRoot(-n, root);
    MulMono(n, root, root);
    MulMono(-root, n, root);
    DivMono(n, root, root, root);
    DivUnique(root, root, 1.0);
    DivMono(-root, root, n, root);
    DivUnique(-root, root, -1.0);
  }

  lemma BelowRoot(n: real, root: real)
    requires root > 0.0 && n * n <= root * root
    ensures n <= root
  {
    if n > root {
      MulMonoStrict(root, n, root);
      MulMonoStrict(root, n, n);
    }
  }

  /** The correlation lies between -1 and 1, and is undefined exactly when one series is constant. */
  lemma CorrelationRange(left: seq<real>, right: seq<real>, root: real)
    requires |left| == |right| >= 2 && IsRoot(root, SquareSum(left) * SquareSum(right))
    ensures var r := Correlation(left, right, root);
      && r.Ok?
      && (r.value.None? <==> Constant(left) || Constant(right))
      && (r.value.Some? ==> -1.0 <= r.value.value <= 1.0)
  {
    hide Constant; hide Dot;
    SpreadZeroIffConstant(left);
    SpreadZeroIffConstant(right);
    CauchySchwarz(Centred(left), Centred(right));
    var n, x, y := CrossSum(left, right), SquareSum(left), SquareSum(right);
    assert n * n <= x * y;
    hide CrossSum; hide SquareSum; hide Centred;
    RootZero(root, x, y);
    if root != 0.0 { RatioInUnit(n, root); }
  }

  /** It is plus or minus one exactly when the centred series are multiples of each other. */
  lemma PerfectCorrelation(left: seq<real>, right: seq<real>, root: real)
    requires |left| == |right| >= 2 && IsRoot(root, SquareSum(left) * SquareSum(right)) && root != 0.0
    ensures var r := Correlation(left, right, root).value.value;
      (r == 1.0 || r == -1.0) <==>
        SquareSum(right) != 0.0
        && Multiple(Centred(left), Centred(right), CrossSum(left, right) / SquareSum(right))
  {
    hide Dot; hide Centred; hide Multiple;
    RootZero(root, SquareSum(left), SquareSum(right));
    CauchySchwarzEquality(Centred(left), Centred(right));
    UnitRatio(CrossSum(left, right), root);
  }

  lemma UnitRatio(n: real, root: real)
    requires root > 0.0
    ensures (n / root == 1.0 || n / root == -1.0) <==> n * n == root * root
  {
    DivMul(n, root);
    if n * n == root * root {
      assert (n - root) * (n + root) == 0.0;
      if n != root { MulCancel(n + root, 0.0, n - root); }
      if n == root { DivUnique(n, root, 1.0); } else { DivUnique(n, root, -1.0); }
    }
  }

  lemma CorrelationSymmetric(left: seq<real>, right: seq<real>, root: real)
    requires |left| == |right| >= 2 && IsRoot(root, SquareSum(left) * SquareSum(right))
    ensures IsRoot(root, SquareSum(right) * SquareSum(left))
    ensures Correlation(left, right, root) == Correlation(right, left, root)
  {
    DotSymmetric(Centred(left), Centred(right));
  }

  // ----- invariance under positive affine maps

  function Affine(s: seq<real>, scale: real, shift: real): (r: seq<real>)
    ensures |r| == |s|
  {
    seq(|s|, i requires 0 <= i < |s| => Scale(scale, s[i]) + shift)
  }

  lemma {:induction false} SumAffine(s: seq<real>, scale: real, shift: real)
    ensures Sum(Affine(s, scale, shift)) == Scale(scale, Sum(s)) + |s| as real * shift
  {
    if s != [] {
      var rest := s[..|s| - 1];
      SumAffine(rest, scale, shift);
      assert Affine(s, scale, shift)[..|s| - 1] == Affine(rest, scale, shift);
      ScaleAdd(scale, Sum(rest), s[|s| - 1]);
      assert |s| as real * shift == (|s| - 1) as real * shift + shift;
    }
  }

  lemma MeanAffine(s: seq<real>, scale: real, shift: real)
    requires s != []
    ensures Mean(Affine(s, scale, shift)) == Scale(scale, Mean(s)) + shift
  {
    SumAffine(s, scale, shift);
    MeanOfAffine(Sum(s), |s| as real, scale, shift);
    hide Sum; hide Affine; hide Scale;
  }

  lemma MeanOfAffine(sum: real, n: real, scale: real, shift: real)
    requires n != 0.0
    ensures (Scale(scale, sum) + n * shift) / n == Scale(scale, sum / n) + shift
  {
    var mean := sum / n;
    DivMul(sum, n);
    MulAssoc(scale, mean, n);
    assert (scale * mean + shift) * n == (scale * mean) * n + n * shift;
    DivUnique(scale * sum + n * shift, n, scale * mean + shift);
  }

  lemma CentredAffine(s: seq<real>, scale: real, shift: real)
    requires s != []
    ensures Centred(Affine(s, scale, shift)) == Scaled(Centred(s), scale)
  {
    MeanAffine(s, scale, shift);
    var m := Mean(s);
    hide Mean;
    forall i | 0 <= i < |s|
      ensures Centred(Affine(s, scale, shift))[i] == Scaled(Centred(s), scale)[i]
    {
      ScaleAdd(scale, s[i] - m, m);
    }
  }

  lemma {:induction false} DotScaled(a: seq<real>, b: seq<real>, k: real)
    requires |a| == |b|
    ensures |Scaled(a, k)| == |a| && Dot(Scaled(a, k), b) == Scale(k, Dot(a, b))
  {
    if a != [] {
      var n := |a| - 1;
      DotScaled(a[..n], b[..n], k);
      ScaledSlice(a, k, 0, n);
      assert Scaled(a, k)[0..n] == Scaled(a, k)[..n] && a[0..n] == a[..n];
      MulAssoc(k, a[n], b[n]);
      ScaleAdd(k, Dot(a[..n], b[..n]), a[n] * b[n]);
    }
  }

  lemma RootUnique(x: real, y: real)
    requires x >= 0.0 && y >= 0.0 && x * x == y * y
    ensures x == y
  {
    assert (x - y) * (x + y) == 0.0;
    if x + y != 0.0 { MulCancel(x - y, 0.0, x + y); }
  }

  /** Rescaling by a positive factor and shifting one series does not change the correlation. */
  lemma CorrelationAffine(left: seq<real>, right: seq<real>, root: real, scale: real, shift: real, root': real)
    requires |left| == |right| >= 2 && scale > 0.0
    requires IsRoot(root, SquareSum(left) * SquareSum(right))
    requires IsRoot(root', SquareSum(Affine(left, scale, shift)) * SquareSum(right))
    ensures Correlation(Affine(left, scale, shift), right, root') == Correlation(left, right, root)
  {
    var moved := Affine(left, scale, shift);
    var c, d := Centred(left), Centred(right);
    CentredAffine(left, scale, shift);
    DotScaled(c, d, scale);
    DotScaled(c, Scaled(c, scale), scale);
    DotScaled(c, c, scale);
    DotSymmetric(c, Scaled(c, scale));
    var x, y, n := SquareSum(left), SquareSum(right), CrossSum(left, right);
    assert CrossSum(moved, right) == Scale(scale, n);
    assert SquareSum(moved) == Scale(scale, Scale(scale, x));
    hide Dot; hide Centred; hide Affine; hide Scaled; hide SquareSum; hide CrossSum;
    RootScaled(root, root', x, y, scale);
    if root != 0.0 { ScaleDiv(scale, n, root); }
  }

  lemma RootScaled(root: real, root': real, x: real, y: real, scale: real)
    requires IsRoot(root, x * y) && IsRoot(root', Scale(scale, Scale(scale, x)) * y) && scale > 0.0
    ensures root' == Scale(scale, root) && (root' == 0.0 <==> root == 0.0)
  {
    assert (scale * (scale * x)) * y == (scale * scale) * (x * y);
    assert (scale * root) * (scale * root) == (scale * scale) * (root * root);
    MulNonneg(scale, root);
    RootUnique(root', Scale(scale, root));
    if root != 0.0 { MulPos(scale, root); }
  }
}
