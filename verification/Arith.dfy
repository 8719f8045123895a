/** Sign, order and cancellation facts about products and quotients of reals. */
module Arith {
  /** k times x, as a name: proofs about scaling need its laws, not its arithmetic. */
  function Scale(k: real, x: real): real { k * x }

  lemma ScaleAdd(k: real, x: real, y: real)
    ensures Scale(k, x + y) == Scale(k, x) + Scale(k, y)
  {}

  lemma ScaleStrict(k: real, x: real, y: real)
    requires k > 0.0 && x < y
    ensures Scale(k, x) < Scale(k, y)
  {
    var d := y - x;
    MulPos(k, d);
    ScaleAdd(k, x, d);
  }

  lemma ScaleOrder(k: real, x: real, y: real)
    requires k > 0.0
    ensures Scale(k, x) < Scale(k, y) <==> x < y
  {
    hide Scale;
    if x < y { ScaleStrict(k, x, y); }
    if y < x { ScaleStrict(k, y, x); }
  }

  lemma ScaleMono(k: real, x: real, y: real)
    requires k >= 0.0 && x <= y
    ensures Scale(k, x) <= Scale(k, y)
  {
    var d := y - x;
    MulNonneg(k, d);
    ScaleAdd(k, x, d);
  }

  lemma ScaleDiv(k: real, x: real, y: real)
    requires k != 0.0 && y != 0.0
    ensures Scale(k, y) != 0.0
    ensures Scale(k, x) / y == Scale(k, x / y)
    ensures Scale(k, x) / Scale(k, y) == x / y
  {
    if k * y == 0.0 { MulCancel(k, 0.0, y); }
    DivMul(x, y);
    MulAssoc(k, x / y, y);
    DivUnique(k * x, y, k * (x / y));
    assert (x / y) * (k * y) == k * (x / y * y);
    DivUnique(k * x, k * y, x / y);
  }

  lemma MulNonneg(x: real, y: real)
    requires x >= 0.0 && y >= 0.0
    ensures x * y >= 0.0
  {}

  lemma MulPos(x: real, y: real)
    requires x > 0.0 && y > 0.0
    ensures x * y > 0.0
  {}

  lemma MulMono(x: real, y: real, k: real)
    requires x <= y && k >= 0.0
    ensures x * k <= y * k
  {}

  lemma MulMono2(a: real, b: real, x: real, y: real)
    requires 0.0 <= a <= b && 0.0 <= x <= y
    ensures 0.0 <= a * x <= b * y
  {
    MulNonneg(a, x);
    MulMono(a, b, x);
    MulMono(x, y, b);
  }

  lemma DivPos(x: real, y: real)
    requires x > 0.0 && y > 0.0
    ensures x / y > 0.0
  {}

  lemma DivMul(x: real, y: real)
    requires y != 0.0
    ensures x / y * y == x
  {}

  lemma DivMono(a: real, b: real, x: real, y: real)
    requires b > 0.0 && y > 0.0 && a * y <= x * b
    ensures a / b <= x / y
  {
    var u, v := a / b, x / y;
    DivMul(a, b);
    DivMul(x, y);
    MulPos(b, y);
    assert v * (b * y) == (v * y) * b;
    assert u * (b * y) == (u * b) * y;
    if u > v {
      MulMonoStrict(v, u, b * y);
    }
  }

  lemma MulMonoStrict(x: real, y: real, k: real)
    requires x < y && k > 0.0
    ensures x * k < y * k
  {}

  lemma MulCancel(x: real, y: real, k: real)
    requires k != 0.0 && x * k == y * k
    ensures x == y
  {
    assert (x - y) * k == 0.0;
  }

  /** A quotient is the only number whose product with the divisor is the dividend. */
  lemma DivUnique(x: real, y: real, z: real)
    requires y != 0.0 && z * y == x
    ensures x / y == z
  {
    DivMul(x, y);
    MulCancel(x / y, z, y);
  }

  /** Taking away a fraction f below one of a positive amount leaves a positive amount. */
  lemma LessFraction(x: real, f: real)
    requires x > 0.0 && 0.0 <= f < 1.0
    ensures x - x * f == x * (1.0 - f)
    ensures 0.0 < x - x * f <= x
  {
    var g := 1.0 - f;
    MulPos(x, g);
    MulNonneg(x, f);
    assert x * f + x * g == x * (f + g);
  }

  lemma MulMinus(x: real, y: real, z: real)
    ensures x * (y - z) == x * y - x * z
  {}

  lemma MulAssoc(x: real, y: real, z: real)
    ensures (x * y) * z == x * (y * z)
  {}
}
