/** Small facts of real arithmetic, each stated on its own so that the
    solver meets one non-linear step at a time. */
module RealFacts {

  lemma MulNonNeg(a: real, b: real)
    requires a >= 0.0 && b >= 0.0
    ensures a * b >= 0.0
  {
  }

  lemma MulPos(a: real, b: real)
    requires a > 0.0 && b > 0.0
    ensures a * b > 0.0
  {
  }

  lemma MulMono(a: real, x: real, y: real)
    requires a >= 0.0 && x <= y
    ensures a * x <= a * y
  {
  }

  lemma MulCancelLe(p: real, x: real, y: real)
    requires p > 0.0 && p * x <= p * y
    ensures x <= y
  {
  }

  lemma DivMul(s: real, p: real)
    requires p != 0.0
    ensures (s / p) * p == s
  {
  }

  lemma MulDiv(p: real, c: real)
    requires p != 0.0
    ensures (p * c) / p == c
  {
  }

  lemma DivAdd(a: real, b: real, d: real)
    requires d != 0.0
    ensures a / d + b / d == (a + b) / d
  {
  }

  lemma MulNonPos(a: real, b: real)
    requires a >= 0.0 && b <= 0.0
    ensures a * b <= 0.0
  {
  }

  lemma MulAtMost(a: real, d: real)
    requires a <= 1.0 && d >= 0.0
    ensures a * d <= d
  {
  }

  lemma MulAtLeast(a: real, d: real)
    requires a <= 1.0 && d <= 0.0
    ensures a * d >= d
  {
  }

  lemma Distribute(a: real, x: real, p: real, d: real)
    requires d == x - p
    ensures a * x + (1.0 - a) * p == p + a * d
  {
  }

  /** A weighted average of x and p is p moved part of the way towards x.
      The offset m is returned so that callers reason about it linearly. */
  lemma WeightedStep(a: real, x: real, p: real) returns (m: real)
    requires 0.0 <= a <= 1.0
    ensures a * x + (1.0 - a) * p == p + m
    ensures x >= p ==> 0.0 <= m <= x - p
    ensures x <= p ==> x - p <= m <= 0.0
  {
    var d := x - p;
    m := a * d;
    Distribute(a, x, p, d);
    if d > 0.0 {
      MulNonNeg(a, d);
      MulAtMost(a, d);
    } else if d == 0.0 {
      assert m == 0.0;
    } else {
      MulNonPos(a, d);
      MulAtLeast(a, d);
    }
  }
}
