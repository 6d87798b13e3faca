/** The few facts about real multiplication and division that the numerical proofs use. */
module Reals {
  /** A product as a term of its own, so that it is compared as a whole. */
  function Product(a: real, b: real): real {
    a * b
  }

  function Squared(v: real): real {
    v * v
  }

  lemma SquareNonNegative(a: real, q: real)
    requires q == a * a
    ensures q >= 0.0
  {
    assert a * a >= 0.0;
  }

  lemma SquareZero(a: real)
    requires a * a == 0.0
    ensures a == 0.0
  {
    UnscaleZero(a, a);
  }

  lemma UnscaleZero(a: real, b: real)
    requires a * b == 0.0
    ensures a == 0.0 || b == 0.0
  {
  }

  lemma ProductPositive(a: real, b: real, q: real)
    requires a > 0.0 && b > 0.0 && q == a * b
    ensures q > 0.0
  {
    assert a * b > 0.0;
  }

  lemma ScaleLess(a: real, b: real, c: real)
    requires a < b && c > 0.0
    ensures a * c < b * c
  {
  }

  lemma ScaleAtMost(a: real, b: real, c: real)
    requires a <= b && c >= 0.0
    ensures a * c <= b * c
  {
  }

  lemma Unscale(a: real, b: real, c: real)
    requires a * c <= b * c && c > 0.0
    ensures a <= b
  {
    if b < a {
      ScaleLess(b, a, c);
    }
  }

  lemma UnscaleEqual(a: real, b: real, c: real)
    requires a * c == b * c && c != 0.0
    ensures a == b
  {
    assert (a - b) * c == 0.0;
  }

  lemma Quotient(a: real, b: real)
    requires b != 0.0
    ensures (a / b) * b == a
  {
  }

  /** q is e/p and dp is d*p: comparing the quotients is comparing the products. */
  lemma ScaledCompare(d: real, q: real, p: real, dp: real, e: real)
    requires p > 0.0 && dp == d * p && e == q * p
    ensures dp <= e <==> d <= q
    ensures e <= dp <==> q <= d
  {
    if d < q {
      ScaleLess(d, q, p);
    } else if q < d {
      ScaleLess(q, d, p);
    }
  }

  lemma QuotientBound(d: real, p: real, e: real)
    requires p > 0.0
    ensures d * p <= e <==> d <= e / p
    ensures e <= d * p <==> e / p <= d
  {
    Quotient(e, p);
    ScaledCompare(d, e / p, p, d * p, e);
  }
}
