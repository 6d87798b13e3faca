/**
 * The least-squares slope of core/automation/longterm_projection.go. Over the reals; rounding is not
 * modelled.
 *
 * Every sum over the points is a `Total` of a sequence of terms, so that one lemma about linear
 * combinations of terms serves all of them; what remains is algebra on the five accumulated sums.
 */
module Regression {
  import opened Reals

  datatype Point = Point(x: real, y: real)

  function Total(terms: seq<real>): real {
    if terms == [] then 0.0 else Total(terms[..|terms| - 1]) + terms[|terms| - 1]
  }

  // ---- The accumulated sums ----

  function Ones(pts: seq<Point>): seq<real> {
    seq(|pts|, i => 1.0)
  }

  function Xs(pts: seq<Point>): seq<real> {
    seq(|pts|, i requires 0 <= i < |pts| => pts[i].x)
  }

  function Ys(pts: seq<Point>): seq<real> {
    seq(|pts|, i requires 0 <= i < |pts| => pts[i].y)
  }

  function XXs(pts: seq<Point>): seq<real> {
    seq(|pts|, i requires 0 <= i < |pts| => Product(pts[i].x, pts[i].x))
  }

  function XYs(pts: seq<Point>): seq<real> {
    seq(|pts|, i requires 0 <= i < |pts| => Product(pts[i].x, pts[i].y))
  }

  /** The sums the loop accumulates, and the number of points. */
  datatype Sums = Sums(n: real, x: real, y: real, xx: real, xy: real) {
    function Denominator(): real {
      n * xx - x * x
    }

    function Slope(): real {
      if Denominator() == 0.0 then 0.0 else (n * xy - x * y) / Denominator()
    }

    /** The intercept that belongs to the slope: the line passes through the mean point. */
    function Intercept(): real
      requires n != 0.0
    {
      (y - Slope() * x) / n
    }
  }

  function SumsOf(pts: seq<Point>): Sums {
    Sums(|pts| as real, Total(Xs(pts)), Total(Ys(pts)), Total(XXs(pts)), Total(XYs(pts)))
  }

  lemma SumsStep(pts: seq<Point>, p: Point)
    ensures var s, t := SumsOf(pts), SumsOf(pts + [p]);
            t == Sums(s.n + 1.0, s.x + p.x, s.y + p.y, s.xx + Product(p.x, p.x), s.xy + Product(p.x, p.y))
  {
    var more := pts + [p];
    assert Xs(more)[..|pts|] == Xs(pts) && Ys(more)[..|pts|] == Ys(pts);
    assert XXs(more)[..|pts|] == XXs(pts) && XYs(more)[..|pts|] == XYs(pts);
  }

  /** The loop over the points. */
  method Accumulate(pts: seq<Point>) returns (s: Sums)
    ensures s == SumsOf(pts)
  {
    var sumX, sumY, sumXX, sumXY := 0.0, 0.0, 0.0, 0.0;
    for i := 0 to |pts|
      invariant Sums(i as real, sumX, sumY, sumXX, sumXY) == SumsOf(pts[..i])
    {
      assert pts[..i + 1] == pts[..i] + [pts[i]];
      SumsStep(pts[..i], pts[i]);
      sumX := sumX + pts[i].x;
      sumY := sumY + pts[i].y;
      sumXX := sumXX + pts[i].x * pts[i].x;
      sumXY := sumXY + pts[i].x * pts[i].y;
    }
    assert pts[..|pts|] == pts;
    s := Sums(|pts| as real, sumX, sumY, sumXX, sumXY);
  }

  // ---- Linear combinations of terms ----

  function Scaled(a: real, terms: seq<real>): seq<real> {
    seq(|terms|, i requires 0 <= i < |terms| => Product(a, terms[i]))
  }

  lemma Distribute(a: real, t: real, v: real)
    ensures Product(a, t) + Product(a, v) == Product(a, t + v)
  {
  }

  lemma {:induction false} TotalOfScaled(a: real, terms: seq<real>)
    ensures Total(Scaled(a, terms)) == Product(a, Total(terms))
  {
    if terms != [] {
      var n := |terms| - 1;
      TotalOfScaled(a, terms[..n]);
      assert Scaled(a, terms)[..n] == Scaled(a, terms[..n]);
      Distribute(a, Total(terms[..n]), terms[n]);
    }
  }

  lemma {:induction false} TotalOfSum(w: seq<real>, p: seq<real>, q: seq<real>, r: seq<real>)
    requires |w| == |p| == |q| == |r| && forall i :: 0 <= i < |w| ==> w[i] == p[i] + q[i] + r[i]
    ensures Total(w) == Total(p) + Total(q) + Total(r)
  {
    if w != [] {
      var n := |w| - 1;
      TotalOfSum(w[..n], p[..n], q[..n], r[..n]);
    }
  }

  /** Every term of w is the same linear combination of the terms of p, q and r. */
  ghost predicate IsCombination(w: seq<real>, p: seq<real>, q: seq<real>, r: seq<real>, a: real, b: real, c: real) {
    && |w| == |p| == |q| == |r|
    && forall i :: 0 <= i < |w| ==> w[i] == Product(a, p[i]) + Product(b, q[i]) + Product(c, r[i])
  }

  /** A term-wise linear combination adds up to the same combination of the totals. */
  lemma Combine(w: seq<real>, p: seq<real>, q: seq<real>, r: seq<real>, a: real, b: real, c: real)
    requires IsCombination(w, p, q, r, a, b, c)
    ensures Total(w) == Product(a, Total(p)) + Product(b, Total(q)) + Product(c, Total(r))
  {
    TotalOfScaled(a, p);
    TotalOfScaled(b, q);
    TotalOfScaled(c, r);
    TotalOfSum(w, Scaled(a, p), Scaled(b, q), Scaled(c, r));
  }

  lemma {:induction false} TotalOfOnes(pts: seq<Point>)
    ensures Total(Ones(pts)) == |pts| as real
  {
    if pts != [] {
      TotalOfOnes(pts[..|pts| - 1]);
      assert Ones(pts)[..|pts| - 1] == Ones(pts[..|pts| - 1]);
    }
  }

  lemma {:induction false} TotalNonNegative(terms: seq<real>)
    requires forall i :: 0 <= i < |terms| ==> terms[i] >= 0.0
    ensures Total(terms) >= 0.0
    ensures Total(terms) == 0.0 <==> forall i :: 0 <= i < |terms| ==> terms[i] == 0.0
  {
    if terms != [] {
      TotalNonNegative(terms[..|terms| - 1]);
    }
  }

  // ---- Errors of a line ----

  /** What the line a + bx misses the point by. */
  function Residual(p: Point, a: real, b: real): real {
    p.y - (a + b * p.x)
  }

  function SquaredResiduals(pts: seq<Point>, a: real, b: real): seq<real> {
    seq(|pts|, i requires 0 <= i < |pts| => Squared(Residual(pts[i], a, b)))
  }

  /** The sum of squared residuals of the line a + bx. */
  function SquaredError(pts: seq<Point>, a: real, b: real): real {
    Total(SquaredResiduals(pts, a, b))
  }

  function Residuals(pts: seq<Point>, a: real, b: real): seq<real> {
    seq(|pts|, i requires 0 <= i < |pts| => Residual(pts[i], a, b))
  }

  function ResidualsTimesX(pts: seq<Point>, a: real, b: real): seq<real> {
    seq(|pts|, i requires 0 <= i < |pts| => Product(Residual(pts[i], a, b), pts[i].x))
  }

  function LineAt(p: Point, a: real, b: real): real {
    a + b * p.x
  }

  function ResidualsTimesLine(pts: seq<Point>, a: real, b: real, c: real, d: real): seq<real> {
    seq(|pts|, i requires 0 <= i < |pts| => Product(Residual(pts[i], a, b), LineAt(pts[i], c, d)))
  }

  /** The squares of the line's values. */
  function SquaredLine(pts: seq<Point>, a: real, b: real): seq<real> {
    seq(|pts|, i requires 0 <= i < |pts| => Squared(LineAt(pts[i], a, b)))
  }

  lemma MovedResidual(p: Point, a: real, b: real, c: real, d: real)
    ensures Squared(Residual(p, a + c, b + d))
         == 1.0 * Squared(Residual(p, a, b)) + (-2.0) * Product(Residual(p, a, b), LineAt(p, c, d))
            + 1.0 * Squared(LineAt(p, c, d))
  {
    var r, w := Residual(p, a, b), LineAt(p, c, d);
    assert Residual(p, a + c, b + d) == r - w;
    assert (r - w) * (r - w) == r * r - 2.0 * (r * w) + w * w;
  }

  /** Moving a line by c + dx. */
  lemma ErrorOfMovedLine(pts: seq<Point>, a: real, b: real, c: real, d: real)
    ensures SquaredError(pts, a + c, b + d)
         == 1.0 * SquaredError(pts, a, b) + (-2.0) * Total(ResidualsTimesLine(pts, a, b, c, d))
            + 1.0 * Total(SquaredLine(pts, c, d))
  {
    var t, u := SquaredResiduals(pts, a + c, b + d), SquaredResiduals(pts, a, b);
    var v, w := ResidualsTimesLine(pts, a, b, c, d), SquaredLine(pts, c, d);
    forall i | 0 <= i < |pts| ensures t[i] == 1.0 * u[i] + (-2.0) * v[i] + 1.0 * w[i] {
      MovedResidual(pts[i], a, b, c, d);
    }
    Combine(t, u, v, w, 1.0, -2.0, 1.0);
  }

  lemma ResidualsSum(pts: seq<Point>, a: real, b: real)
    ensures var s := SumsOf(pts); Total(Residuals(pts, a, b)) == Product(1.0, s.y) + Product(-a, s.n) + Product(-b, s.x)
  {
    TotalOfOnes(pts);
    Combine(Residuals(pts, a, b), Ys(pts), Ones(pts), Xs(pts), 1.0, -a, -b);
  }

  lemma ResidualTimesX(p: Point, a: real, b: real)
    ensures Product(Residual(p, a, b), p.x) == 1.0 * Product(p.x, p.y) + (-a) * p.x + (-b) * Product(p.x, p.x)
  {
    var x, y := p.x, p.y;
    assert (y - (a + b * x)) * x == x * y - a * x - b * (x * x);
  }

  lemma ResidualsTimesXTerms(pts: seq<Point>, a: real, b: real)
    ensures IsCombination(ResidualsTimesX(pts, a, b), XYs(pts), Xs(pts), XXs(pts), 1.0, -a, -b)
  {
    forall i | 0 <= i < |pts|
      ensures ResidualsTimesX(pts, a, b)[i] == 1.0 * XYs(pts)[i] + (-a) * Xs(pts)[i] + (-b) * XXs(pts)[i]
    {
      ResidualTimesX(pts[i], a, b);
    }
  }

  lemma ResidualsTimesXSum(pts: seq<Point>, a: real, b: real)
    ensures var s := SumsOf(pts);
            Total(ResidualsTimesX(pts, a, b)) == Product(1.0, s.xy) + Product(-a, s.x) + Product(-b, s.xx)
  {
    ResidualsTimesXTerms(pts, a, b);
    Combine(ResidualsTimesX(pts, a, b), XYs(pts), Xs(pts), XXs(pts), 1.0, -a, -b);
  }

  lemma LineSquared(p: Point, a: real, b: real)
    ensures Squared(LineAt(p, a, b)) == Squared(a) * 1.0 + (2.0 * Product(a, b)) * p.x + Squared(b) * Product(p.x, p.x)
  {
    var x := p.x;
    assert (a + b * x) * (a + b * x) == a * a + 2.0 * (a * b) * x + (b * b) * (x * x);
  }

  lemma SquaredLineTerms(pts: seq<Point>, a: real, b: real)
    ensures IsCombination(SquaredLine(pts, a, b), Ones(pts), Xs(pts), XXs(pts),
                          Squared(a), 2.0 * Product(a, b), Squared(b))
  {
    forall i | 0 <= i < |pts|
      ensures SquaredLine(pts, a, b)[i]
           == Squared(a) * Ones(pts)[i] + (2.0 * Product(a, b)) * Xs(pts)[i] + Squared(b) * XXs(pts)[i]
    {
      LineSquared(pts[i], a, b);
    }
  }

  lemma SquaredLineSum(pts: seq<Point>, a: real, b: real)
    ensures var s := SumsOf(pts);
            Total(SquaredLine(pts, a, b))
            == Product(Squared(a), s.n) + Product(2.0 * Product(a, b), s.x) + Product(Squared(b), s.xx)
  {
    TotalOfOnes(pts);
    SquaredLineTerms(pts, a, b);
    Combine(SquaredLine(pts, a, b), Ones(pts), Xs(pts), XXs(pts), Squared(a), 2.0 * Product(a, b), Squared(b));
  }

  lemma SquaredLineNonNegative(pts: seq<Point>, a: real, b: real)
    ensures Total(SquaredLine(pts, a, b)) >= 0.0
    ensures Total(SquaredLine(pts, a, b)) == 0.0 <==> forall i :: 0 <= i < |pts| ==> LineAt(pts[i], a, b) == 0.0
  {
    var terms := SquaredLine(pts, a, b);
    forall i | 0 <= i < |pts| ensures terms[i] >= 0.0 && (terms[i] == 0.0 <==> LineAt(pts[i], a, b) == 0.0) {
      var v := LineAt(pts[i], a, b);
      SquareNonNegative(v, terms[i]);
      if terms[i] == 0.0 {
        SquareZero(v);
      }
    }
    TotalNonNegative(terms);
  }

  // ---- The fitted line ----

  /** What multiplying out the quotients says of the computed intercept and slope. */
  ghost predicate Fits(s: Sums, a: real, b: real) {
    a * s.n == s.y - b * s.x && b * s.Denominator() == s.n * s.xy - s.x * s.y
  }

  lemma ComputedLineFits(s: Sums)
    requires s.n != 0.0 && s.Denominator() != 0.0
    ensures Fits(s, s.Intercept(), s.Slope())
  {
    Quotient(s.n * s.xy - s.x * s.y, s.Denominator());
    Quotient(s.y - s.Slope() * s.x, s.n);
  }

  lemma NormalAlgebra(n: real, sx: real, sy: real, sxx: real, sxy: real, a: real, b: real)
    requires n != 0.0 && a * n == sy - b * sx && b * (n * sxx - sx * sx) == n * sxy - sx * sy
    ensures 1.0 * sxy + (-a) * sx + (-b) * sxx == 0.0
  {
    assert (sxy - a * sx - b * sxx) * n == n * sxy - (a * n) * sx - b * (n * sxx);
    assert (sy - b * sx) * sx == sx * sy - b * (sx * sx);
    assert b * (n * sxx - sx * sx) == b * (n * sxx) - b * (sx * sx);
    UnscaleEqual(sxy - a * sx - b * sxx, 0.0, n);
  }

  /** The computed line's residuals cancel, plainly and weighted by x. */
  lemma NormalEquations(pts: seq<Point>, a: real, b: real)
    requires pts != [] && SumsOf(pts).Denominator() != 0.0
    requires a == SumsOf(pts).Intercept() && b == SumsOf(pts).Slope()
    ensures Total(Residuals(pts, a, b)) == 0.0 && Total(ResidualsTimesX(pts, a, b)) == 0.0
  {
    ComputedLineFits(SumsOf(pts));
    NormalY(pts, a, b);
    NormalX(pts, a, b);
  }

  lemma NormalYAlgebra(s: Sums, a: real, b: real)
    requires Fits(s, a, b)
    ensures Product(1.0, s.y) + Product(-a, s.n) + Product(-b, s.x) == 0.0
  {
  }

  lemma NormalXAlgebra(s: Sums, a: real, b: real)
    requires s.n != 0.0 && Fits(s, a, b)
    ensures Product(1.0, s.xy) + Product(-a, s.x) + Product(-b, s.xx) == 0.0
  {
    NormalAlgebra(s.n, s.x, s.y, s.xx, s.xy, a, b);
  }

  lemma NormalY(pts: seq<Point>, a: real, b: real)
    requires Fits(SumsOf(pts), a, b)
    ensures Total(Residuals(pts, a, b)) == 0.0
  {
    NormalYAlgebra(SumsOf(pts), a, b);
    ResidualsSum(pts, a, b);
  }

  lemma NormalX(pts: seq<Point>, a: real, b: real)
    requires pts != [] && Fits(SumsOf(pts), a, b)
    ensures Total(ResidualsTimesX(pts, a, b)) == 0.0
  {
    NormalXAlgebra(SumsOf(pts), a, b);
    ResidualsTimesXSum(pts, a, b);
  }

  lemma ResidualTimesLine(p: Point, a: real, b: real, c: real, d: real)
    ensures Product(Residual(p, a, b), LineAt(p, c, d))
         == Product(c, Residual(p, a, b)) + Product(d, Product(Residual(p, a, b), p.x))
            + Product(0.0, Residual(p, a, b))
  {
    var e, x := Residual(p, a, b), p.x;
    assert e * (c + d * x) == c * e + d * (e * x);
  }

  lemma ResidualsTimesLineTerms(pts: seq<Point>, a: real, b: real, c: real, d: real)
    ensures IsCombination(ResidualsTimesLine(pts, a, b, c, d),
                          Residuals(pts, a, b), ResidualsTimesX(pts, a, b), Residuals(pts, a, b), c, d, 0.0)
  {
    var r, rx := Residuals(pts, a, b), ResidualsTimesX(pts, a, b);
    forall i | 0 <= i < |pts|
      ensures ResidualsTimesLine(pts, a, b, c, d)[i] == Product(c, r[i]) + Product(d, rx[i]) + Product(0.0, r[i])
    {
      ResidualTimesLine(pts[i], a, b, c, d);
    }
  }

  /** So they cancel weighted by any line. */
  lemma ResidualsCancel(pts: seq<Point>, a: real, b: real, c: real, d: real)
    requires Total(Residuals(pts, a, b)) == 0.0 && Total(ResidualsTimesX(pts, a, b)) == 0.0
    ensures Total(ResidualsTimesLine(pts, a, b, c, d)) == 0.0
  {
    ResidualsTimesLineTerms(pts, a, b, c, d);
    Combine(ResidualsTimesLine(pts, a, b, c, d),
            Residuals(pts, a, b), ResidualsTimesX(pts, a, b), Residuals(pts, a, b), c, d, 0.0);
  }

  /** When the x values are not all equal, no line has a smaller squared error than the computed one. */
  lemma SlopeMinimisesError(pts: seq<Point>, a: real, b: real)
    requires pts != [] && SumsOf(pts).Denominator() != 0.0
    ensures SquaredError(pts, SumsOf(pts).Intercept(), SumsOf(pts).Slope()) <= SquaredError(pts, a, b)
  {
    var a0, b0 := SumsOf(pts).Intercept(), SumsOf(pts).Slope();
    NormalEquations(pts, a0, b0);
    FittedLineIsBest(pts, a0, b0, a, b);
  }

  lemma FittedLineIsBest(pts: seq<Point>, a0: real, b0: real, a: real, b: real)
    requires Total(Residuals(pts, a0, b0)) == 0.0 && Total(ResidualsTimesX(pts, a0, b0)) == 0.0
    ensures SquaredError(pts, a0, b0) <= SquaredError(pts, a, b)
  {
    ErrorOfMovedLine(pts, a0, b0, a - a0, b - b0);
    ResidualsCancel(pts, a0, b0, a - a0, b - b0);
    SquaredLineNonNegative(pts, a - a0, b - b0);
    assert a0 + (a - a0) == a && b0 + (b - b0) == b;
  }

  // ---- The denominator ----

  lemma DenominatorAlgebra(n: real, sx: real, sxx: real)
    ensures Product(Squared(-sx), n) + Product(2.0 * Product(-sx, n), sx) + Product(Squared(n), sxx)
         == Product(n, n * sxx - sx * sx)
  {
    assert Squared(-sx) * n == n * (sx * sx);
    assert (2.0 * Product(-sx, n)) * sx == -2.0 * (n * (sx * sx));
    assert (n * n) * sxx == n * (n * sxx);
    assert n * (n * sxx - sx * sx) == n * (n * sxx) - n * (sx * sx);
  }

  /** n times the denominator is the sum of the squares of n x - sum of x. */
  lemma DenominatorIsSpread(pts: seq<Point>)
    ensures var s := SumsOf(pts); Total(SquaredLine(pts, -s.x, s.n)) == Product(s.n, s.Denominator())
  {
    var s := SumsOf(pts);
    SquaredLineSum(pts, -s.x, s.n);
    SpreadOfSums(s, Total(SquaredLine(pts, -s.x, s.n)));
  }

  lemma SpreadOfSums(s: Sums, spread: real)
    requires spread
          == Product(Squared(-s.x), s.n) + Product(2.0 * Product(-s.x, s.n), s.x) + Product(Squared(s.n), s.xx)
    ensures spread == Product(s.n, s.Denominator())
  {
    DenominatorAlgebra(s.n, s.x, s.xx);
  }

  ghost predicate AllXEqual(pts: seq<Point>) {
    forall i, j :: 0 <= i < j < |pts| ==> pts[i].x == pts[j].x
  }

  lemma SameProduct(n: real, x: real, y: real, t: real)
    requires n != 0.0 && -t + n * x == 0.0 && -t + n * y == 0.0
    ensures x == y
  {
    assert x * n == y * n;
    UnscaleEqual(x, y, n);
  }

  lemma EqualsAreAverage(pts: seq<Point>, c: real)
    requires forall i :: 0 <= i < |pts| ==> pts[i].x == c
    ensures -SumsOf(pts).x + SumsOf(pts).n * c == 0.0
  {
    TotalOfOnes(pts);
    Combine(Xs(pts), Ones(pts), Ones(pts), Ones(pts), c, 0.0, 0.0);
  }

  lemma AveragesAreEqual(pts: seq<Point>, n: real, t: real)
    requires n != 0.0 && forall i :: 0 <= i < |pts| ==> LineAt(pts[i], -t, n) == 0.0
    ensures AllXEqual(pts)
  {
    forall i, j | 0 <= i < j < |pts| ensures pts[i].x == pts[j].x {
      SameProduct(n, pts[i].x, pts[j].x, t);
    }
  }

  /** All x values are equal exactly when each is the sum divided by the count. */
  lemma EqualMeansAverage(pts: seq<Point>)
    requires pts != []
    ensures var s := SumsOf(pts); AllXEqual(pts) <==> forall i :: 0 <= i < |pts| ==> LineAt(pts[i], -s.x, s.n) == 0.0
  {
    var s := SumsOf(pts);
    if AllXEqual(pts) {
      EqualsAreAverage(pts, pts[0].x);
      forall i | 0 <= i < |pts| ensures LineAt(pts[i], -s.x, s.n) == 0.0 {
        assert pts[i].x == pts[0].x;
      }
    } else if forall i :: 0 <= i < |pts| ==> LineAt(pts[i], -s.x, s.n) == 0.0 {
      AveragesAreEqual(pts, s.n, s.x);
    }
  }

  lemma SignOfFactor(n: real, d: real, t: real)
    requires n > 0.0 && t == Product(n, d) && t >= 0.0
    ensures d >= 0.0 && (d == 0.0 <==> t == 0.0)
  {
    if d < 0.0 {
      ScaleLess(d, 0.0, n);
    }
    if t == 0.0 {
      UnscaleEqual(d, 0.0, n);
    }
  }

  /** The denominator is never negative, and is zero exactly when all x values are equal. */
  lemma DenominatorSign(pts: seq<Point>)
    ensures SumsOf(pts).Denominator() >= 0.0
    ensures SumsOf(pts).Denominator() == 0.0 <==> AllXEqual(pts)
  {
    var s := SumsOf(pts);
    if pts != [] {
      DenominatorIsSpread(pts);
      SquaredLineNonNegative(pts, -s.x, s.n);
      SignOfFactor(s.n, s.Denominator(), Total(SquaredLine(pts, -s.x, s.n)));
      EqualMeansAverage(pts);
    } else {
      assert s == Sums(0.0, 0.0, 0.0, 0.0, 0.0);
    }
  }

  // ---- Collinear points ----

  lemma CollinearAlgebra(s: Sums, a: real, b: real)
    requires s.y == Product(a, s.n) + Product(b, s.x) + Product(0.0, s.x)
    requires s.xy == Product(a, s.x) + Product(b, s.xx) + Product(0.0, s.x)
    ensures s.n * s.xy - s.x * s.y == b * s.Denominator()
  {
    var n, sx := s.n, s.x;
    assert n * s.xy == n * (a * sx) + n * (b * s.xx);
    assert sx * s.y == sx * (a * n) + sx * (b * sx);
  }

  lemma OnLineTimesX(x: real, a: real, b: real)
    ensures Product(x, a + b * x) == a * x + b * Product(x, x)
  {
    assert x * (a + b * x) == a * x + b * (x * x);
  }

  lemma CollinearTerms(pts: seq<Point>, a: real, b: real)
    requires forall i :: 0 <= i < |pts| ==> pts[i].y == a + b * pts[i].x
    ensures IsCombination(XYs(pts), Xs(pts), XXs(pts), Xs(pts), a, b, 0.0)
  {
    forall i | 0 <= i < |pts| ensures XYs(pts)[i] == a * Xs(pts)[i] + b * XXs(pts)[i] + 0.0 * Xs(pts)[i] {
      OnLineTimesX(pts[i].x, a, b);
    }
  }

  lemma CollinearY(pts: seq<Point>, a: real, b: real)
    requires forall i :: 0 <= i < |pts| ==> pts[i].y == a + b * pts[i].x
    ensures var s := SumsOf(pts); s.y == Product(a, s.n) + Product(b, s.x) + Product(0.0, s.x)
  {
    TotalOfOnes(pts);
    Combine(Ys(pts), Ones(pts), Xs(pts), Xs(pts), a, b, 0.0);
  }

  lemma CollinearXY(pts: seq<Point>, a: real, b: real)
    requires forall i :: 0 <= i < |pts| ==> pts[i].y == a + b * pts[i].x
    ensures var s := SumsOf(pts); s.xy == Product(a, s.x) + Product(b, s.xx) + Product(0.0, s.x)
  {
    CollinearTerms(pts, a, b);
    Combine(XYs(pts), Xs(pts), XXs(pts), Xs(pts), a, b, 0.0);
  }

  lemma RecoveredBySums(s: Sums, a: real, b: real)
    requires s.n != 0.0 && s.Denominator() != 0.0 && Fits(s, a, b)
    ensures s.Slope() == b && s.Intercept() == a
  {
    ComputedLineFits(s);
    UnscaleEqual(s.Slope(), b, s.Denominator());
    UnscaleEqual(s.Intercept(), a, s.n);
  }

  /** Points on one line, not all at one x, are fitted exactly. */
  lemma CollinearPointsAreRecovered(pts: seq<Point>, a: real, b: real)
    requires !AllXEqual(pts)
    requires forall i :: 0 <= i < |pts| ==> pts[i].y == a + b * pts[i].x
    ensures SumsOf(pts).Slope() == b && SumsOf(pts).Intercept() == a
  {
    var s := SumsOf(pts);
    DenominatorSign(pts);
    assert Fits(s, a, b) by {
      CollinearY(pts, a, b);
      CollinearXY(pts, a, b);
      CollinearAlgebra(s, a, b);
    }
    RecoveredBySums(s, a, b);
  }
}
