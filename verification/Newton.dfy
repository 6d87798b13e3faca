/**
 * The standard-library-free square roots: ten Newton steps in core/automation/risk_predictor.go,
 * sixteen in core/performance/helpers.go. Over the reals; rounding is not modelled.
 */
module Newton {
  import opened Reals

  const AUTOMATION_STEPS: nat := 10
  const PERFORMANCE_STEPS: nat := 16

  function NewtonStep(x: real, z: real): real
    requires z > 0.0
  {
    z - (z * z - x) / (2.0 * z)
  }

  lemma StepPositive(x: real, z: real)
    requires x > 0.0 && z > 0.0
    ensures NewtonStep(x, z) > 0.0
  {
    var q := (z * z - x) / (2.0 * z);
    Quotient(z * z - x, 2.0 * z);
    ProductPositive(z, z, z * z);
    if z <= q {
      ScaleAtMost(z, q, 2.0 * z);
    }
  }

  /** The iterate after k steps from x/2. */
  function Iterate(x: real, k: nat): (z: real)
    requires x > 0.0
    ensures z > 0.0
  {
    if k == 0 then x / 2.0 else
      StepPositive(x, Iterate(x, k - 1));
      NewtonStep(x, Iterate(x, k - 1))
  }

  function Root(x: real, steps: nat): (r: real)
    ensures r >= 0.0 && (r == 0.0 <==> x <= 0.0)
  {
    if x <= 0.0 then 0.0 else Iterate(x, steps)
  }

  function Pow4(k: nat): (p: real)
    ensures p >= 1.0
  {
    if k == 0 then 1.0 else 4.0 * Pow4(k - 1)
  }

  /** A step's error is the square of the correction it made. */
  lemma StepError(x: real, z: real)
    requires z > 0.0
    ensures var q := (z * z - x) / (2.0 * z); NewtonStep(x, z) * NewtonStep(x, z) - x == q * q
  {
    var q := (z * z - x) / (2.0 * z);
    Quotient(z * z - x, 2.0 * z);
    assert (z - q) * (z - q) == z * z - q * (2.0 * z) + q * q;
  }

  /** A step from above the root stays above it, at least quarters the error and does not move up. */
  lemma StepShrinks(x: real, z: real)
    requires x > 0.0 && z > 0.0 && z * z >= x
    ensures NewtonStep(x, z) <= z
    ensures x <= NewtonStep(x, z) * NewtonStep(x, z)
    ensures 4.0 * (NewtonStep(x, z) * NewtonStep(x, z) - x) <= z * z - x
  {
    var q := (z * z - x) / (2.0 * z);
    Quotient(z * z - x, 2.0 * z);
    StepError(x, z);
    SquareNonNegative(q, q * q);
    QuotientBound(0.0, 2.0 * z, z * z - x);
    QuotientBound(z / 2.0, 2.0 * z, z * z - x);
    ScaleAtMost(q, z / 2.0, q);
  }

  lemma FirstStep(x: real)
    requires x > 0.0
    ensures var w := NewtonStep(x, x / 2.0); w * w - x == (x / 4.0 - 1.0) * (x / 4.0 - 1.0)
  {
    var z := x / 2.0;
    StepError(x, z);
    Quotient(z * z - x, 2.0 * z);
    UnscaleEqual((z * z - x) / (2.0 * z), x / 4.0 - 1.0, 2.0 * z);
  }

  /** z*z is at least x, and exceeds it by at most (x/4 - 1)^2 / p. */
  ghost predicate Close(x: real, z: real, p: real) {
    x <= z * z && (z * z - x) * p <= (x / 4.0 - 1.0) * (x / 4.0 - 1.0)
  }

  lemma CloserByStep(x: real, z: real, p: real)
    requires x > 0.0 && z > 0.0 && p >= 1.0 && Close(x, z, p)
    ensures Close(x, NewtonStep(x, z), 4.0 * p)
  {
    StepShrinks(x, z);
    var w := NewtonStep(x, z);
    ScaleAtMost(4.0 * (w * w - x), z * z - x, p);
    assert 4.0 * (w * w - x) * p == (w * w - x) * (4.0 * p);
  }

  lemma CloseAfterFirstStep(x: real)
    requires x > 0.0
    ensures Close(x, NewtonStep(x, x / 2.0), 1.0)
  {
    FirstStep(x);
    SquareNonNegative(x / 4.0 - 1.0, (x / 4.0 - 1.0) * (x / 4.0 - 1.0));
  }

  /** After k >= 1 steps the square never falls short of x and exceeds it by at most (x/4 - 1)^2 / 4^(k-1). */
  lemma {:induction false} IterateIsClose(x: real, k: nat)
    requires x > 0.0 && k >= 1
    ensures Close(x, Iterate(x, k), Pow4(k - 1))
  {
    if k == 1 {
      CloseAfterFirstStep(x);
      assert Iterate(x, 0) == x / 2.0;
    } else {
      IterateIsClose(x, k - 1);
      CloserByStep(x, Iterate(x, k - 1), Pow4(k - 2));
    }
  }

  /** Iterates stay positive and never increase after the first step. */
  lemma IteratesDecrease(x: real, k: nat)
    requires x > 0.0 && k >= 1
    ensures 0.0 < Iterate(x, k + 1) <= Iterate(x, k)
  {
    IterateIsClose(x, k);
    StepShrinks(x, Iterate(x, k));
  }

  lemma CloseBound(x: real, r: real, p: real)
    requires p >= 1.0 && Close(x, r, p)
    ensures x <= r * r <= x + (x / 4.0 - 1.0) * (x / 4.0 - 1.0) / p
  {
    QuotientBound(r * r - x, p, (x / 4.0 - 1.0) * (x / 4.0 - 1.0));
  }

  /** The accuracy of the root after any number of steps; the packages use ten and sixteen. */
  lemma RootAccuracy(x: real, steps: nat)
    requires x > 0.0 && steps >= 1
    ensures x <= Root(x, steps) * Root(x, steps) <= x + (x / 4.0 - 1.0) * (x / 4.0 - 1.0) / Pow4(steps - 1)
  {
    IterateIsClose(x, steps);
    CloseBound(x, Root(x, steps), Pow4(steps - 1));
  }

  lemma PowersOfFour()
    ensures Pow4(9) == 262144.0 && Pow4(15) == 1073741824.0
  {
    assert Pow4(3) == 64.0 && Pow4(6) == 4096.0;
    assert Pow4(12) == 16777216.0;
  }

  /** The two packages' accuracies, with 4^9 and 4^15 written out. */
  lemma PackageAccuracy(x: real)
    requires x > 0.0
    ensures var r := Root(x, AUTOMATION_STEPS); x <= r * r <= x + (x / 4.0 - 1.0) * (x / 4.0 - 1.0) / 262144.0
    ensures var r := Root(x, PERFORMANCE_STEPS); x <= r * r <= x + (x / 4.0 - 1.0) * (x / 4.0 - 1.0) / 1073741824.0
  {
    PowersOfFour();
    RootAccuracy(x, AUTOMATION_STEPS);
    RootAccuracy(x, PERFORMANCE_STEPS);
  }

  function Pow2(k: nat): (p: real)
    ensures p >= 1.0
  {
    if k == 0 then 1.0 else 2.0 * Pow2(k - 1)
  }

  /** A step never goes below half of where it started. */
  lemma StepHalvesAtMost(x: real, z: real)
    requires x > 0.0 && z > 0.0
    ensures 2.0 * NewtonStep(x, z) > z
  {
    QuotientBound(z / 2.0, 2.0 * z, z * z - x);
  }

  lemma FirstStepIsLarge(x: real)
    requires x > 0.0
    ensures NewtonStep(x, x / 2.0) > 1.0
  {
    var z := x / 2.0;
    Quotient(z * z - x, 2.0 * z);
    UnscaleEqual((z * z - x) / (2.0 * z), x / 4.0 - 1.0, 2.0 * z);
  }

  /** z is more than 1/p. */
  ghost predicate Exceeds(z: real, p: real) {
    Product(z, p) > 1.0
  }

  /** After k >= 1 steps an iterate is more than 1/2^(k-1), however small x is. */
  lemma {:induction false} IterateIsLarge(x: real, k: nat)
    requires x > 0.0 && k >= 1
    ensures Exceeds(Iterate(x, k), Pow2(k - 1))
  {
    if k == 1 {
      assert Iterate(x, 0) == x / 2.0;
      FirstStepIsLarge(x);
    } else {
      IterateIsLarge(x, k - 1);
      StepHalvesAtMost(x, Iterate(x, k - 1));
      Doubling(Iterate(x, k - 1), Iterate(x, k), Pow2(k - 2));
    }
  }

  lemma Doubling(z: real, w: real, p: real)
    requires Exceeds(z, p) && 2.0 * w > z && p >= 1.0
    ensures Exceeds(w, 2.0 * p)
  {
    ScaleLess(z, 2.0 * w, p);
    assert Product(2.0 * w, p) == Product(w, 2.0 * p);
  }

  /** Ten steps never return less than 1/512 for a positive argument, and zero for any other. */
  lemma SmallestRoot(x: real)
    ensures x > 0.0 ==> Exceeds(Root(x, AUTOMATION_STEPS), 512.0)
    ensures x <= 0.0 ==> Root(x, AUTOMATION_STEPS) == 0.0
  {
    if x > 0.0 {
      IterateIsLarge(x, AUTOMATION_STEPS);
      assert Pow2(3) == 8.0 && Pow2(6) == 64.0 && Pow2(9) == 512.0;
    }
  }

  /** The loop both packages run, with their own number of steps. */
  method SqrtApprox(x: real, steps: nat) returns (r: real)
    ensures r == Root(x, steps)
  {
    if x <= 0.0 {
      return 0.0;
    }
    r := x / 2.0;
    for i := 0 to steps
      invariant r == Iterate(x, i)
    {
      r := NewtonStep(x, r);
    }
  }
}
