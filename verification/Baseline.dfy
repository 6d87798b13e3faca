/**
 * The behavioural baseline (core/automation/baseline_engine.go): Welford's running mean and sum of
 * squared deviations, and the z-scores taken against them. Over the reals; rounding is not modelled.
 */
module Baseline {
  import opened Reals
  import opened Newton

  const LEARNING_SAMPLES: nat := 2880
  const ALERT_THRESHOLD := 3.0
  const CONSTANT_BELOW := 0.001
  const MAX_SCORE := 100.0

  // ---- Batch statistics ----

  function Sum(xs: seq<real>): real {
    if xs == [] then 0.0 else Sum(xs[..|xs| - 1]) + xs[|xs| - 1]
  }

  function BatchMean(xs: seq<real>): real {
    if xs == [] then 0.0 else Sum(xs) / |xs| as real
  }

  /** The sum of squared deviations from c. */
  function Deviations(xs: seq<real>, c: real): real {
    if xs == [] then 0.0 else Deviations(xs[..|xs| - 1], c) + Squared(xs[|xs| - 1] - c)
  }

  function BatchM2(xs: seq<real>): real {
    Deviations(xs, BatchMean(xs))
  }

  lemma {:induction false} DeviationsNonNegative(xs: seq<real>, c: real)
    ensures Deviations(xs, c) >= 0.0
  {
    if xs != [] {
      DeviationsNonNegative(xs[..|xs| - 1], c);
      SquareNonNegative(xs[|xs| - 1] - c, (xs[|xs| - 1] - c) * (xs[|xs| - 1] - c));
    }
  }

  /** What moving the centre from d to c adds, for n values of sum s. */
  function Shift(c: real, d: real, s: real, n: real): real {
    2.0 * (d - c) * (s - n * d) + n * ((d - c) * (d - c))
  }

  lemma ShiftStep(x: real, c: real, d: real, s: real, n: real, s1: real, n1: real)
    requires s1 == s + x && n1 == n + 1.0
    ensures Squared(x - c) + Shift(c, d, s, n) == Squared(x - d) + Shift(c, d, s1, n1)
  {
    var e := d - c;
    assert x - c == (x - d) + e;
    assert (x - c) * (x - c) == (x - d) * (x - d) + 2.0 * e * (x - d) + e * e;
    assert s1 - n1 * d == (s - n * d) + (x - d);
    assert 2.0 * e * ((s - n * d) + (x - d)) == 2.0 * e * (s - n * d) + 2.0 * e * (x - d);
  }

  /** From the deviations of all but the last value to those of all: a sum of equations. */
  lemma AddLast(c0: real, d0: real, u: real, v: real, shift0: real, shift: real)
    requires c0 == d0 + shift0 && u + shift0 == v + shift
    ensures c0 + u == d0 + v + shift
  {
  }

  /** Moving the centre of the squared deviations. */
  lemma {:induction false} ShiftCentre(xs: seq<real>, c: real, d: real)
    ensures Deviations(xs, c) == Deviations(xs, d) + Shift(c, d, Sum(xs), |xs| as real)
  {
    if xs != [] {
      var init, x := xs[..|xs| - 1], xs[|xs| - 1];
      ShiftCentre(init, c, d);
      ShiftStep(x, c, d, Sum(init), |init| as real, Sum(xs), |xs| as real);
      AddLast(Deviations(init, c), Deviations(init, d), Squared(x - c), Squared(x - d),
              Shift(c, d, Sum(init), |init| as real), Shift(c, d, Sum(xs), |xs| as real));
    }
  }

  // ---- Welford ----

  /** One update of the running mean. */
  function MeanStep(mean: real, v: real, n: nat): real
    requires n > 0
  {
    mean + (v - mean) / n as real
  }

  /** One update of the running sum of squared deviations. */
  function M2Step(m2: real, mean: real, v: real, n: nat): real
    requires n > 0
  {
    m2 + (v - mean) * (v - MeanStep(mean, v, n))
  }

  /** With d = (v - mean)/N, everything in the update is a multiple of d. */
  lemma StepInUnits(mean: real, v: real, n: nat) returns (d: real)
    requires n > 0
    ensures v - mean == n as real * d
    ensures MeanStep(mean, v, n) - mean == d
    ensures v - MeanStep(mean, v, n) == (n as real - 1.0) * d
  {
    d := (v - mean) / n as real;
    Quotient(v - mean, n as real);
  }

  lemma MeanStepIsBatch(xs: seq<real>, v: real)
    ensures MeanStep(BatchMean(xs), v, |xs| + 1) == BatchMean(xs + [v])
  {
    var n, m := |xs| as real, BatchMean(xs);
    assert (xs + [v])[..|xs|] == xs;
    assert m * n == Sum(xs) by {
      if xs != [] {
        Quotient(Sum(xs), n);
      }
    }
    Quotient(v - m, n + 1.0);
    Quotient(Sum(xs) + v, n + 1.0);
    UnscaleEqual(MeanStep(m, v, |xs| + 1), (Sum(xs) + v) / (n + 1.0), n + 1.0);
  }

  /** The update of the squared deviations, against moving the centre and adding the new deviation. */
  lemma M2Algebra(m2: real, m: real, v: real, k: nat, s: real, n: real, sq: real)
    requires k > 0 && n == k as real - 1.0 && s == n * m
    requires sq == (v - MeanStep(m, v, k)) * (v - MeanStep(m, v, k))
    ensures var m' := MeanStep(m, v, k);
            M2Step(m2, m, v, k) == m2 + Shift(m', m, s, n) + sq
  {
    var m' := MeanStep(m, v, k);
    var d := StepInUnits(m, v, k);
    assert m - m' == -d;
    assert Shift(m', m, s, n) == n * (d * d);
    assert (v - m') * (v - m') == n * (n * (d * d));
    assert (v - m) * (v - m') == (n + 1.0) * (n * (d * d));
  }

  lemma SumIsMeanTimesCount(xs: seq<real>)
    ensures Sum(xs) == |xs| as real * BatchMean(xs)
  {
    if xs != [] {
      Quotient(Sum(xs), |xs| as real);
    }
  }

  lemma DeviationsAppend(xs: seq<real>, v: real, c: real) returns (sq: real)
    ensures sq == (v - c) * (v - c)
    ensures Deviations(xs + [v], c) == Deviations(xs, c) + sq
  {
    sq := (v - c) * (v - c);
    assert (xs + [v])[..|xs|] == xs;
  }

  /** What moving the centre from the old mean to the new one adds. */
  ghost function MeanShift(xs: seq<real>, v: real): real {
    Shift(BatchMean(xs + [v]), BatchMean(xs), Sum(xs), |xs| as real)
  }

  lemma M2StepExpanded(xs: seq<real>, v: real, sq: real)
    requires sq == (v - BatchMean(xs + [v])) * (v - BatchMean(xs + [v]))
    ensures M2Step(BatchM2(xs), BatchMean(xs), v, |xs| + 1) == BatchM2(xs) + MeanShift(xs, v) + sq
  {
    MeanStepIsBatch(xs, v);
    SumIsMeanTimesCount(xs);
    M2Algebra(BatchM2(xs), BatchMean(xs), v, |xs| + 1, Sum(xs), |xs| as real, sq);
  }

  lemma BatchM2Expanded(xs: seq<real>, v: real) returns (sq: real)
    ensures sq == (v - BatchMean(xs + [v])) * (v - BatchMean(xs + [v]))
    ensures BatchM2(xs + [v]) == BatchM2(xs) + MeanShift(xs, v) + sq
  {
    sq := DeviationsAppend(xs, v, BatchMean(xs + [v]));
    ShiftCentre(xs, BatchMean(xs + [v]), BatchMean(xs));
  }

  /** The update of the squared deviations is exact. */
  lemma M2StepIsBatch(xs: seq<real>, v: real)
    ensures M2Step(BatchM2(xs), BatchMean(xs), v, |xs| + 1) == BatchM2(xs + [v])
  {
    var sq := BatchM2Expanded(xs, v);
    M2StepExpanded(xs, v, sq);
  }

  // ---- z-scores ----

  /** The squared z-score of v, or zero for a metric that does not vary. */
  function ZSquared(v: real, mean: real, m2: real, n: nat): real
    requires n >= 2
  {
    var stddev := Root(m2 / (n as real - 1.0), AUTOMATION_STEPS);
    if stddev < CONSTANT_BELOW then 0.0 else ((v - mean) / stddev) * ((v - mean) / stddev)
  }

  /** The deviation's share of the squared deviations of n values. */
  ghost predicate SmallDeviation(dev: real, m2: real, n: real) {
    dev * dev * n <= m2 * (n - 1.0)
  }

  /** The newest value's share of the squared deviations. */
  lemma NewestAlgebra(m2: real, m: real, v: real, k: nat, n: real, dev: real)
    requires k > 0 && m2 >= 0.0 && n == k as real - 1.0 && dev == v - MeanStep(m, v, k)
    ensures SmallDeviation(dev, M2Step(m2, m, v, k), k as real)
  {
    var d := StepInUnits(m, v, k);
    var x := d * d;
    assert dev * dev == n * (n * x);
    assert (v - m) * dev == (n + 1.0) * (n * x);
    ScaleAtMost(0.0, m2, n);
    assert M2Step(m2, m, v, k) * n == m2 * n + (n + 1.0) * (n * x) * n;
    assert dev * dev * (n + 1.0) == (n + 1.0) * (n * x) * n;
  }

  lemma NewestDeviation(xs: seq<real>, v: real)
    ensures SmallDeviation(v - BatchMean(xs + [v]), BatchM2(xs + [v]), (|xs| + 1) as real)
  {
    MeanStepIsBatch(xs, v);
    M2StepIsBatch(xs, v);
    DeviationsNonNegative(xs, BatchMean(xs));
    NewestAlgebra(BatchM2(xs), BatchMean(xs), v, |xs| + 1, |xs| as real, v - BatchMean(xs + [v]));
  }

  /** z^2 n <= (n - 1)^2. */
  ghost predicate SmallZ(zSquared: real, n: real) {
    zSquared * n <= (n - 1.0) * (n - 1.0)
  }

  /** From the deviation bound to the z-score bound, for a divisor whose square is at least the variance. */
  lemma ScaledDeviation(dev: real, r: real, m2: real, n: real, z: real)
    requires n >= 2.0 && r > 0.0 && m2 / (n - 1.0) <= r * r && SmallDeviation(dev, m2, n) && z == dev / r
    ensures SmallZ(z * z, n)
  {
    var q := r * r;
    ProductPositive(r, r, q);
    var p, w := n - 1.0, z * z;
    Quotient(dev, r);
    assert dev * dev == w * q by {
      assert dev == z * r;
      assert (z * r) * (z * r) == z * z * (r * r);
    }
    QuotientBound(q, p, m2);
    ScaleAtMost(m2, q * p, p);
    CancelFactor(w, n, p, q, m2);
  }

  lemma CancelFactor(w: real, n: real, p: real, q: real, m2: real)
    requires w * q * n <= m2 * p && m2 * p <= q * p * p && q > 0.0
    ensures w * n <= p * p
  {
    assert (w * n) * q == w * q * n;
    assert (p * p) * q == q * p * p;
    Unscale(w * n, p * p, q);
  }

  /** Because the scored sample is folded in first, its z-score satisfies z^2 n <= (n - 1)^2. */
  lemma ZBound(xs: seq<real>, v: real)
    requires xs != []
    ensures SmallZ(ZSquared(v, BatchMean(xs + [v]), BatchM2(xs + [v]), |xs| + 1), (|xs| + 1) as real)
  {
    NewestDeviation(xs, v);
    ZBoundAt(v, BatchMean(xs + [v]), BatchM2(xs + [v]), |xs| + 1);
  }

  lemma ZeroIsSmall(n: real)
    ensures SmallZ(0.0, n)
  {
    SquareNonNegative(n - 1.0, (n - 1.0) * (n - 1.0));
  }

  lemma RootCoversVariance(x: real, r: real)
    requires r == Root(x, AUTOMATION_STEPS) && r > 0.0
    ensures x <= r * r
  {
    IterateIsClose(x, AUTOMATION_STEPS);
  }

  lemma ZBoundAt(v: real, mean: real, m2: real, n: nat)
    requires n >= 2 && SmallDeviation(v - mean, m2, n as real)
    ensures SmallZ(ZSquared(v, mean, m2, n), n as real)
  {
    var x := m2 / (n as real - 1.0);
    var r := Root(x, AUTOMATION_STEPS);
    if r < CONSTANT_BELOW {
      ZeroIsSmall(n as real);
    } else {
      RootCoversVariance(x, r);
      var z := (v - mean) / r;
      ScaledDeviation(v - mean, r, m2, n as real, z);
    }
  }

  lemma {:induction false} NoDeviation(xs: seq<real>, c: real)
    ensures Deviations(xs, c) == 0.0 <==> forall i :: 0 <= i < |xs| ==> xs[i] == c
  {
    if xs != [] {
      var init, d := xs[..|xs| - 1], xs[|xs| - 1] - c;
      NoDeviation(init, c);
      DeviationsNonNegative(init, c);
      SquareNonNegative(d, d * d);
      if d * d == 0.0 {
        SquareZero(d);
      }
    }
  }

  ghost predicate AllEqual(xs: seq<real>) {
    forall i :: 0 <= i < |xs| ==> xs[i] == xs[0]
  }

  lemma {:induction false} SumOfEquals(xs: seq<real>, c: real)
    requires forall i :: 0 <= i < |xs| ==> xs[i] == c
    ensures Sum(xs) == |xs| as real * c
  {
    if xs != [] {
      SumOfEquals(xs[..|xs| - 1], c);
    }
  }

  /** The batch deviations vanish exactly when all values are equal. */
  lemma NoVariation(xs: seq<real>)
    requires xs != []
    ensures BatchM2(xs) == 0.0 <==> AllEqual(xs)
  {
    NoDeviation(xs, BatchMean(xs));
    if AllEqual(xs) {
      SumOfEquals(xs, xs[0]);
      Quotient(Sum(xs), |xs| as real);
      UnscaleEqual(BatchMean(xs), xs[0], |xs| as real);
    }
  }

  /**
   * The guard for constant metrics skips exactly those whose values were all equal: for any other, ten Newton
   * steps return more than 1/512, which is above the threshold.
   */
  lemma OnlyConstantMetricsAreSkipped(xs: seq<real>)
    requires |xs| >= 2
    ensures Root(BatchM2(xs) / (|xs| as real - 1.0), AUTOMATION_STEPS) < CONSTANT_BELOW <==> AllEqual(xs)
  {
    var m2, n1 := BatchM2(xs), |xs| as real - 1.0;
    DeviationsNonNegative(xs, BatchMean(xs));
    NoVariation(xs);
    QuotientBound(0.0, n1, m2);
    SmallestRoot(m2 / n1);
  }

  // ---- The engine ----

  datatype Metric = NamespaceCount | RtProcCount | ThreatScore | FirewallRuleCount | CgroupCount

  const METRICS: seq<Metric> := [NamespaceCount, RtProcCount, ThreatScore, FirewallRuleCount, CgroupCount]
  const METRIC_COUNT := 5.0

  datatype Sample = Sample(
    namespaceCount: real,
    rtProcCount: real,
    threatScore: real,
    firewallRuleCount: real,
    cgroupCount: real) {
    function Value(k: Metric): real {
      match k
      case NamespaceCount => namespaceCount
      case RtProcCount => rtProcCount
      case ThreatScore => threatScore
      case FirewallRuleCount => firewallRuleCount
      case CgroupCount => cgroupCount
    }
  }

  datatype Phase = Learning | Active | Locked

  function Get(m: map<Metric, real>, k: Metric): real {
    if k in m then m[k] else 0.0
  }

  /** One metric's values over a history of samples. */
  function Column(samples: seq<Sample>, k: Metric): seq<real> {
    seq(|samples|, i requires 0 <= i < |samples| => samples[i].Value(k))
  }

  lemma AllMetrics(k: Metric)
    ensures k in METRICS
  {
    match k {
      case NamespaceCount => assert METRICS[0] == k;
      case RtProcCount => assert METRICS[1] == k;
      case ThreatScore => assert METRICS[2] == k;
      case FirewallRuleCount => assert METRICS[3] == k;
      case CgroupCount => assert METRICS[4] == k;
    }
  }

  /** Welford's step for one metric. */
  method Welford(mean: real, m2: real, v: real, n: nat) returns (mean': real, m2': real)
    requires n > 0
    ensures mean' == MeanStep(mean, v, n) && m2' == M2Step(m2, mean, v, n)
  {
    mean' := mean + (v - mean) / n as real;
    m2' := m2 + (v - mean) * (v - mean');
  }

  /** The z-score of one metric, squared; a metric that does not vary has none. */
  method ScoreMetric(v: real, mean: real, m2: real, n: nat) returns (zSquared: real)
    requires n >= 2
    ensures zSquared == ZSquared(v, mean, m2, n)
  {
    var stddev := SqrtApprox(m2 / (n as real - 1.0), AUTOMATION_STEPS);
    if stddev < CONSTANT_BELOW {
      return 0.0;
    }
    var z := (v - mean) / stddev;
    zSquared := z * z;
  }

  /** The loop over the metrics: each one's mean and squared deviations take one Welford step. */
  method UpdateAll(mean: map<Metric, real>, m2: map<Metric, real>, sample: Sample, n: nat)
    returns (mean': map<Metric, real>, m2': map<Metric, real>)
    requires n > 0
    ensures forall k :: Get(mean', k) == MeanStep(Get(mean, k), sample.Value(k), n)
    ensures forall k :: Get(m2', k) == M2Step(Get(m2, k), Get(mean, k), sample.Value(k), n)
  {
    mean', m2' := mean, m2;
    for i := 0 to |METRICS|
      invariant forall k ::
        Get(mean', k) == if k in METRICS[..i] then MeanStep(Get(mean, k), sample.Value(k), n) else Get(mean, k)
      invariant forall k ::
        Get(m2', k) == if k in METRICS[..i] then M2Step(Get(m2, k), Get(mean, k), sample.Value(k), n) else Get(m2, k)
    {
      var k := METRICS[i];
      assert k !in METRICS[..i];
      var newMean, newM2 := Welford(Get(mean', k), Get(m2', k), sample.Value(k), n);
      mean', m2' := mean'[k := newMean], m2'[k := newM2];
    }
    assert METRICS[..|METRICS|] == METRICS;
    forall k ensures k in METRICS {
      AllMetrics(k);
    }
  }

  /** The squared z-score of the newest sample against the batch statistics of all of them. */
  ghost function NewestZ(samples: seq<Sample>, k: Metric): real
    requires |samples| >= 2
  {
    var xs := Column(samples, k);
    ZSquared(xs[|xs| - 1], BatchMean(xs), BatchM2(xs), |samples|)
  }

  /** The sum of these over the metrics. */
  ghost function BatchZSum(samples: seq<Sample>, metrics: seq<Metric>): real
    requires |samples| >= 2
  {
    if metrics == [] then 0.0
    else BatchZSum(samples, metrics[..|metrics| - 1]) + NewestZ(samples, metrics[|metrics| - 1])
  }

  /** The anomaly score by batch statistics: the root mean square of the z-scores, at most 100. */
  ghost function BatchScore(samples: seq<Sample>): real {
    if |samples| < 2 then 0.0
    else Capped(BatchZSum(samples, METRICS) / METRIC_COUNT)
  }

  /** The sum of `count` squared z-scores of n samples is as small as each of them allows. */
  ghost predicate SmallZSum(sum: real, n: real, count: real) {
    sum * n <= count * ((n - 1.0) * (n - 1.0))
  }

  lemma {:induction false} ZSumIsSmall(samples: seq<Sample>, metrics: seq<Metric>)
    requires |samples| >= 2
    ensures BatchZSum(samples, metrics) >= 0.0
    ensures SmallZSum(BatchZSum(samples, metrics), |samples| as real, |metrics| as real)
  {
    if metrics != [] {
      var init, k := metrics[..|metrics| - 1], metrics[|metrics| - 1];
      ZSumIsSmall(samples, init);
      NewestZIsSmall(samples, k);
      AddZ(BatchZSum(samples, init), NewestZ(samples, k), |samples| as real, |init| as real);
      assert |metrics| as real == |init| as real + 1.0;
    }
  }

  lemma NewestZIsSmall(samples: seq<Sample>, k: Metric)
    requires |samples| >= 2
    ensures NewestZ(samples, k) >= 0.0 && SmallZ(NewestZ(samples, k), |samples| as real)
  {
    var xs := Column(samples, k);
    var init, v := xs[..|xs| - 1], xs[|xs| - 1];
    assert xs == init + [v];
    ZBound(init, v);
    ZIsNonNegative(v, BatchMean(xs), BatchM2(xs), |samples|);
  }

  lemma ZIsNonNegative(v: real, mean: real, m2: real, n: nat)
    requires n >= 2
    ensures ZSquared(v, mean, m2, n) >= 0.0
  {
    var stddev := Root(m2 / (n as real - 1.0), AUTOMATION_STEPS);
    if stddev >= CONSTANT_BELOW {
      var z := (v - mean) / stddev;
      SquareNonNegative(z, z * z);
    }
  }

  lemma AddZ(sum: real, z: real, n: real, count: real)
    requires SmallZSum(sum, n, count) && SmallZ(z, n)
    ensures SmallZSum(sum + z, n, count + 1.0)
  {
    var q := (n - 1.0) * (n - 1.0);
    assert (sum + z) * n == sum * n + z * n;
    assert (count + 1.0) * q == count * q + q;
  }

  lemma MeanZIsSmall(sum: real, n: real)
    requires SmallZSum(sum, n, 5.0)
    ensures SmallZ(sum / 5.0, n)
  {
    assert sum * n == 5.0 * ((sum / 5.0) * n);
  }

  /** A score that is a root, or the largest score if that is less, is no larger than the root. */
  lemma CappedSquare(rms: real, score: real, bound: real)
    requires 0.0 <= score <= rms && rms * rms <= bound
    ensures score * score <= bound
  {
    ScaleAtMost(score, rms, score);
    ScaleAtMost(score, rms, rms);
  }

  /** The square of the root of s is at most this. */
  function RootBound(s: real): real {
    s + (s / 4.0 - 1.0) * (s / 4.0 - 1.0) / 262144.0
  }

  /**
   * The score is bounded by the number of samples alone: its square is at most the mean squared z-score s and
   * the root's error, and s is at most (n-1)^2/n.
   */
  lemma ScoreIsBounded(samples: seq<Sample>)
    requires |samples| >= 2
    ensures var s := BatchZSum(samples, METRICS) / METRIC_COUNT;
            && 0.0 <= s && SmallZ(s, |samples| as real)
            && 0.0 <= BatchScore(samples) <= MAX_SCORE
            && Squared(BatchScore(samples)) <= RootBound(s)
  {
    FiveZsAreBounded(samples, METRICS);
  }

  lemma FiveZsAreBounded(samples: seq<Sample>, metrics: seq<Metric>)
    requires |samples| >= 2 && |metrics| == 5
    ensures var s := BatchZSum(samples, metrics) / 5.0;
            && 0.0 <= s && SmallZ(s, |samples| as real)
            && 0.0 <= Capped(s) <= MAX_SCORE && Squared(Capped(s)) <= RootBound(s)
  {
    var sum := BatchZSum(samples, metrics);
    ZSumIsSmall(samples, metrics);
    MeanZIsSmall(sum, |samples| as real);
    CappedRoot(sum / 5.0);
  }

  /** The root, at most the largest score. */
  function Capped(s: real): real {
    if Root(s, AUTOMATION_STEPS) > MAX_SCORE then MAX_SCORE else Root(s, AUTOMATION_STEPS)
  }

  lemma CappedRoot(s: real)
    requires s >= 0.0
    ensures 0.0 <= Capped(s) <= MAX_SCORE && Squared(Capped(s)) <= RootBound(s)
  {
    RootIsBounded(s);
    CappedSquare(Root(s, AUTOMATION_STEPS), Capped(s), RootBound(s));
  }

  lemma RootIsBounded(s: real)
    requires s >= 0.0
    ensures Root(s, AUTOMATION_STEPS) * Root(s, AUTOMATION_STEPS) <= RootBound(s)
  {
    if s > 0.0 {
      PackageAccuracy(s);
    }
  }

  // ---- What raises the alert ----

  function Variance(xs: seq<real>): real
    requires |xs| >= 2
  {
    BatchM2(xs) / (|xs| as real - 1.0)
  }

  /** Dividing by a root no larger than its bound. */
  lemma DividedByRoot(dev: real, r: real, bound: real, z: real)
    requires r > 0.0 && r * r <= bound && z == dev / r
    ensures Squared(dev) <= Product(z * z, bound)
  {
    Quotient(dev, r);
    assert dev * dev == (z * z) * (r * r) by {
      assert dev == z * r;
      assert (z * r) * (z * r) == z * z * (r * r);
    }
    SquareNonNegative(z, z * z);
    assert (z * z) * (r * r) <= (z * z) * bound;
  }

  /** A metric that varies has at least the z-score that the root's largest value gives. */
  lemma ZIsLargeEnough(xs: seq<real>)
    requires |xs| >= 2 && !AllEqual(xs)
    ensures var dev := xs[|xs| - 1] - BatchMean(xs);
            Squared(dev) <= Product(ZSquared(xs[|xs| - 1], BatchMean(xs), BatchM2(xs), |xs|), RootBound(Variance(xs)))
  {
    var r := Root(Variance(xs), AUTOMATION_STEPS);
    OnlyConstantMetricsAreSkipped(xs);
    DeviationsNonNegative(xs, BatchMean(xs));
    QuotientBound(0.0, |xs| as real - 1.0, BatchM2(xs));
    RootIsBounded(Variance(xs));
    var dev := xs[|xs| - 1] - BatchMean(xs);
    DividedByRoot(dev, r, RootBound(Variance(xs)), dev / r);
  }

  lemma {:induction false} SumHoldsPart(samples: seq<Sample>, metrics: seq<Metric>, k: Metric)
    requires |samples| >= 2 && k in metrics
    ensures BatchZSum(samples, metrics) >= NewestZ(samples, k)
  {
    var init, last := metrics[..|metrics| - 1], metrics[|metrics| - 1];
    NewestZIsSmall(samples, last);
    if k in init {
      SumHoldsPart(samples, init, k);
    } else {
      ZSumIsSmall(samples, init);
    }
  }

  /** The root of a number is at least the threshold if the number is at least its square. */
  lemma RootReaches(s: real, t: real)
    requires 0.0 < t <= MAX_SCORE && s >= t * t
    ensures Capped(s) >= t
  {
    ProductPositive(t, t, t * t);
    var r := Root(s, AUTOMATION_STEPS);
    SmallestRoot(s);
    RootCoversVariance(s, r);
    if r < t {
      ScaleAtMost(r, t, r);
      ScaleLess(r, t, t);
    }
  }

  /** Far out in this metric: no other matters. The factor is five metrics times the square of the threshold. */
  ghost predicate FarOut(samples: seq<Sample>, k: Metric)
    requires |samples| >= 2
  {
    var xs := Column(samples, k);
    && !AllEqual(xs)
    && Squared(xs[|xs| - 1] - BatchMean(xs)) >= Product(45.0, RootBound(Variance(xs)))
  }

  /** A sample far enough out in one metric scores high enough to raise the alert. */
  lemma FarOutRaisesAlert(samples: seq<Sample>, k: Metric)
    requires |samples| >= 2 && FarOut(samples, k)
    ensures BatchScore(samples) >= ALERT_THRESHOLD
  {
    var xs := Column(samples, k);
    ZIsLargeEnough(xs);
    VariancePositive(xs);
    ProductsCompare(45.0, NewestZ(samples, k), RootBound(Variance(xs)));
    AllMetrics(k);
    SumHoldsPart(samples, METRICS, k);
    RootReaches(BatchZSum(samples, METRICS) / METRIC_COUNT, ALERT_THRESHOLD);
  }

  lemma ProductsCompare(a: real, b: real, c: real)
    requires Product(a, c) <= Product(b, c) && c > 0.0
    ensures a <= b
  {
    Unscale(a, b, c);
  }

  lemma VariancePositive(xs: seq<real>)
    requires |xs| >= 2 && !AllEqual(xs)
    ensures RootBound(Variance(xs)) > 0.0
  {
    var s := Variance(xs);
    OnlyConstantMetricsAreSkipped(xs);
    SmallestRoot(s);
    SquareNonNegative(s / 4.0 - 1.0, (s / 4.0 - 1.0) * (s / 4.0 - 1.0));
  }

  class BaselineEngine {
    var phase: Phase
    var samples: nat
    var mean: map<Metric, real>
    var m2: map<Metric, real>
    /** Every sample since the last reset. */
    ghost var seen: seq<Sample>

    /** The running statistics are the batch statistics of everything seen, in every phase. */
    ghost predicate Valid()
      reads this
    {
      && samples == |seen|
      && forall k :: Get(mean, k) == BatchMean(Column(seen, k)) && Get(m2, k) == BatchM2(Column(seen, k))
    }

    constructor ()
      ensures Valid() && seen == [] && phase == Learning
    {
      phase, samples, mean, m2, seen := Learning, 0, map[], map[], [];
    }

    method Reset()
      modifies this
      ensures Valid() && seen == [] && phase == Learning
    {
      phase, samples, mean, m2, seen := Learning, 0, map[], map[], [];
    }

    method Lock()
      requires Valid()
      modifies `phase
      ensures Valid() && phase == if old(phase) == Active then Locked else old(phase)
    {
      if phase == Active {
        phase := Locked;
      }
    }

    method Unlock()
      requires Valid()
      modifies `phase
      ensures Valid() && phase == if old(phase) == Locked then Active else old(phase)
    {
      if phase == Locked {
        phase := Active;
      }
    }

    /** Welford's update of every metric. */
    method Accumulate(sample: Sample)
      requires Valid()
      modifies `samples, `mean, `m2, `seen
      ensures Valid() && seen == old(seen) + [sample]
    {
      samples := samples + 1;
      mean, m2 := UpdateAll(mean, m2, sample, samples);
      forall k
        ensures var xs := Column(seen + [sample], k); Get(mean, k) == BatchMean(xs) && Get(m2, k) == BatchM2(xs)
      {
        assert Column(seen + [sample], k) == Column(seen, k) + [sample.Value(k)];
        MeanStepIsBatch(Column(seen, k), sample.Value(k));
        M2StepIsBatch(Column(seen, k), sample.Value(k));
      }
      seen := seen + [sample];
    }

    /** The root mean square of the z-scores of the newest sample. */
    method AnomalyScore(sample: Sample) returns (score: real)
      requires Valid() && seen != [] && seen[|seen| - 1] == sample
      ensures score == BatchScore(seen)
    {
      if samples < 2 {
        return 0.0;
      }
      var sumSq := 0.0;
      for i := 0 to |METRICS|
        invariant sumSq == BatchZSum(seen, METRICS[..i])
      {
        assert METRICS[..i + 1][..i] == METRICS[..i];
        var k := METRICS[i];
        var zSquared := ScoreMetric(sample.Value(k), Get(mean, k), Get(m2, k), samples);
        sumSq := sumSq + zSquared;
      }
      assert METRICS[..|METRICS|] == METRICS;
      score := SqrtApprox(sumSq / METRIC_COUNT, AUTOMATION_STEPS);
      if score > MAX_SCORE {
        score := MAX_SCORE;
      }
    }

    /** Folds a sample in, whatever the phase, and scores it once learning is over. */
    method Observe(sample: Sample) returns (score: real, alert: bool)
      requires Valid()
      modifies this
      ensures Valid() && seen == old(seen) + [sample]
      ensures phase == if old(phase) == Learning && |seen| >= LEARNING_SAMPLES then Active else old(phase)
      ensures score == if phase == Learning then 0.0 else BatchScore(seen)
      ensures alert <==> phase != Learning && score >= ALERT_THRESHOLD
    {
      Accumulate(sample);
      if phase == Learning && samples >= LEARNING_SAMPLES {
        phase := Active;
      }
      if phase == Learning {
        return 0.0, false;
      }
      score := AnomalyScore(sample);
      alert := score >= ALERT_THRESHOLD;
    }
  }
}
