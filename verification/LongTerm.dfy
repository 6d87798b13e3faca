/**
 * The 24-hour ring of 5-minute score buckets and the trend computed from it
 * (core/automation/longterm_projection.go). Times are in nanoseconds; scores are reals.
 */
module LongTerm {
  import opened Reals
  import opened Regression

  const BUCKET := 300_000_000_000
  const HISTORY: nat := 288
  const WINDOW: nat := 24
  const MINUTES_PER_BUCKET := 5.0

  datatype Bucket = Bucket(sum: real, count: nat, at: int)

  const EMPTY_BUCKET := Bucket(0.0, 0, 0)

  datatype Trend = Trend(slope: real, momentum: real, currentScore: real, projection2h: real, sampleCount: nat)

  /** Go's integer division truncates toward zero. */
  function TruncatedQuotient(a: int, b: int): int
    requires b > 0
  {
    if a >= 0 then a / b else -((-a) / b)
  }

  function BucketStart(t: int): (s: int)
    ensures s % BUCKET == 0
    ensures t >= 0 ==> s <= t < s + BUCKET
  {
    TruncatedQuotient(t, BUCKET) * BUCKET
  }

  // ---- What was observed ----

  /** A score and the start of the 5-minute slot it was observed in. */
  datatype Observation = Observation(slot: int, score: real)

  function SlotSum(log: seq<Observation>, slot: int): real {
    if log == [] then 0.0
    else SlotSum(log[..|log| - 1], slot) + (if log[|log| - 1].slot == slot then log[|log| - 1].score else 0.0)
  }

  function SlotCount(log: seq<Observation>, slot: int): nat {
    if log == [] then 0
    else SlotCount(log[..|log| - 1], slot) + (if log[|log| - 1].slot == slot then 1 else 0)
  }

  lemma SlotAppend(log: seq<Observation>, o: Observation, slot: int)
    ensures SlotSum(log + [o], slot) == SlotSum(log, slot) + (if o.slot == slot then o.score else 0.0)
    ensures SlotCount(log + [o], slot) == SlotCount(log, slot) + (if o.slot == slot then 1 else 0)
  {
    assert (log + [o])[..|log|] == log;
  }

  lemma {:induction false} EmptySlot(log: seq<Observation>, slot: int)
    requires forall i :: 0 <= i < |log| ==> log[i].slot != slot
    ensures SlotSum(log, slot) == 0.0 && SlotCount(log, slot) == 0
  {
    if log != [] {
      EmptySlot(log[..|log| - 1], slot);
    }
  }

  /** The averages of the non-empty slots among the n newest, newest first; x is in minutes, the past negative. */
  function SlotPoints(log: seq<Observation>, newest: int, n: nat): seq<Point> {
    if n == 0 then []
    else
      var slot := newest - (n - 1) * BUCKET;
      SlotPoints(log, newest, n - 1) +
      (if SlotCount(log, slot) == 0 then []
       else [Point((-(n - 1)) as real * MINUTES_PER_BUCKET, SlotSum(log, slot) / SlotCount(log, slot) as real)])
  }

  /** The regression's points: the non-empty slots of the last two hours, and the current score. */
  function TrendPoints(log: seq<Observation>, newest: int, score: real): seq<Point> {
    SlotPoints(log, newest, WINDOW) + [Point(0.0, score)]
  }

  /** Slots before any observation add no points. */
  lemma {:induction false} EarlySlotsAddNothing(log: seq<Observation>, newest: int, m: nat, n: nat)
    requires m <= n
    requires forall i :: 0 <= i < |log| ==> log[i].slot > newest - m * BUCKET
    ensures SlotPoints(log, newest, n) == SlotPoints(log, newest, m)
  {
    if m < n {
      EarlySlotsAddNothing(log, newest, m, n - 1);
      EmptySlot(log, newest - (n - 1) * BUCKET);
    }
  }

  function TrendOf(pts: seq<Point>, score: real): Trend {
    if |pts| < 2 then Trend(0.0, 0.0, score, 0.0, |pts|)
    else
      var slope := SumsOf(pts).Slope();
      var ahead := score + slope * 120.0;
      var projected := if ahead < 0.0 then 0.0 else if ahead > 100.0 then 100.0 else ahead;
      Trend(slope, Product(slope, score / 100.0), score, projected, |pts|)
  }

  // ---- Where the trend is determined ----

  lemma {:induction false} PointsAreOlder(log: seq<Observation>, newest: int, n: nat)
    ensures forall p :: p in SlotPoints(log, newest, n) ==> p.x <= 0.0
    ensures (exists p :: p in SlotPoints(log, newest, n) && p.x != 0.0)
       <==> (exists lag :: 1 <= lag < n && SlotCount(log, newest - lag * BUCKET) > 0)
  {
    if n > 0 {
      PointsAreOlder(log, newest, n - 1);
      var rest, slot := SlotPoints(log, newest, n - 1), newest - (n - 1) * BUCKET;
      var all := SlotPoints(log, newest, n);
      if exists lag :: 1 <= lag < n && SlotCount(log, newest - lag * BUCKET) > 0 {
        var lag :| 1 <= lag < n && SlotCount(log, newest - lag * BUCKET) > 0;
        if lag == n - 1 {
          var p := all[|all| - 1];
          assert p in all && p.x != 0.0;
        } else {
          var p :| p in rest && p.x != 0.0;
          assert p in all;
        }
      }
      if exists p :: p in all && p.x != 0.0 {
        var p :| p in all && p.x != 0.0;
        if p in rest {
          var lag :| 1 <= lag < n - 1 && SlotCount(log, newest - lag * BUCKET) > 0;
        } else {
          assert SlotCount(log, newest - (n - 1) * BUCKET) > 0;
        }
      }
    }
  }

  /** An earlier slot of the last two hours has data. */
  ghost predicate EarlierData(log: seq<Observation>, newest: int) {
    exists lag :: 1 <= lag < WINDOW && SlotCount(log, newest - lag * BUCKET) > 0
  }

  /**
   * The regression divides by a positive number exactly when an earlier slot of the last two hours
   * has data; then no line fits its points better than the computed slope's.
   */
  lemma TrendIsLeastSquares(log: seq<Observation>, newest: int, score: real, a: real, b: real)
    ensures var pts := TrendPoints(log, newest, score);
            && (SumsOf(pts).Denominator() > 0.0 <==> EarlierData(log, newest))
            && (SumsOf(pts).Denominator() > 0.0 ==>
              SquaredError(pts, SumsOf(pts).Intercept(), SumsOf(pts).Slope()) <= SquaredError(pts, a, b))
  {
    var pts := TrendPoints(log, newest, score);
    DenominatorSign(pts);
    PointsAreOlder(log, newest, WINDOW);
    SomeOlderPoint(SlotPoints(log, newest, WINDOW), Point(0.0, score));
    if SumsOf(pts).Denominator() > 0.0 {
      SlopeMinimisesError(pts, a, b);
    }
  }

  lemma SomeOlderPoint(pts: seq<Point>, last: Point)
    requires last.x == 0.0
    ensures AllXEqual(pts + [last]) <==> !exists p :: p in pts && p.x != 0.0
  {
    var all := pts + [last];
    if AllXEqual(all) {
      forall p | p in pts ensures p.x == 0.0 {
        var i :| 0 <= i < |pts| && pts[i] == p;
        assert all[i].x == all[|pts|].x;
      }
    }
    if !exists p :: p in pts && p.x != 0.0 {
      forall i | 0 <= i < |all| ensures all[i].x == 0.0 {
        assert i < |pts| ==> pts[i] in pts;
      }
    }
  }

  // ---- What the points and the trend mean ----

  /** The point of a slot with data: five minutes a slot, and the average of the slot's scores. */
  ghost predicate IsSlotPoint(log: seq<Observation>, newest: int, lag: nat, p: Point) {
    var slot := newest - lag * BUCKET;
    && SlotCount(log, slot) > 0
    && p.x == -5.0 * lag as real && Product(p.y, SlotCount(log, slot) as real) == SlotSum(log, slot)
  }

  lemma AverageTimesCount(sum: real, n: real)
    requires n > 0.0
    ensures Product(sum / n, n) == sum
  {
  }

  lemma {:induction false} SlotHasPoint(log: seq<Observation>, newest: int, n: nat, lag: nat) returns (i: nat)
    requires lag < n && SlotCount(log, newest - lag * BUCKET) > 0
    ensures i < |SlotPoints(log, newest, n)| && IsSlotPoint(log, newest, lag, SlotPoints(log, newest, n)[i])
  {
    if lag == n - 1 {
      i := |SlotPoints(log, newest, n - 1)|;
      var slot := newest - lag * BUCKET;
      AverageTimesCount(SlotSum(log, slot), SlotCount(log, slot) as real);
    } else {
      i := SlotHasPoint(log, newest, n - 1, lag);
    }
  }

  lemma {:induction false} PointHasSlot(log: seq<Observation>, newest: int, n: nat, i: nat) returns (lag: nat)
    requires i < |SlotPoints(log, newest, n)|
    ensures lag < n && IsSlotPoint(log, newest, lag, SlotPoints(log, newest, n)[i])
  {
    if i < |SlotPoints(log, newest, n - 1)| {
      lag := PointHasSlot(log, newest, n - 1, i);
    } else {
      lag := n - 1;
      var slot := newest - lag * BUCKET;
      AverageTimesCount(SlotSum(log, slot), SlotCount(log, slot) as real);
    }
  }

  lemma {:induction false} PointsGoBack(log: seq<Observation>, newest: int, n: nat, i: nat, j: nat)
    requires i < j < |SlotPoints(log, newest, n)|
    ensures SlotPoints(log, newest, n)[i].x > SlotPoints(log, newest, n)[j].x
  {
    var rest := SlotPoints(log, newest, n - 1);
    if j < |rest| {
      PointsGoBack(log, newest, n - 1, i, j);
    } else {
      var lag := PointHasSlot(log, newest, n - 1, i);
    }
  }

  /** Every slot with data has exactly one point, which is its average, and no other slot has any. */
  lemma SlotPointsAreAverages(log: seq<Observation>, newest: int, n: nat, lag: nat)
    requires lag < n
    ensures var pts, x := SlotPoints(log, newest, n), -5.0 * lag as real;
            if SlotCount(log, newest - lag * BUCKET) == 0 then forall j :: 0 <= j < |pts| ==> pts[j].x != x
            else exists i :: 0 <= i < |pts| && IsSlotPoint(log, newest, lag, pts[i])
                             && forall j :: 0 <= j < |pts| && pts[j].x == x ==> j == i
  {
    var pts, x := SlotPoints(log, newest, n), -5.0 * lag as real;
    if SlotCount(log, newest - lag * BUCKET) == 0 {
      forall j | 0 <= j < |pts| ensures pts[j].x != x {
        var other := PointHasSlot(log, newest, n, j);
      }
    } else {
      var i := SlotHasPoint(log, newest, n, lag);
      forall j | 0 <= j < |pts| && pts[j].x == x ensures j == i {
        if i < j {
          PointsGoBack(log, newest, n, i, j);
        } else if j < i {
          PointsGoBack(log, newest, n, j, i);
        }
      }
    }
  }

  /** The projection does not go against the slope, and momentum has the slope's sign. */
  ghost predicate FollowsSlope(t: Trend, score: real) {
    && t.sampleCount >= 2 && t.currentScore == score && 0.0 <= t.projection2h <= 100.0
    && (t.slope >= 0.0 && score <= 100.0 ==> t.projection2h >= score)
    && (t.slope <= 0.0 && score >= 0.0 ==> t.projection2h <= score)
    && (score > 0.0 ==> (t.momentum > 0.0 <==> t.slope > 0.0) && (t.momentum < 0.0 <==> t.slope < 0.0))
  }

  lemma TrendFollowsSlope(pts: seq<Point>, score: real)
    requires |pts| >= 2
    ensures FollowsSlope(TrendOf(pts, score), score)
  {
    var slope := SumsOf(pts).Slope();
    if score > 0.0 {
      SignOfProduct(slope, score / 100.0);
    }
  }

  lemma SignOfProduct(a: real, b: real)
    requires b > 0.0
    ensures Product(a, b) > 0.0 <==> a > 0.0
    ensures Product(a, b) < 0.0 <==> a < 0.0
  {
  }

  function OnLine(a: real, b: real, x: real): real {
    a + b * x
  }

  /** The slot's average is the line's value at its time. */
  ghost predicate AverageOnLine(log: seq<Observation>, newest: int, lag: nat, a: real, b: real) {
    var slot := newest - lag * BUCKET;
    SlotSum(log, slot) == Product(OnLine(a, b, -5.0 * lag as real), SlotCount(log, slot) as real)
  }

  /** Every slot of the window that has data averages to the line a + b * minutes. */
  ghost predicate AveragesOnLine(log: seq<Observation>, newest: int, a: real, b: real) {
    forall lag: nat :: lag < WINDOW ==> AverageOnLine(log, newest, lag, a, b)
  }

  ghost predicate Collinear(pts: seq<Point>, a: real, b: real) {
    forall i :: 0 <= i < |pts| ==> pts[i].y == OnLine(a, b, pts[i].x)
  }

  lemma SlopeOfCollinear(pts: seq<Point>, a: real, b: real)
    requires |pts| >= 2 && Collinear(pts, a, b)
    ensures SumsOf(pts).Slope() == if SumsOf(pts).Denominator() > 0.0 then b else 0.0
  {
    DenominatorSign(pts);
    if !AllXEqual(pts) {
      CollinearPointsAreRecovered(pts, a, b);
    }
  }

  /** Averages on a line are extrapolated along it for two hours, as far as 0 and 100 allow. */
  lemma SteadyTrendIsExtrapolated(log: seq<Observation>, newest: int, a: real, b: real)
    requires AveragesOnLine(log, newest, a, b) && SlotCount(log, newest) > 0
    ensures var t := TrendOf(TrendPoints(log, newest, a), a);
            var slope := if EarlierData(log, newest) then b else 0.0;
            && t.slope == slope
            && t.projection2h == (if a + 120.0 * slope < 0.0 then 0.0
                                  else if a + 120.0 * slope > 100.0 then 100.0 else a + 120.0 * slope)
  {
    TwoPointsOrMore(log, newest, a);
    TrendIsLeastSquares(log, newest, a, 0.0, 0.0);
    PointsOnLine(log, newest, a, b);
    SlopeOfCollinear(TrendPoints(log, newest, a), a, b);
  }

  lemma PointsOnLine(log: seq<Observation>, newest: int, a: real, b: real)
    requires AveragesOnLine(log, newest, a, b)
    ensures Collinear(TrendPoints(log, newest, a), a, b)
  {
    var pts := TrendPoints(log, newest, a);
    forall i | 0 <= i < |pts| ensures pts[i].y == OnLine(a, b, pts[i].x) {
      if i < |pts| - 1 {
        PointOnLine(log, newest, a, b, i);
      } else {
        StartOfLine(a, b);
      }
    }
  }

  lemma StartOfLine(a: real, b: real)
    ensures OnLine(a, b, 0.0) == a
  {
  }

  lemma PointOnLine(log: seq<Observation>, newest: int, a: real, b: real, i: nat)
    requires AveragesOnLine(log, newest, a, b) && i < |SlotPoints(log, newest, WINDOW)|
    ensures var p := SlotPoints(log, newest, WINDOW)[i]; p.y == OnLine(a, b, p.x)
  {
    var p := SlotPoints(log, newest, WINDOW)[i];
    var lag := PointHasSlot(log, newest, WINDOW, i);
    assert AverageOnLine(log, newest, lag, a, b);
    SameQuotient(p.y, OnLine(a, b, p.x), SlotCount(log, newest - lag * BUCKET) as real);
  }

  lemma SameQuotient(p: real, q: real, n: real)
    requires Product(p, n) == Product(q, n) && n > 0.0
    ensures p == q
  {
    UnscaleEqual(p, q, n);
  }

  /** With data in the current slot there are its point and the score's. */
  lemma TwoPointsOrMore(log: seq<Observation>, newest: int, score: real)
    requires SlotCount(log, newest) > 0
    ensures |TrendPoints(log, newest, score)| >= 2
  {
    var i := SlotHasPoint(log, newest, WINDOW, 0);
  }

  ghost predicate AllScoresAre(log: seq<Observation>, c: real) {
    forall i :: 0 <= i < |log| ==> log[i].score == c
  }

  lemma {:induction false} EqualScoresSum(log: seq<Observation>, c: real, slot: int)
    requires AllScoresAre(log, c)
    ensures SlotSum(log, slot) == Product(c, SlotCount(log, slot) as real)
  {
    if log != [] {
      EqualScoresSum(log[..|log| - 1], c, slot);
      OneMore(c, SlotCount(log[..|log| - 1], slot) as real);
    }
  }

  lemma OneMore(c: real, n: real)
    ensures Product(c, n + 1.0) == Product(c, n) + c
  {
  }

  /** When every score ever observed is the same, the trend is flat and the projection is that score. */
  lemma EqualScoresStay(log: seq<Observation>, newest: int, c: real)
    requires AllScoresAre(log, c) && SlotCount(log, newest) > 0 && 0.0 <= c <= 100.0
    ensures var t := TrendOf(TrendPoints(log, newest, c), c);
            t.slope == 0.0 && t.momentum == 0.0 && t.projection2h == c
  {
    EqualScoresAreLevel(log, newest, c);
    SteadyTrendIsExtrapolated(log, newest, c, 0.0);
    LevelMomentum(c / 100.0);
  }

  lemma EqualScoresAreLevel(log: seq<Observation>, newest: int, c: real)
    requires AllScoresAre(log, c)
    ensures AveragesOnLine(log, newest, c, 0.0)
  {
    forall lag: nat | lag < WINDOW ensures AverageOnLine(log, newest, lag, c, 0.0) {
      EqualScoresSum(log, c, newest - lag * BUCKET);
      LevelLine(c, -5.0 * lag as real);
    }
  }

  lemma LevelLine(c: real, x: real)
    ensures OnLine(c, 0.0, x) == c
  {
  }

  lemma LevelMomentum(m: real)
    ensures Product(0.0, m) == 0.0
  {
  }

  // ---- The projector ----

  /** The ring index `lag` slots behind the head. */
  function Behind(head: nat, lag: nat): (i: nat)
    requires head < HISTORY && lag < HISTORY
    ensures i < HISTORY
    ensures i == if lag <= head then head - lag else head - lag + HISTORY
  {
    (head - lag + HISTORY) % HISTORY
  }

  /** The regression over the collected points. */
  method Fit(pts: seq<Point>, score: real) returns (t: Trend)
    ensures t == TrendOf(pts, score)
  {
    if |pts| < 2 {
      return Trend(0.0, 0.0, score, 0.0, |pts|);
    }
    var s := Accumulate(pts);
    var denom := s.n * s.xx - s.x * s.x;
    var slope := 0.0;
    if denom != 0.0 {
      slope := (s.n * s.xy - s.x * s.y) / denom;
    }
    var projection := score + slope * 120.0;
    if projection < 0.0 {
      projection := 0.0;
    }
    if projection > 100.0 {
      projection := 100.0;
    }
    t := Trend(slope, Product(slope, score / 100.0), score, projection, |pts|);
  }

  class LongtermProjector {
    const ring: array<Bucket>
    var head: nat
    var full: bool
    var currentAt: int
    /** The first slot, and every observation with the slot it was attributed to. */
    ghost const firstAt: int
    ghost var log: seq<Observation>

    /** The bucket `lag` slots back holds exactly what was observed in that slot. */
    ghost predicate Holds(lag: nat)
      reads this, ring
      requires ring.Length == HISTORY && head < HISTORY && lag < HISTORY
    {
      var b, slot := ring[Behind(head, lag)], currentAt - lag * BUCKET;
      b.sum == SlotSum(log, slot) && b.count == SlotCount(log, slot)
    }

    ghost predicate Valid()
      reads this, ring
    {
      && ring.Length == HISTORY && head < HISTORY
      && currentAt % BUCKET == 0 && firstAt % BUCKET == 0
      && firstAt <= currentAt
      && (!full ==> currentAt == firstAt + head * BUCKET)
      && (forall i :: 0 <= i < |log| ==> firstAt <= log[i].slot <= currentAt)
      && forall lag :: 0 <= lag < HISTORY ==> Holds(lag)
    }

    constructor (now: int)
      ensures Valid() && log == [] && currentAt == firstAt == BucketStart(now) && fresh(ring)
    {
      ring := new Bucket[HISTORY](_ => EMPTY_BUCKET);
      head, full, log := 0, false, [];
      currentAt, firstAt := BucketStart(now), BucketStart(now);
    }

    /** Moves on to the next slot. */
    method NextBucket()
      requires Valid()
      modifies `head, `full, `currentAt, ring
      ensures Valid() && currentAt == old(currentAt) + BUCKET
    {
      currentAt := currentAt + BUCKET;
      head := (head + 1) % HISTORY;
      if head == 0 {
        full := true;
      }
      ring[head] := Bucket(0.0, 0, currentAt);
      forall lag: nat | lag < HISTORY ensures Holds(lag) {
        if lag == 0 {
          EmptySlot(log, currentAt);
        } else {
          assert old(Holds(lag - 1));
        }
      }
    }

    /** Opens one bucket after another until the clock's slot is current; a clock that went back changes nothing. */
    method AdvanceBuckets(now: int)
      requires Valid()
      modifies `head, `full, `currentAt, ring
      ensures Valid()
      ensures currentAt == if BucketStart(now) > old(currentAt) then BucketStart(now) else old(currentAt)
    {
      var start := BucketStart(now);
      while start > currentAt
        invariant Valid() && old(currentAt) <= currentAt
        invariant currentAt == old(currentAt) || currentAt <= start
        decreases start - currentAt
      {
        NextBucket();
      }
    }

    /** The loop over the newest buckets; empty ones are skipped. */
    method CollectPoints(limit: nat) returns (pts: seq<Point>)
      requires Valid() && limit <= HISTORY
      ensures pts == SlotPoints(log, currentAt, limit)
    {
      pts := [];
      for i := 0 to limit
        invariant pts == SlotPoints(log, currentAt, i)
      {
        var b := ring[Behind(head, i)];
        assert Holds(i);
        if b.count != 0 {
          pts := pts + [Point((-i) as real * MINUTES_PER_BUCKET, b.sum / b.count as real)];
        }
      }
    }

    /** The trend of everything observed, which the ring's limits never change. */
    method ComputeTrend(score: real) returns (t: Trend)
      requires Valid()
      ensures t == TrendOf(TrendPoints(log, currentAt, score), score)
    {
      var cap := if full then HISTORY else head + 1;
      var limit := if WINDOW > cap then cap else WINDOW;
      var pts := CollectPoints(limit);
      if limit < WINDOW {
        EarlySlotsAddNothing(log, currentAt, limit, WINDOW);
      }
      t := Fit(pts + [Point(0.0, score)], score);
    }

    method AddToCurrent(score: real)
      requires Valid()
      modifies ring, `log
      ensures Valid() && log == old(log) + [Observation(currentAt, score)]
    {
      var b := ring[head];
      ghost var o := Observation(currentAt, score);
      assert Holds(0);
      forall lag: nat | lag < HISTORY
        ensures var slot := currentAt - lag * BUCKET;
                SlotSum(log + [o], slot) == SlotSum(log, slot) + (if lag == 0 then score else 0.0)
                && SlotCount(log + [o], slot) == SlotCount(log, slot) + (if lag == 0 then 1 else 0)
      {
        SlotAppend(log, o, currentAt - lag * BUCKET);
      }
      ring[head] := Bucket(b.sum + score, b.count + 1, b.at);
      log := log + [o];
      forall lag: nat | lag < HISTORY
        ensures Holds(lag)
      {
        assert old(Holds(lag));
      }
    }

    /** Adds a score to the clock's slot and computes the trend with it. */
    method Observe(score: real, now: int) returns (t: Trend)
      requires Valid()
      modifies this, ring
      ensures Valid()
      ensures currentAt == if BucketStart(now) > old(currentAt) then BucketStart(now) else old(currentAt)
      ensures log == old(log) + [Observation(currentAt, score)]
      ensures t == TrendOf(TrendPoints(log, currentAt, score), score) && FollowsSlope(t, score)
      ensures AllScoresAre(log, score) && 0.0 <= score <= 100.0 ==> t.slope == 0.0 && t.projection2h == score
    {
      AdvanceBuckets(now);
      SlotAppend(log, Observation(currentAt, score), currentAt);
      AddToCurrent(score);
      t := ComputeTrend(score);
      TwoPointsOrMore(log, currentAt, score);
      TrendFollowsSlope(TrendPoints(log, currentAt, score), score);
      if AllScoresAre(log, score) && 0.0 <= score <= 100.0 {
        EqualScoresStay(log, currentAt, score);
      }
    }

    /** The trend without a new score: the current slot's average stands for it. */
    method CurrentTrend() returns (t: Trend)
      requires Valid()
      ensures var n := SlotCount(log, currentAt);
              var score := if n > 0 then SlotSum(log, currentAt) / n as real else 0.0;
              t == TrendOf(TrendPoints(log, currentAt, score), score)
    {
      assert Holds(0);
      var score := 0.0;
      if ring[head].count > 0 {
        score := ring[head].sum / ring[head].count as real;
      }
      t := ComputeTrend(score);
    }
  }
}
