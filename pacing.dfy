/**
 * `prepare_animation_data`: the pacing of the animation. Every hop between
 * consecutive samples gets a "perceived duration" from its length and its
 * elapsed time; the frames are spread evenly over the cumulative perceived
 * duration, and each frame interpolates inside the hop its weight falls in.
 */
module Pacing {
  import opened Numerics
  import opened Geo
  import opened Samples

  function Position(s: Sample): Point {
    Point(s.lon, s.lat)
  }

  /** dx² + dy² of a hop, in square degrees. */
  function SquaredDistance(p0: Point, p1: Point): real {
    (p1.lon - p0.lon) * (p1.lon - p0.lon) + (p1.lat - p0.lat) * (p1.lat - p0.lat)
  }

  /** The planar length of a hop, `np.sqrt(dx**2 + dy**2)`. */
  function Distance(tr: Transcendentals, p0: Point, p1: Point): real {
    tr.sqrt(SquaredDistance(p0, p1))
  }

  /**
   * The perceived duration of the hop from `a` to `b`: 3.5 per degree
   * travelled plus one per hour elapsed (at most three), and never less
   * than 0.3.
   */
  function StepWeight(tr: Transcendentals, a: Sample, b: Sample): (w: real)
    ensures w >= 0.3
  {
    var moveWeight := Distance(tr, Position(a), Position(b)) * 3.5;
    var timeWeight := Min((b.time - a.time) / 3600.0, 3.0);
    Max(0.3, moveWeight + timeWeight)
  }

  /**
   * A hop of an hour or more never sits on the 0.3 floor: its weight is at
   * least 1, however short the distance.
   */
  lemma HourLongHopAboveFloor(tr: Transcendentals, a: Sample, b: Sample)
    requires b.time - a.time >= 3600.0
    requires tr.sqrt(SquaredDistance(Position(a), Position(b))) >= 0.0
    ensures StepWeight(tr, a, b) >= 1.0
  {
  }

  /** Strictly increasing by at least 0.3 from each entry to the next. */
  ghost predicate Climbs(c: seq<real>) {
    forall j, k {:trigger c[j], c[k]} :: 0 <= j && k == j + 1 && k < |c| ==> c[k] >= c[j] + 0.3
  }

  /** The cumulative perceived duration: 0 at the first sample, then one hop weight added per sample. */
  function Curve(tr: Transcendentals, pts: seq<Sample>): (c: seq<real>)
    requires |pts| >= 1
    ensures |c| == |pts| && c[0] == 0.0
    ensures Climbs(c)
  {
    if |pts| == 1 then [0.0]
    else
      var prev := Curve(tr, pts[..|pts| - 1]);
      var c := prev + [prev[|prev| - 1] + StepWeight(tr, pts[|pts| - 2], pts[|pts| - 1])];
      assert forall j, k {:trigger c[j], c[k]} :: 0 <= j && k == j + 1 && k < |prev| ==> c[j] == prev[j] && c[k] == prev[k];
      c
  }

  /** Each entry of the curve is the previous one plus the weight of the hop that ends there. */
  lemma {:induction false} CurveSteps(tr: Transcendentals, pts: seq<Sample>, k: nat)
    requires 1 <= k < |pts|
    ensures Curve(tr, pts)[k] == Curve(tr, pts)[k - 1] + StepWeight(tr, pts[k - 1], pts[k])
  {
    if k < |pts| - 1 {
      var init := pts[..|pts| - 1];
      CurveSteps(tr, init, k);
      assert Curve(tr, pts)[..|pts| - 1] == Curve(tr, init);
    }
  }

  /** Any later entry of the curve exceeds an earlier one by at least 0.3 per hop between them. */
  lemma {:induction false} CurveIncreasing(c: seq<real>, j: nat, k: nat)
    requires Climbs(c)
    requires j <= k < |c|
    ensures c[k] - c[j] >= 0.3 * (k - j) as real
  {
    if j < k {
      CurveIncreasing(c, j, k - 1);
      assert c[k] >= c[k - 1] + 0.3;
    }
  }

  // ---------------------------------------------------------------------
  // Finding the bracket of a weight
  // ---------------------------------------------------------------------

  predicate NonDecreasing(a: seq<real>) {
    forall j, k :: 0 <= j <= k < |a| ==> a[j] <= a[k]
  }

  lemma ClimbsNonDecreasing(c: seq<real>)
    requires Climbs(c)
    ensures NonDecreasing(c)
  {
    forall j, k | 0 <= j <= k < |c| ensures c[j] <= c[k] {
      CurveIncreasing(c, j, k);
    }
  }

  /** The first index whose entry is at least `x`, or `|a|` when there is none. */
  function FirstAtLeast(a: seq<real>, x: real): (r: nat)
    ensures r <= |a|
    ensures forall k :: 0 <= k < r ==> a[k] < x
    ensures r < |a| ==> a[r] >= x
  {
    if a == [] then 0
    else if a[0] >= x then 0
    else 1 + FirstAtLeast(a[1..], x)
  }

  /** The first index at least `x` is the one every earlier entry is below and that itself reaches `x`. */
  lemma {:induction false} FirstAtLeastAt(a: seq<real>, x: real, i: nat)
    requires i <= |a|
    requires forall k :: 0 <= k < i ==> a[k] < x
    requires i < |a| ==> a[i] >= x
    ensures FirstAtLeast(a, x) == i
  {
    if i > 0 {
      assert a[0] < x;
      FirstAtLeastAt(a[1..], x, i - 1);
    }
  }

  /**
   * `np.searchsorted(a, x)` (side "left") on a sorted array, as a binary
   * search: the number of entries less than `x`, which is the index of the
   * first entry not less than `x`.
   */
  method SearchSortedLeft(a: seq<real>, x: real) returns (idx: nat)
    requires NonDecreasing(a)
    ensures idx == FirstAtLeast(a, x)
  {
    var lo, hi := 0, |a|;
    while lo < hi
      invariant 0 <= lo <= hi <= |a|
      invariant forall k :: 0 <= k < lo ==> a[k] < x
      invariant forall k :: hi <= k < |a| ==> a[k] >= x
      decreases hi - lo
    {
      var mid := (lo + hi) / 2;
      if a[mid] < x {
        lo := mid + 1;
      } else {
        hi := mid;
      }
    }
    idx := lo;
    FirstAtLeastAt(a, x, idx);
  }

  // ---------------------------------------------------------------------
  // Frames
  // ---------------------------------------------------------------------

  /** What one frame shows: the dot's position and the displayed time in seconds. */
  datatype Frame = Frame(pos: Point, time: real)

  /** `np.linspace(0, total, frames)[k]`. */
  function FrameWeight(total: real, k: nat, frames: nat): real {
    if frames <= 1 then 0.0 else total * (k as real) / ((frames - 1) as real)
  }

  lemma Fraction(n: real, d: real)
    requires 0.0 < n <= d
    ensures 0.0 < n / d <= 1.0
  {
  }

  lemma FrameWeightRange(total: real, k: nat, frames: nat)
    requires total >= 0.0 && k < frames
    ensures 0.0 <= FrameWeight(total, k, frames)
    ensures FrameWeight(total, k, frames) <= total
  {
    if frames >= 2 {
      var f := (k as real) / ((frames - 1) as real);
      assert 0.0 <= f <= 1.0;
      assert total * (k as real) / ((frames - 1) as real) == total * f;
      ScaleNonNegative(total, f);
      ScaleBelow(total, f);
    }
  }

  /** The last weight of the linspace is the curve's total. */
  lemma LastFrameWeight(total: real, frames: nat)
    requires frames >= 2
    ensures FrameWeight(total, frames - 1, frames) == total
  {
    Whole((frames - 1) as real);
  }

  /**
   * The frame for weight `fw`: the first sample when the weight is not past
   * the curve's start, the last sample when it is past its end, and
   * otherwise a point of the hop whose bracket holds the weight; hops longer
   * than one degree use `slerp`, shorter ones a straight line.
   */
  function FrameAt(tr: Transcendentals, pts: seq<Sample>, fw: real): Frame
    requires |pts| >= 1
  {
    var curve := Curve(tr, pts);
    var idx := FirstAtLeast(curve, fw);
    if idx == 0 then Frame(Position(pts[0]), pts[0].time)
    else if idx >= |pts| then Frame(Position(pts[|pts| - 1]), pts[|pts| - 1].time)
    else
      var w0 := curve[idx - 1];
      var w1 := curve[idx];
      assert w1 >= w0 + 0.3;
      Between(tr, pts[0].time, pts[idx - 1], pts[idx], (fw - w0) / (w1 - w0))
  }

  /**
   * The frame at fraction `weight` of the hop from `a` to `b`: on the great
   * circle for hops longer than one degree, on the straight line otherwise;
   * the displayed time is interpolated relative to the first sample's time
   * `origin`.
   */
  function Between(tr: Transcendentals, origin: real, a: Sample, b: Sample, weight: real): Frame {
    var p0 := Position(a);
    var p1 := Position(b);
    var p := if Distance(tr, p0, p1) > 1.0 then Slerp(tr, p0, p1, weight)
             else Point(p0.lon + (p1.lon - p0.lon) * weight, p0.lat + (p1.lat - p0.lat) * weight);
    var rt0 := a.time - origin;
    var rt1 := b.time - origin;
    Frame(p, origin + (rt0 + (rt1 - rt0) * weight))
  }

  /** The displayed time of a frame inside a hop stays between the times of the hop's two samples. */
  lemma BetweenTimes(tr: Transcendentals, origin: real, a: Sample, b: Sample, weight: real)
    requires 0.0 <= weight <= 1.0
    ensures Min(a.time, b.time) <= Between(tr, origin, a, b, weight).time
    ensures Between(tr, origin, a, b, weight).time <= Max(a.time, b.time)
  {
    var rt0 := a.time - origin;
    var rt1 := b.time - origin;
    var rt := rt0 + (rt1 - rt0) * weight;
    InterpolationAbove(rt0, rt1, weight);
    InterpolationBelow(rt0, rt1, weight);
    ShiftBack(origin, a.time, b.time, rt);
  }

  /** Bounds on a time relative to `origin` carry over to the absolute time. */
  lemma ShiftBack(origin: real, s: real, t: real, v: real)
    requires Min(s - origin, t - origin) <= v <= Max(s - origin, t - origin)
    ensures Min(s, t) <= origin + v <= Max(s, t)
  {
  }

  /** At fraction 1 a straight hop shows its end sample at its time. */
  lemma BetweenAtEnd(tr: Transcendentals, origin: real, a: Sample, b: Sample)
    requires Distance(tr, Position(a), Position(b)) <= 1.0
    ensures Between(tr, origin, a, b, 1.0) == Frame(Position(b), b.time)
  {
  }

  /**
   * The pacing loops: the cumulative curve, then one frame per evenly
   * spaced weight. No samples give no frames; otherwise there are exactly
   * `totalFrames` of them.
   */
  method PrepareAnimationData(tr: Transcendentals, pts: seq<Sample>, totalFrames: nat)
    returns (lons: seq<real>, lats: seq<real>, times: seq<real>)
    ensures pts == [] ==> lons == [] && lats == [] && times == []
    ensures pts != [] ==> |lons| == totalFrames && |lats| == totalFrames && |times| == totalFrames
    ensures pts != [] ==> forall k :: 0 <= k < totalFrames ==>
              FrameAt(tr, pts, FrameWeight(Curve(tr, pts)[|pts| - 1], k, totalFrames))
              == Frame(Point(lons[k], lats[k]), times[k])
  {
    if pts == [] {
      return [], [], [];
    }
    var perceived := PerceivedDuration(tr, pts);
    var total := perceived[|perceived| - 1];

    lons, lats, times := [], [], [];
    for k := 0 to totalFrames
      invariant |lons| == k && |lats| == k && |times| == k
      invariant forall j :: 0 <= j < k ==>
                  FrameAt(tr, pts, FrameWeight(total, j, totalFrames)) == Frame(Point(lons[j], lats[j]), times[j])
    {
      var fw := FrameWeight(total, k, totalFrames);
      var frame := NextFrame(tr, pts, perceived, fw);
      lons, lats, times := lons + [frame.pos.lon], lats + [frame.pos.lat], times + [frame.time];
    }
  }

  /** The first loop of the pacing: the running sum of the hop weights. */
  method PerceivedDuration(tr: Transcendentals, pts: seq<Sample>) returns (perceived: seq<real>)
    requires |pts| >= 1
    ensures perceived == Curve(tr, pts)
  {
    perceived := [0.0];
    for i := 1 to |pts|
      invariant perceived == Curve(tr, pts[..i])
    {
      assert pts[..i + 1][..i] == pts[..i];
      var w := StepWeight(tr, pts[i - 1], pts[i]);
      perceived := perceived + [perceived[|perceived| - 1] + w];
    }
    assert pts[..|pts|] == pts;
  }

  /** The body of the frame loop for one weight. */
  method NextFrame(tr: Transcendentals, pts: seq<Sample>, perceived: seq<real>, fw: real) returns (frame: Frame)
    requires |pts| >= 1 && perceived == Curve(tr, pts)
    ensures frame == FrameAt(tr, pts, fw)
  {
    ClimbsNonDecreasing(perceived);
    var idx := SearchSortedLeft(perceived, fw);
    if idx == 0 {
      frame := Frame(Position(pts[0]), pts[0].time);
    } else if idx >= |pts| {
      frame := Frame(Position(pts[|pts| - 1]), pts[|pts| - 1].time);
    } else {
      var w0, w1 := perceived[idx - 1], perceived[idx];
      assert w1 >= w0 + 0.3;
      var weight := (fw - w0) / (w1 - w0);
      frame := Between(tr, pts[0].time, pts[idx - 1], pts[idx], weight);
    }
  }

  // ---------------------------------------------------------------------
  // What the pacing promises
  // ---------------------------------------------------------------------

  /** Weight 0, the first frame's, shows the first sample at its time. */
  lemma FirstFrame(tr: Transcendentals, pts: seq<Sample>)
    requires |pts| >= 1
    ensures FrameAt(tr, pts, 0.0) == Frame(Position(pts[0]), pts[0].time)
  {
    assert FirstAtLeast(Curve(tr, pts), 0.0) == 0;
  }

  /** No weight of the linspace is past the end of the curve, so the "after the last sample" branch is never taken. */
  lemma WeightsStayOnCurve(tr: Transcendentals, pts: seq<Sample>, fw: real)
    requires |pts| >= 1
    requires fw <= Curve(tr, pts)[|pts| - 1]
    ensures FirstAtLeast(Curve(tr, pts), fw) < |pts|
  {
  }

  /**
   * Inside a bracket, the weight lies after the bracket's start and no later
   * than its end, so the interpolation fraction is in (0, 1], and the
   * displayed time lies between the times of the bracket's two samples.
   */
  lemma BracketFraction(tr: Transcendentals, pts: seq<Sample>, fw: real)
    requires |pts| >= 1
    requires var idx := FirstAtLeast(Curve(tr, pts), fw); 0 < idx < |pts|
    ensures var curve := Curve(tr, pts);
      var idx := FirstAtLeast(curve, fw);
      var weight := (fw - curve[idx - 1]) / (curve[idx] - curve[idx - 1]);
      && curve[idx - 1] < fw <= curve[idx]
      && 0.0 < weight <= 1.0
      && Min(pts[idx - 1].time, pts[idx].time) <= FrameAt(tr, pts, fw).time <= Max(pts[idx - 1].time, pts[idx].time)
  {
    var curve := Curve(tr, pts);
    var idx := FirstAtLeast(curve, fw);
    var w0, w1 := curve[idx - 1], curve[idx];
    assert w1 >= w0 + 0.3;
    Fraction(fw - w0, w1 - w0);
    BetweenTimes(tr, pts[0].time, pts[idx - 1], pts[idx], (fw - w0) / (w1 - w0));
  }

  /**
   * The straight-line branch is taken exactly for hops of at most one
   * degree, given that `sqrt` returns the non-negative square root.
   */
  lemma LinearExactlyForShortHops(tr: Transcendentals, p0: Point, p1: Point)
    requires var d := tr.sqrt(SquaredDistance(p0, p1)); d >= 0.0 && d * d == SquaredDistance(p0, p1)
    ensures Distance(tr, p0, p1) > 1.0 <==> SquaredDistance(p0, p1) > 1.0
  {
    var d := Distance(tr, p0, p1);
    if d > 1.0 {
      assert d * d > 1.0 * d;
    } else {
      assert d * d <= 1.0 * d;
    }
  }

  /** A weight that lands exactly on the end of a straight-line bracket shows that bracket's last sample. */
  lemma BracketEnd(tr: Transcendentals, pts: seq<Sample>, i: nat)
    requires 0 < i < |pts|
    requires FirstAtLeast(Curve(tr, pts), Curve(tr, pts)[i]) == i
    requires Distance(tr, Position(pts[i - 1]), Position(pts[i])) <= 1.0
    ensures FrameAt(tr, pts, Curve(tr, pts)[i]) == Frame(Position(pts[i]), pts[i].time)
  {
    var curve := Curve(tr, pts);
    assert curve[i] >= curve[i - 1] + 0.3;
    Whole(curve[i] - curve[i - 1]);
    BetweenAtEnd(tr, pts[0].time, pts[i - 1], pts[i]);
  }

  /**
   * The last frame shows the last sample at its time, when the last hop is
   * drawn as a straight line (or there is only one sample).
   */
  lemma LastFrame(tr: Transcendentals, pts: seq<Sample>, frames: nat)
    requires |pts| >= 1 && frames >= 2
    requires |pts| >= 2 ==> Distance(tr, Position(pts[|pts| - 2]), Position(pts[|pts| - 1])) <= 1.0
    ensures var total := Curve(tr, pts)[|pts| - 1];
      FrameAt(tr, pts, FrameWeight(total, frames - 1, frames)) == Frame(Position(pts[|pts| - 1]), pts[|pts| - 1].time)
  {
    var curve := Curve(tr, pts);
    var n := |pts|;
    var total := curve[n - 1];
    LastFrameWeight(total, frames);
    if n >= 2 {
      assert curve[n - 1] >= curve[n - 2] + 0.3;
      ClimbsNonDecreasing(curve);
      FirstAtLeastAt(curve, total, n - 1);
      BracketEnd(tr, pts, n - 1);
    }
  }
}
