/**
 * `extract_raw_points`: the fragments of a location-history export turned
 * into one time-ordered list of samples. Fragments of other years are
 * skipped; a timestamp the parser rejects, a raw-path point without
 * coordinates or a minute offset `int()` rejects aborts the whole
 * extraction, because nothing catches those exceptions.
 */
module Extraction {
  import opened Wrappers
  import opened Text
  import opened Geo
  import opened Samples

  /** A point of `activity.simplifiedRawPath.points`, in units of 1e-7 degree. */
  datatype RawPathPoint = RawPathPoint(latE7: Option<int>, lngE7: Option<int>)

  /** A point of `timelinePath`: a `geo:` string and an offset in minutes from the start time. */
  datatype TimelinePoint = TimelinePoint(point: Option<string>, offsetMinutes: Option<string>)

  /** The fields of one fragment of the export that the extraction reads. */
  datatype Fragment = Fragment(
    startTime: Option<string>,
    endTime: Option<string>,
    visitLocation: Option<string>,
    activityStart: Option<string>,
    activityEnd: Option<string>,
    rawPath: seq<RawPathPoint>,
    timelinePath: seq<TimelinePoint>)

  /** The exceptions that escape `extract_raw_points`. */
  datatype ExtractError = BadTimestamp(text: string) | MissingCoordinate | BadOffset(text: string)

  /** A sample for a parsed position, none for a position that did not parse. */
  function SampleAt(time: real, fix: Option<GeoFix>): seq<Sample> {
    if fix.Some? then [Sample(time, fix.value.lon, fix.value.lat)] else []
  }

  // ---------------------------------------------------------------------
  // Raw path
  // ---------------------------------------------------------------------

  /** Point i of n is stamped (i + 1) / (n + 1) of the way from t0 to t1. */
  function RawPathTime(t0: real, t1: real, i: nat, n: nat): real {
    t0 + (t1 - t0) * ((i + 1) as real / (n + 1) as real)
  }

  /** When the activity has a positive duration, every raw-path point lies strictly inside it. */
  lemma RawPathTimeInside(t0: real, t1: real, i: nat, n: nat)
    requires i < n && t0 < t1
    ensures t0 < RawPathTime(t0, t1, i, n) < t1
  {
    var f := (i + 1) as real / (n + 1) as real;
    FractionOrder(i + 1, n + 1, n + 1);
    ScaleStrict(t1 - t0, 0.0, f);
    ScaleStrict(t1 - t0, f, 1.0);
  }

  /** Later points of the path get later times. */
  lemma RawPathTimeIncreasing(t0: real, t1: real, i: nat, j: nat, n: nat)
    requires i < j && t0 < t1
    ensures RawPathTime(t0, t1, i, n) < RawPathTime(t0, t1, j, n)
  {
    var fi := (i + 1) as real / (n + 1) as real;
    var fj := (j + 1) as real / (n + 1) as real;
    FractionOrder(i + 1, j + 1, n + 1);
    ScaleStrict(t1 - t0, fi, fj);
    assert RawPathTime(t0, t1, i, n) == t0 + (t1 - t0) * fi;
    assert RawPathTime(t0, t1, j, n) == t0 + (t1 - t0) * fj;
  }

  lemma FractionOrder(a: nat, b: nat, d: nat)
    requires a < b && d > 0
    ensures 0.0 < b as real / d as real
    ensures a as real / d as real < b as real / d as real
    ensures b <= d ==> b as real / d as real <= 1.0
  {
  }

  lemma ScaleStrict(d: real, u: real, v: real)
    requires d > 0.0 && u < v
    ensures d * u < d * v
  {
    assert d * (v - u) > 0.0;
  }

  predicate HasCoordinates(p: RawPathPoint) {
    p.latE7.Some? && p.lngE7.Some?
  }

  function RawSample(t0: real, t1: real, i: nat, n: nat, p: RawPathPoint): Sample
    requires HasCoordinates(p)
  {
    Sample(RawPathTime(t0, t1, i, n), p.lngE7.value as real / 10000000.0, p.latE7.value as real / 10000000.0)
  }

  /** The samples of a raw path; one point without coordinates makes the division raise. */
  function RawPathSamples(t0: real, t1: real, points: seq<RawPathPoint>): (r: Result<seq<Sample>, ExtractError>)
    ensures r.Failure? <==> exists k :: 0 <= k < |points| && !HasCoordinates(points[k])
    ensures r.Success? ==> |r.value| == |points|
    ensures r.Success? ==> forall k :: 0 <= k < |points| ==> r.value[k].time == RawPathTime(t0, t1, k, |points|)
  {
    if exists k :: 0 <= k < |points| && !HasCoordinates(points[k]) then Failure(MissingCoordinate)
    else Success(seq(|points|, k requires 0 <= k < |points| => RawSample(t0, t1, k, |points|, points[k])))
  }

  // ---------------------------------------------------------------------
  // Timeline path
  // ---------------------------------------------------------------------

  /** `int(pth.get("durationMinutesOffsetFromStartTime", 0))`. */
  function OffsetMinutes(offset: Option<string>): Option<int> {
    if offset.None? then Some(0) else ParseInt(offset.value)
  }

  /**
   * What one timeline point contributes: nothing when its position does not
   * parse (the offset is then never read), otherwise a sample stamped
   * `t0` plus the offset in minutes, or the error of a bad offset.
   */
  function TimelineOutcome(t0: real, p: TimelinePoint, decimal: string -> Option<real>): Option<Result<Sample, ExtractError>> {
    match ParseGeo(p.point, decimal)
    case None => None
    case Some(fix) =>
      match OffsetMinutes(p.offsetMinutes)
      case None => Some(Failure(BadOffset(p.offsetMinutes.value)))
      case Some(m) => Some(Success(Sample(t0 + 60.0 * m as real, fix.lon, fix.lat)))
  }

  /** The timeline points taken in order; the first bad offset aborts. */
  function TimelineSamples(t0: real, points: seq<TimelinePoint>, decimal: string -> Option<real>): Result<seq<Sample>, ExtractError> {
    if points == [] then Success([])
    else
      match TimelineSamples(t0, points[..|points| - 1], decimal)
      case Failure(e) => Failure(e)
      case Success(prev) =>
        match TimelineOutcome(t0, points[|points| - 1], decimal)
        case None => Success(prev)
        case Some(Failure(e)) => Failure(e)
        case Some(Success(s)) => Success(prev + [s])
  }

  /**
   * A timeline point written as `geo:lat,lon` with the offset printed as
   * an integer becomes a sample at that position, `m` minutes after `t0`.
   */
  lemma TimelineOffset(t0: real, fix: GeoFix, show: real -> string, decimal: string -> Option<real>, m: int)
    requires decimal(show(fix.lat)) == Some(fix.lat) && decimal(show(fix.lon)) == Some(fix.lon)
    requires ',' !in show(fix.lat) && ',' !in show(fix.lon)
    ensures TimelineOutcome(t0, TimelinePoint(Some(ShowGeo(fix, show)), Some(ShowInt(m))), decimal)
            == Some(Success(Sample(t0 + 60.0 * m as real, fix.lon, fix.lat)))
  {
    ParseShowGeo(fix, show, decimal);
    ParseShowInt(m);
  }

  // ---------------------------------------------------------------------
  // One fragment
  // ---------------------------------------------------------------------

  predicate Present(s: Option<string>) {
    s.Some? && s.value != []
  }

  /**
   * The samples of one fragment, in the order they are appended: the
   * visit, the raw path, the activity start (at t0), the activity end
   * (at t1), then the timeline path. A fragment without a start time or
   * of another year contributes nothing; a missing end time means t1 = t0.
   */
  function FragmentSamples(f: Fragment, year: int, parsers: Parsers): Result<seq<Sample>, ExtractError> {
    if !Present(f.startTime) then Success([])
    else
      match parsers.timestamp(f.startTime.value)
      case None => Failure(BadTimestamp(f.startTime.value))
      case Some(t0) =>
        if t0.year != year then Success([])
        else
          var t1 := if Present(f.endTime) then parsers.timestamp(f.endTime.value) else Some(t0);
          if t1.None? then Failure(BadTimestamp(f.endTime.value))
          else
            var visit := SampleAt(t0.seconds, ParseGeo(f.visitLocation, parsers.decimal));
            var ends := SampleAt(t0.seconds, ParseGeo(f.activityStart, parsers.decimal))
                        + SampleAt(t1.value.seconds, ParseGeo(f.activityEnd, parsers.decimal));
            match RawPathSamples(t0.seconds, t1.value.seconds, f.rawPath)
            case Failure(e) => Failure(e)
            case Success(raw) =>
              match TimelineSamples(t0.seconds, f.timelinePath, parsers.decimal)
              case Failure(e) => Failure(e)
              case Success(timeline) => Success(visit + raw + ends + timeline)
  }

  /** A fragment without a start time, or whose start lies in another year, contributes nothing. */
  lemma SkippedFragment(f: Fragment, year: int, parsers: Parsers)
    requires !Present(f.startTime)
          || (parsers.timestamp(f.startTime.value).Some? && parsers.timestamp(f.startTime.value).value.year != year)
    ensures FragmentSamples(f, year, parsers) == Success([])
  {
  }

  /** The loops of `extract_raw_points` for one fragment. */
  method EmitFragment(f: Fragment, year: int, parsers: Parsers) returns (r: Result<seq<Sample>, ExtractError>)
    ensures r == FragmentSamples(f, year, parsers)
  {
    if !Present(f.startTime) {
      return Success([]);
    }
    var start := parsers.timestamp(f.startTime.value);
    if start.None? {
      return Failure(BadTimestamp(f.startTime.value));
    }
    var t0 := start.value;
    if t0.year != year {
      return Success([]);
    }
    var t1 := t0;
    if Present(f.endTime) {
      var end := parsers.timestamp(f.endTime.value);
      if end.None? {
        return Failure(BadTimestamp(f.endTime.value));
      }
      t1 := end.value;
    }
    var visit := SampleAt(t0.seconds, ParseGeo(f.visitLocation, parsers.decimal));
    var pStart := ParseGeo(f.activityStart, parsers.decimal);
    var pEnd := ParseGeo(f.activityEnd, parsers.decimal);
    var raw := EmitRawPath(t0.seconds, t1.seconds, f.rawPath);
    if raw.Failure? {
      return Failure(raw.error);
    }
    var ends := SampleAt(t0.seconds, pStart) + SampleAt(t1.seconds, pEnd);
    var timeline := EmitTimelinePath(t0.seconds, f.timelinePath, parsers.decimal);
    if timeline.Failure? {
      return Failure(timeline.error);
    }
    r := Success(visit + raw.value + ends + timeline.value);
  }

  /** The raw-path loop: one sample per point, evenly spaced in time. */
  method EmitRawPath(t0: real, t1: real, points: seq<RawPathPoint>) returns (r: Result<seq<Sample>, ExtractError>)
    ensures r == RawPathSamples(t0, t1, points)
  {
    var pts: seq<Sample> := [];
    var n := |points|;
    for i := 0 to n
      invariant forall k :: 0 <= k < i ==> HasCoordinates(points[k])
      invariant pts == seq(i, k requires 0 <= k < i => RawSample(t0, t1, k, n, points[k]))
    {
      var p := points[i];
      if p.latE7.None? || p.lngE7.None? {
        return Failure(MissingCoordinate);
      }
      pts := pts + [RawSample(t0, t1, i, n, p)];
    }
    r := Success(pts);
  }

  /** Once a timeline point has failed, the points after it do not matter. */
  lemma {:induction false} TimelineFailureSticks(t0: real, points: seq<TimelinePoint>, decimal: string -> Option<real>, i: nat)
    requires i <= |points|
    requires TimelineSamples(t0, points[..i], decimal).Failure?
    ensures TimelineSamples(t0, points, decimal) == TimelineSamples(t0, points[..i], decimal)
  {
    if i < |points| {
      var init := points[..|points| - 1];
      assert init[..i] == points[..i];
      TimelineFailureSticks(t0, init, decimal, i);
    } else {
      assert points[..i] == points;
    }
  }

  /** The timeline-path loop: one sample per point whose position parses. */
  method EmitTimelinePath(t0: real, points: seq<TimelinePoint>, decimal: string -> Option<real>) returns (r: Result<seq<Sample>, ExtractError>)
    ensures r == TimelineSamples(t0, points, decimal)
  {
    var pts: seq<Sample> := [];
    for i := 0 to |points|
      invariant TimelineSamples(t0, points[..i], decimal) == Success(pts)
    {
      assert points[..i + 1][..i] == points[..i];
      var p := ParseGeo(points[i].point, decimal);
      if p.Some? {
        var offset := OffsetMinutes(points[i].offsetMinutes);
        if offset.None? {
          TimelineFailureSticks(t0, points, decimal, i + 1);
          return Failure(BadOffset(points[i].offsetMinutes.value));
        }
        pts := pts + [Sample(t0 + 60.0 * offset.value as real, p.value.lon, p.value.lat)];
      }
    }
    assert points[..|points|] == points;
    r := Success(pts);
  }

  // ---------------------------------------------------------------------
  // The whole export
  // ---------------------------------------------------------------------

  /** The fragments' results concatenated in order; the first error aborts. */
  function Gather(results: seq<Result<seq<Sample>, ExtractError>>): Result<seq<Sample>, ExtractError> {
    if results == [] then Success([])
    else
      match Gather(results[..|results| - 1])
      case Failure(e) => Failure(e)
      case Success(prev) =>
        match results[|results| - 1]
        case Failure(e) => Failure(e)
        case Success(more) => Success(prev + more)
  }

  function FragmentResults(data: seq<Fragment>, year: int, parsers: Parsers): (r: seq<Result<seq<Sample>, ExtractError>>)
    ensures |r| == |data|
    ensures forall k :: 0 <= k < |data| ==> r[k] == FragmentSamples(data[k], year, parsers)
  {
    seq(|data|, k requires 0 <= k < |data| => FragmentSamples(data[k], year, parsers))
  }

  /** What `extract_raw_points(data, target_year)` returns or raises. */
  function Extract(data: seq<Fragment>, year: int, parsers: Parsers): Result<seq<Sample>, ExtractError> {
    match Gather(FragmentResults(data, year, parsers))
    case Failure(e) => Failure(e)
    case Success(pts) => Success(Dedup(SortByTime(pts)))
  }

  /** Once a fragment has failed, nothing after it matters. */
  lemma {:induction false} GatherFailureSticks(a: seq<Result<seq<Sample>, ExtractError>>, b: seq<Result<seq<Sample>, ExtractError>>)
    requires Gather(a).Failure?
    ensures Gather(a + b) == Gather(a)
  {
    if b != [] {
      GatherFailureSticks(a, b[..|b| - 1]);
      assert (a + b)[..|a + b| - 1] == a + b[..|b| - 1];
    } else {
      assert a + b == a;
    }
  }

  /** A fragment that contributes nothing can be removed without changing the result. */
  lemma {:induction false} GatherSkipsEmpty(a: seq<Result<seq<Sample>, ExtractError>>, b: seq<Result<seq<Sample>, ExtractError>>)
    ensures Gather(a + [Success([])] + b) == Gather(a + b)
  {
    if b == [] {
      assert (a + [Success([])] + b)[..|a|] == a;
      assert a + b == a;
      if Gather(a).Success? {
        assert Gather(a).value + [] == Gather(a).value;
      }
    } else {
      var b' := b[..|b| - 1];
      GatherSkipsEmpty(a, b');
      assert (a + [Success([])] + b)[..|a| + |b|] == a + [Success([])] + b';
      assert (a + b)[..|a| + |b| - 1] == a + b';
    }
  }

  /** The extraction loop over the fragments, then the sort, then the deduplication loop. */
  method ExtractRawPoints(data: seq<Fragment>, targetYear: int, parsers: Parsers) returns (r: Result<seq<Sample>, ExtractError>)
    ensures r == Extract(data, targetYear, parsers)
  {
    ghost var results := FragmentResults(data, targetYear, parsers);
    var pts: seq<Sample> := [];
    for j := 0 to |data|
      invariant Gather(results[..j]) == Success(pts)
    {
      var fr := EmitFragment(data[j], targetYear, parsers);
      assert results[..j + 1] == results[..j] + [fr];
      if fr.Failure? {
        GatherFailureSticks(results[..j + 1], results[j + 1..]);
        assert results[..j + 1] + results[j + 1..] == results;
        return Failure(fr.error);
      }
      pts := pts + fr.value;
    }
    assert results[..|data|] == results;

    var sorted := SortByTime(pts);
    var clean := RemoveNearDuplicates(sorted);
    r := Success(clean);
  }

  /** The deduplication loop, which reads the last retained sample `clean[-1]`. */
  method RemoveNearDuplicates(sorted: seq<Sample>) returns (clean: seq<Sample>)
    ensures clean == Dedup(sorted)
  {
    if sorted == [] {
      return [];
    }
    clean := [sorted[0]];
    assert sorted[..1] == [sorted[0]];
    for i := 1 to |sorted|
      invariant clean == Dedup(sorted[..i])
    {
      var prev := clean[|clean| - 1];
      var curr := sorted[i];
      assert sorted[..i + 1][..i] == sorted[..i];
      if !Near(prev, curr) {
        clean := clean + [curr];
      }
    }
    assert sorted[..|sorted|] == sorted;
  }

  // ---------------------------------------------------------------------
  // What the extraction promises
  // ---------------------------------------------------------------------

  /**
   * The result is in time order, starts with the earliest emitted sample,
   * retains no sample near its retained predecessor, and drops only
   * samples that repeat a retained one.
   */
  lemma ExtractOrdered(data: seq<Fragment>, year: int, parsers: Parsers)
    requires Extract(data, year, parsers).Success?
    ensures Sorted(Extract(data, year, parsers).value)
    ensures NoNearNeighbours(Extract(data, year, parsers).value)
  {
    var pts := Gather(FragmentResults(data, year, parsers)).value;
    SortByTimeSorted(pts);
    DedupSorted(SortByTime(pts));
    DedupNoNearNeighbours(SortByTime(pts));
  }

  /**
   * Every emitted sample survives, or repeats a sample that survives; and
   * the survivors are emitted samples, each kept at most as often as it
   * was emitted.
   */
  lemma ExtractKeepsSamples(data: seq<Fragment>, year: int, parsers: Parsers)
    requires Extract(data, year, parsers).Success?
    ensures var pts := Gather(FragmentResults(data, year, parsers)).value;
      var out := Extract(data, year, parsers).value;
      && IsSubsequence(out, SortByTime(pts))
      && (forall x :: x in pts ==> x in out || exists y :: y in out && Near(y, x))
      && (pts != [] ==> out != [])
  {
    var pts := Gather(FragmentResults(data, year, parsers)).value;
    SortByTimePermutes(pts);
    DedupSubsequence(SortByTime(pts));
    DedupCovers(SortByTime(pts));
    forall x | x in pts ensures x in SortByTime(pts) {
      assert x in multiset(pts);
    }
  }

  /**
   * Samples stamped with the same time come out in the order they were
   * emitted: the stable sort keeps that order and the removal of
   * near-duplicates only deletes.
   */
  lemma ExtractKeepsEmissionOrder(data: seq<Fragment>, year: int, parsers: Parsers, t: real)
    requires Extract(data, year, parsers).Success?
    ensures IsSubsequence(AtTime(Extract(data, year, parsers).value, t),
                          AtTime(Gather(FragmentResults(data, year, parsers)).value, t))
  {
    var pts := Gather(FragmentResults(data, year, parsers)).value;
    DedupSubsequence(SortByTime(pts));
    SubsequenceAtTime(Dedup(SortByTime(pts)), SortByTime(pts), t);
    SortByTimeStable(pts, t);
  }

  /** Removing a fragment that contributes nothing (no start time, another year) changes nothing. */
  lemma SkippedFragmentIgnored(before: seq<Fragment>, f: Fragment, after: seq<Fragment>, year: int, parsers: Parsers)
    requires FragmentSamples(f, year, parsers) == Success([])
    ensures Extract(before + [f] + after, year, parsers) == Extract(before + after, year, parsers)
  {
    var a := FragmentResults(before, year, parsers);
    var b := FragmentResults(after, year, parsers);
    var all := FragmentResults(before + [f] + after, year, parsers);
    assert all == a + [Success([])] + b;
    assert FragmentResults(before + after, year, parsers) == a + b;
    GatherSkipsEmpty(a, b);
  }

  /**
   * A fragment whose start time does not parse aborts the extraction,
   * whatever follows it, once the fragments before it have succeeded.
   */
  lemma BadTimestampAborts(before: seq<Fragment>, f: Fragment, after: seq<Fragment>, year: int, parsers: Parsers)
    requires Gather(FragmentResults(before, year, parsers)).Success?
    requires Present(f.startTime) && parsers.timestamp(f.startTime.value).None?
    ensures Extract(before + [f] + after, year, parsers) == Failure(BadTimestamp(f.startTime.value))
  {
    var a := FragmentResults(before, year, parsers);
    var all := FragmentResults(before + [f] + after, year, parsers);
    var upTo := a + [FragmentSamples(f, year, parsers)];
    assert all == upTo + FragmentResults(after, year, parsers);
    assert upTo[..|a|] == a;
    GatherFailureSticks(upTo, FragmentResults(after, year, parsers));
  }
}
