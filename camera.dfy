/**
 * The per-frame `update` of the animation: the camera that eases toward a
 * target chosen by region, the map that is re-stitched when the rounded
 * view changes (or every tenth frame), and the travelled path drawn with a
 * break at every jump across the date line.
 */
module Camera {
  import opened Wrappers
  import opened Numerics
  import opened Geo
  import opened Tiles

  // ---------------------------------------------------------------------
  // Where the camera heads
  // ---------------------------------------------------------------------

  /** The centre the camera heads for and the width of its view there, in degrees. */
  datatype Target = Target(lon: real, lat: real, width: real)

  /** A region with a fixed camera: an open box of longitudes and latitudes. */
  datatype Region = Region(westLon: real, eastLon: real, southLat: real, northLat: real, target: Target)

  predicate Inside(r: Region, lon: real, lat: real) {
    r.westLon < lon < r.eastLon && r.southLat < lat < r.northLat
  }

  const Wisconsin: Region := Region(-93.0, -85.0, 42.0, 47.0, Target(-89.0, 44.2, 8.0))
  const Korea: Region := Region(124.0, 130.0, 33.0, 39.0, Target(127.0, 36.0, 4.0))

  /** The regions in the order the program tries them. */
  const Regions: seq<Region> := [Wisconsin, Korea]

  /** The width of the view outside every region. */
  const WorldWidth: real := 180.0

  /** The index of the first region holding the point, if any. */
  function FirstMatch(regions: seq<Region>, lon: real, lat: real): (r: Option<nat>)
    ensures r.Some? ==> r.value < |regions| && Inside(regions[r.value], lon, lat)
    ensures r.Some? ==> forall k :: 0 <= k < r.value ==> !Inside(regions[k], lon, lat)
    ensures r.None? ==> forall k :: 0 <= k < |regions| ==> !Inside(regions[k], lon, lat)
  {
    if regions == [] then None
    else if Inside(regions[0], lon, lat) then Some(0)
    else match FirstMatch(regions[1..], lon, lat)
      case None => None
      case Some(k) => Some(k + 1)
  }

  /** The camera's target for the current point: the first region holding it, else the point itself at world width. */
  function TargetFor(lon: real, lat: real): Target {
    match FirstMatch(Regions, lon, lat)
    case Some(k) => Regions[k].target
    case None => Target(lon, lat, WorldWidth)
  }

  /** The region tests, first match winning, written out. */
  lemma TargetCases(lon: real, lat: real)
    ensures -93.0 < lon < -85.0 && 42.0 < lat < 47.0 ==> TargetFor(lon, lat) == Target(-89.0, 44.2, 8.0)
    ensures (!(-93.0 < lon < -85.0 && 42.0 < lat < 47.0) && 124.0 < lon < 130.0 && 33.0 < lat < 39.0)
              ==> TargetFor(lon, lat) == Target(127.0, 36.0, 4.0)
    ensures (!(-93.0 < lon < -85.0 && 42.0 < lat < 47.0) && !(124.0 < lon < 130.0 && 33.0 < lat < 39.0))
              ==> TargetFor(lon, lat) == Target(lon, lat, 180.0)
  {
    assert Regions[0] == Wisconsin && Regions[1] == Korea;
    var m := FirstMatch(Regions, lon, lat);
    if m.Some? {
      assert m.value == 0 || m.value == 1;
    }
  }

  /** Every target width lies between the tightest region's and the world width. */
  lemma TargetWidthBounds(lon: real, lat: real)
    ensures 4.0 <= TargetFor(lon, lat).width <= 180.0
  {
    var m := FirstMatch(Regions, lon, lat);
    if m.Some? {
      assert m.value == 0 || m.value == 1;
      assert Regions[0] == Wisconsin && Regions[1] == Korea;
    }
  }

  // ---------------------------------------------------------------------
  // Moving the camera
  // ---------------------------------------------------------------------

  /**
   * The date-line wrap: when the target is more than 180 degrees of
   * longitude away, the centre is shifted by 360 degrees toward it, once.
   */
  function Wrap(target: real, clon: real): (r: real)
    ensures r == clon || r == clon + 360.0 || r == clon - 360.0
  {
    if Abs(target - clon) > 180.0 then clon + (if target > clon then 360.0 else -360.0)
    else clon
  }

  /**
   * A gap under 540 degrees ends at most 180 degrees wide, and strictly
   * under 180 when a shift was needed.
   */
  lemma WrapBringsWithinHalfTurn(target: real, clon: real)
    requires Abs(target - clon) < 540.0
    ensures Abs(target - Wrap(target, clon)) <= 180.0
    ensures Abs(target - clon) > 180.0 ==> Abs(target - Wrap(target, clon)) < 180.0
  {
  }

  /** The shift happens only once: a gap wider than 540 degrees is still wider than 180 after it. */
  lemma WrapShiftsOnce(target: real, clon: real)
    requires Abs(target - clon) > 540.0
    ensures Abs(target - Wrap(target, clon)) > 180.0
  {
  }

  /** The fraction of the remaining way the camera moves each frame. */
  const Ease: real := 0.02

  /** One easing step from `current` toward `target`. */
  function Blend(current: real, target: real): (r: real)
    ensures Min(current, target) <= r
    ensures r <= Max(current, target)
  {
    current + (target - current) * Ease
  }

  /** Each step closes exactly 2% of the remaining gap. */
  lemma BlendClosesGap(current: real, target: real)
    ensures target - Blend(current, target) == (1.0 - Ease) * (target - current)
  {
  }

  /** The on-screen aspect ratio, 16:9. */
  const Aspect: real := 16.0 / 9.0

  /** The axis limits of a view centred at (clon, clat) and `width` degrees wide. */
  function ViewOf(clon: real, clat: real, width: real): (b: Bounds)
    ensures b.maxLon - b.minLon == width
    ensures b.maxLat - b.minLat == width * 9.0 / 16.0
    ensures (b.minLon + b.maxLon) / 2.0 == clon && (b.minLat + b.maxLat) / 2.0 == clat
  {
    Bounds(clon - width / 2.0, clon + width / 2.0, clat - (width / Aspect) / 2.0, clat + (width / Aspect) / 2.0)
  }

  /** The view's limits rounded to a tenth of a degree, as compared between frames. */
  function Rounded(b: Bounds): (r: Bounds)
    ensures Abs(r.minLon - b.minLon) <= 0.05 && Abs(r.maxLon - b.maxLon) <= 0.05
    ensures Abs(r.minLat - b.minLat) <= 0.05 && Abs(r.maxLat - b.maxLat) <= 0.05
  {
    Bounds(RoundTenth(b.minLon), RoundTenth(b.maxLon), RoundTenth(b.minLat), RoundTenth(b.maxLat))
  }

  /** Rounding rounded limits changes nothing, so a view that stays put compares equal. */
  lemma RoundedIdempotent(b: Bounds)
    ensures Rounded(Rounded(b)) == Rounded(b)
  {
    RoundTenthIdempotent(b.minLon);
    RoundTenthIdempotent(b.maxLon);
    RoundTenthIdempotent(b.minLat);
    RoundTenthIdempotent(b.maxLat);
  }

  /** The pixel width the map is requested at. */
  const MapWidthPx: int := 1600

  /** Whether frame `i` re-stitches the map: every tenth frame, and whenever the rounded view differs from the last one shown. */
  predicate NeedsRefresh(i: nat, lastBounds: Option<Bounds>, current: Bounds) {
    i % 10 == 0 || lastBounds != Some(current)
  }

  // ---------------------------------------------------------------------
  // The drawn path
  // ---------------------------------------------------------------------

  /** A vertex of the drawn line: a position, or the gap (NaN) that breaks the line. */
  datatype Vertex = Break | At(lon: real, lat: real)

  /** Frame `j` jumps across the date line from frame `j - 1`. */
  predicate Jump(lons: seq<real>, j: nat)
    requires 1 <= j < |lons|
  {
    Abs(lons[j] - lons[j - 1]) > 180.0
  }

  /** Frames 0..k-1 as drawn, with a break inserted before every frame that jumps. */
  function DrawnPath(lons: seq<real>, lats: seq<real>, k: nat): seq<Vertex>
    requires k <= |lons| == |lats|
  {
    if k == 0 then []
    else
      DrawnPath(lons, lats, k - 1)
      + (if k >= 2 && Jump(lons, k - 1) then [Break] else [])
      + [At(lons[k - 1], lats[k - 1])]
  }

  /** How many of frames 1..k-1 jump. */
  function Jumps(lons: seq<real>, k: nat): (r: nat)
    requires k <= |lons|
    ensures r < k || k == 0
  {
    if k <= 1 then 0
    else Jumps(lons, k - 1) + (if Jump(lons, k - 1) then 1 else 0)
  }

  /** The positions of a drawn path, breaks removed. */
  function Positions(path: seq<Vertex>): seq<Point> {
    if path == [] then []
    else
      Positions(path[..|path| - 1])
      + (match path[|path| - 1] case Break => [] case At(lon, lat) => [Point(lon, lat)])
  }

  lemma {:induction false} PositionsAppend(a: seq<Vertex>, b: seq<Vertex>)
    ensures Positions(a + b) == Positions(a) + Positions(b)
  {
    if b != [] {
      PositionsAppend(a, b[..|b| - 1]);
      assert (a + b)[..|a + b| - 1] == a + b[..|b| - 1];
    } else {
      assert a + b == a;
    }
  }

  /** The path has one vertex per frame plus one break per jump. */
  lemma {:induction false} DrawnPathLength(lons: seq<real>, lats: seq<real>, k: nat)
    requires k <= |lons| == |lats|
    ensures |DrawnPath(lons, lats, k)| == k + Jumps(lons, k)
  {
    if k > 0 {
      DrawnPathLength(lons, lats, k - 1);
    }
  }

  /** Removing the breaks gives back the frames' positions, in order. */
  lemma PositionsOfBreak()
    ensures Positions([Break]) == []
  {
    assert [Break][..0] == [];
  }

  lemma PositionsOfVertex(lon: real, lat: real)
    ensures Positions([At(lon, lat)]) == [Point(lon, lat)]
  {
    assert [At(lon, lat)][..0] == [];
  }

  /** The positions of frames 0..k-1. */
  function FramePoints(lons: seq<real>, lats: seq<real>, k: nat): (r: seq<Point>)
    requires k <= |lons| == |lats|
    ensures |r| == k
    ensures forall j :: 0 <= j < k ==> r[j] == Point(lons[j], lats[j])
  {
    if k == 0 then [] else FramePoints(lons, lats, k - 1) + [Point(lons[k - 1], lats[k - 1])]
  }

  lemma {:induction false} DrawnPathPositions(lons: seq<real>, lats: seq<real>, k: nat)
    requires k <= |lons| == |lats|
    ensures Positions(DrawnPath(lons, lats, k)) == FramePoints(lons, lats, k)
  {
    if k > 0 {
      DrawnPathPositions(lons, lats, k - 1);
      var prev := DrawnPath(lons, lats, k - 1);
      var gap := if k >= 2 && Jump(lons, k - 1) then [Break] else [];
      var v := At(lons[k - 1], lats[k - 1]);
      var pt := Point(lons[k - 1], lats[k - 1]);
      assert Positions(gap) == [] by {
        if gap != [] {
          PositionsOfBreak();
        }
      }
      calc {
        Positions(DrawnPath(lons, lats, k));
        Positions(prev + gap + [v]);
        { PositionsAppend(prev + gap, [v]); PositionsOfVertex(lons[k - 1], lats[k - 1]); }
        Positions(prev + gap) + [pt];
        { PositionsAppend(prev, gap); assert Positions(prev) + [] == Positions(prev); }
        Positions(prev) + [pt];
        FramePoints(lons, lats, k);
      }
    }
  }

  /** Every break sits between two positions more than 180 degrees of longitude apart. */
  ghost predicate BreaksAtJumps(path: seq<Vertex>) {
    forall m :: 0 <= m < |path| && path[m] == Break ==>
      0 < m < |path| - 1 && path[m - 1].At? && path[m + 1].At? && Abs(path[m + 1].lon - path[m - 1].lon) > 180.0
  }

  /** Appending a vertex, after a break only when it jumps from the last vertex, keeps breaks at jumps. */
  lemma ExtendKeepsBreaksAtJumps(prev: seq<Vertex>, gap: seq<Vertex>, v: Vertex)
    requires BreaksAtJumps(prev) && v.At?
    requires gap == [] || (gap == [Break] && prev != [] && prev[|prev| - 1].At? && Abs(v.lon - prev[|prev| - 1].lon) > 180.0)
    ensures BreaksAtJumps(prev + gap + [v])
  {
    var path := prev + gap + [v];
    forall m | 0 <= m < |path| && path[m] == Break
      ensures 0 < m < |path| - 1 && path[m - 1].At? && path[m + 1].At? && Abs(path[m + 1].lon - path[m - 1].lon) > 180.0
    {
      if m < |prev| {
        assert path[m] == prev[m];
        assert path[m - 1] == prev[m - 1] && path[m + 1] == prev[m + 1];
      } else {
        assert m == |prev| && path[m + 1] == v && path[m - 1] == prev[|prev| - 1];
      }
    }
  }

  lemma {:induction false} DrawnPathBreaks(lons: seq<real>, lats: seq<real>, k: nat)
    requires k <= |lons| == |lats|
    ensures BreaksAtJumps(DrawnPath(lons, lats, k))
    ensures k > 0 ==> DrawnPath(lons, lats, k)[|DrawnPath(lons, lats, k)| - 1] == At(lons[k - 1], lats[k - 1])
  {
    if k > 0 {
      DrawnPathBreaks(lons, lats, k - 1);
      var gap := if k >= 2 && Jump(lons, k - 1) then [Break] else [];
      ExtendKeepsBreaksAtJumps(DrawnPath(lons, lats, k - 1), gap, At(lons[k - 1], lats[k - 1]));
    }
  }

  // ---------------------------------------------------------------------
  // The camera
  // ---------------------------------------------------------------------

  /**
   * The state `update` keeps between frames: the view's centre and width
   * (held by the axes' limits), the rounded limits of the last map
   * stitched, and the extent of the map on screen (None for the initial
   * map, which is not part of this model).
   */
  class CameraView {
    var clon: real
    var clat: real
    var width: real
    var lastBounds: Option<Bounds>
    var shownExtent: Option<Extent>

    ghost predicate Valid()
      reads this
    {
      4.0 <= width <= 180.0
    }

    /** The initial view: centred on Wisconsin, 8 degrees wide, no map stitched yet. */
    constructor()
      ensures clon == -89.0 && clat == 44.2 && width == 8.0
      ensures lastBounds == None && shownExtent == None
      ensures Valid()
    {
      clon, clat, width := -89.0, 44.2, 8.0;
      lastBounds, shownExtent := None, None;
    }

    /**
     * Frame `i`: the path drawn so far and the dot, then one easing step of
     * the camera toward the target of the current point, then the map
     * refresh. `lastBounds` and the map on screen change only when a
     * refresh succeeds, and only a successful refresh saves tiles. The view
     * keeps a width of at least 4 degrees, so choosing its zoom never
     * divides by zero.
     */
    method Update(i: nat, lons: seq<real>, lats: seq<real>, tr: Transcendentals,
                  cache: TileCache, fetch: TileKey -> Option<Tile>)
      returns (path: seq<Vertex>, dot: Point, refreshed: bool)
      requires Valid() && i < |lons| == |lats|
      modifies this, cache
      ensures Valid()
      ensures path == DrawnPath(lons, lats, i + 1)
      ensures dot == Point(lons[i], lats[i])
      ensures var t := TargetFor(lons[i], lats[i]);
        && width == Blend(old(width), t.width)
        && clon == Blend(Wrap(t.lon, old(clon)), t.lon)
        && clat == Blend(old(clat), t.lat)
      ensures refreshed == NeedsRefresh(i, old(lastBounds), Rounded(ViewOf(clon, clat, width)))
      ensures var m := MapFor(tr, ViewOf(clon, clat, width), MapWidthPx);
        && lastBounds == (if refreshed && m.Success? then Some(Rounded(ViewOf(clon, clat, width))) else old(lastBounds))
        && shownExtent == (if refreshed && m.Success? then Some(m.value.extent) else old(shownExtent))
      ensures var view := ViewOf(clon, clat, width);
        ChooseZoom(tr, view.minLon, view.maxLon, MapWidthPx).Success?
      ensures var m := MapFor(tr, ViewOf(clon, clat, width), MapWidthPx);
        refreshed && m.Success? ==> Filled(old(cache.stored), cache.stored, fetch, m.value.range)
      ensures !(refreshed && MapFor(tr, ViewOf(clon, clat, width), MapWidthPx).Success?) ==> cache.stored == old(cache.stored)
      ensures forall k :: TileFor(cache.stored, fetch, k) == TileFor(old(cache.stored), fetch, k)
    {
      path := DrawnPath(lons, lats, i + 1);
      dot := Point(lons[i], lats[i]);

      var target := TargetFor(lons[i], lats[i]);
      TargetWidthBounds(lons[i], lats[i]);
      var cw, c := width, Wrap(target.lon, clon);
      width := Blend(cw, target.width);
      clon := Blend(c, target.lon);
      clat := Blend(clat, target.lat);

      var view := ViewOf(clon, clat, width);
      var current := Rounded(view);
      refreshed := NeedsRefresh(i, lastBounds, current);
      if refreshed {
        var m, canvas := GetMapForBounds(tr, view, MapWidthPx, cache, fetch);
        if m.Success? {
          shownExtent := Some(m.value.extent);
          lastBounds := Some(current);
        }
      }
    }
  }
}
