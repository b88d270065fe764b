/**
 * `get_map_for_bounds` with `deg2num`/`num2deg` and the tile cache of
 * `get_tile`: the zoom chosen for a requested view, the clamped range of
 * Web-Mercator tiles that covers it, the guard against fetching more than
 * 100 tiles, where every tile is pasted into the stitched image, and the
 * extent the stitched image covers.
 */
module Tiles {
  import opened Wrappers
  import opened Numerics
  import opened Geo

  const TileSize: int := 256
  const MaxTiles: int := 100
  const MinZoom: int := 2
  const MaxZoom: int := 18

  /** The requested view, in degrees. */
  datatype Bounds = Bounds(minLon: real, maxLon: real, minLat: real, maxLat: real)

  /**
   * What `get_map_for_bounds` raises: `ZeroDivisionError` for a zero span,
   * the math domain error of `log2` for a non-positive argument,
   * `RecursionError` when the guard recurses too deep, the `ValueError` of
   * `Image.new` for a negative size. `TooManyTiles` is raised only by the
   * corrected guard, when even the lowest zoom needs more than 100 tiles.
   */
  datatype MapError = ZeroDivision | MathDomain | RecursionLimit | BadImageSize | TooManyTiles

  /**
   * The zoom for a view `widthPx` pixels wide: the integer part of
   * log2(360 / span * width / 256), clamped to [2, 18].
   */
  function ChooseZoom(tr: Transcendentals, minLon: real, maxLon: real, widthPx: int): (r: Result<nat, MapError>)
    ensures maxLon == minLon <==> r == Failure(ZeroDivision)
    ensures maxLon > minLon && widthPx > 0 ==> r.Success?
    ensures r.Success? ==> MinZoom <= r.value <= MaxZoom
  {
    var span := maxLon - minLon;
    if span == 0.0 then Failure(ZeroDivision)
    else
      var arg := ZoomArgument(span, widthPx);
      if arg <= 0.0 then Failure(MathDomain)
      else Success(ClampInt(Trunc(tr.log2(arg)), MinZoom, MaxZoom) as nat)
  }

  /**
   * A wider span never gets a higher zoom: `log2` only has to be
   * non-decreasing, since the argument shrinks as the span grows and
   * truncation and clamping keep the order.
   */
  lemma ChooseZoomMonotone(tr: Transcendentals, narrowMin: real, narrowMax: real, wideMin: real, wideMax: real, widthPx: int)
    requires forall x, y :: 0.0 < x <= y ==> tr.log2(x) <= tr.log2(y)
    requires 0.0 < narrowMax - narrowMin <= wideMax - wideMin
    requires widthPx > 0
    ensures ChooseZoom(tr, wideMin, wideMax, widthPx).value <= ChooseZoom(tr, narrowMin, narrowMax, widthPx).value
  {
    var a1 := ZoomArgument(narrowMax - narrowMin, widthPx);
    var a2 := ZoomArgument(wideMax - wideMin, widthPx);
    ZoomArgumentShrinks(narrowMax - narrowMin, wideMax - wideMin, widthPx);
    ChooseZoomOf(tr, narrowMin, narrowMax, widthPx);
    ChooseZoomOf(tr, wideMin, wideMax, widthPx);
    TruncMonotone(tr.log2(a2), tr.log2(a1));
  }

  /** The number whose `log2` `get_map_for_bounds` takes. */
  function ZoomArgument(span: real, widthPx: int): real
    requires span != 0.0
  {
    360.0 / span * (widthPx as real) / (TileSize as real)
  }

  lemma ZoomArgumentShrinks(s1: real, s2: real, widthPx: int)
    requires 0.0 < s1 <= s2 && widthPx > 0
    ensures 0.0 < ZoomArgument(s2, widthPx) <= ZoomArgument(s1, widthPx)
  {
    var w := widthPx as real;
    DivideByLarger(360.0, s1, s2);
    ScaleOrder(360.0 / s2, 360.0 / s1, w);
    assert 0.0 < 360.0 / s2 * w;
  }

  lemma ChooseZoomOf(tr: Transcendentals, minLon: real, maxLon: real, widthPx: int)
    requires maxLon - minLon > 0.0 && widthPx > 0
    requires ZoomArgument(maxLon - minLon, widthPx) > 0.0
    ensures ChooseZoom(tr, minLon, maxLon, widthPx)
            == Success(ClampInt(Trunc(tr.log2(ZoomArgument(maxLon - minLon, widthPx))), MinZoom, MaxZoom) as nat)
  {
  }

  // ---------------------------------------------------------------------
  // deg2num / num2deg
  // ---------------------------------------------------------------------

  /** The column of the tile holding longitude `lon` at `zoom` (`deg2num`, x part). */
  function XTile(lon: real, zoom: nat): int {
    Trunc((lon + 180.0) / 360.0 * (Pow2(zoom) as real))
  }

  /** The row of the tile holding latitude `lat` at `zoom` (`deg2num`, y part). */
  function YTile(tr: Transcendentals, lat: real, zoom: nat): int {
    Trunc(tr.yFraction(lat) * (Pow2(zoom) as real))
  }

  /** The longitude of the west edge of tile column `x` (`num2deg`, longitude part). */
  function TileLon(x: int, zoom: nat): real {
    (x as real) / (Pow2(zoom) as real) * 360.0 - 180.0
  }

  /** The latitude of the north edge of tile row `y` (`num2deg`, latitude part). */
  function TileLat(tr: Transcendentals, y: int, zoom: nat): real {
    tr.latOfYFraction((y as real) / (Pow2(zoom) as real))
  }

  lemma EdgeBelow(x: real, lon: real, n: real)
    requires n > 0.0
    requires x <= (lon + 180.0) / 360.0 * n
    ensures x / n * 360.0 - 180.0 <= lon
  {
    var f := (lon + 180.0) / 360.0;
    assert (f * n) / n == f;
    assert x / n <= (f * n) / n;
  }

  lemma EdgeAbove(x: real, lon: real, n: real)
    requires n > 0.0
    requires (lon + 180.0) / 360.0 * n < x
    ensures lon < x / n * 360.0 - 180.0
  {
    var f := (lon + 180.0) / 360.0;
    assert (f * n) / n == f;
    assert (f * n) / n < x / n;
  }

  /** A longitude in [-180, 180] maps to a column between 0 and 2^zoom. */
  lemma XTileWithinGrid(lon: real, zoom: nat)
    requires -180.0 <= lon <= 180.0
    ensures 0 <= XTile(lon, zoom) <= Pow2(zoom)
  {
    var n := Pow2(zoom) as real;
    var f := (lon + 180.0) / 360.0;
    ScaleNonNegative(f, n);
    ScaleBelow(n, f);
    TruncWithin(f * n, Pow2(zoom));
  }

  lemma TruncWithin(v: real, n: nat)
    requires 0.0 <= v <= n as real
    ensures 0 <= Trunc(v) <= n
  {
  }

  /** The west edge of a longitude's column is not east of it. */
  lemma XTileWestEdge(lon: real, zoom: nat)
    requires -180.0 <= lon <= 180.0
    ensures TileLon(XTile(lon, zoom), zoom) <= lon
  {
    var n := Pow2(zoom) as real;
    var f := (lon + 180.0) / 360.0;
    ScaleNonNegative(f, n);
    EdgeBelow(XTile(lon, zoom) as real, lon, n);
  }

  /** The west edge of the next column is east of the longitude. */
  lemma XTileEastEdge(lon: real, zoom: nat)
    requires -180.0 <= lon <= 180.0
    ensures lon < TileLon(XTile(lon, zoom) + 1, zoom)
  {
    var n := Pow2(zoom) as real;
    var f := (lon + 180.0) / 360.0;
    ScaleNonNegative(f, n);
    EdgeAbove((XTile(lon, zoom) + 1) as real, lon, n);
  }

  /**
   * A longitude in [-180, 180] lies in the tile column `deg2num` gives it:
   * not west of its west edge and west of the next column's edge.
   */
  lemma XTileBrackets(lon: real, zoom: nat)
    requires -180.0 <= lon <= 180.0
    ensures 0 <= XTile(lon, zoom) <= Pow2(zoom)
    ensures TileLon(XTile(lon, zoom), zoom) <= lon < TileLon(XTile(lon, zoom) + 1, zoom)
  {
    XTileWithinGrid(lon, zoom);
    XTileWestEdge(lon, zoom);
    XTileEastEdge(lon, zoom);
  }

  /** The west edge of column 2^zoom is the antimeridian at 180 degrees east. */
  lemma LastTileEdge(zoom: nat)
    ensures TileLon(Pow2(zoom), zoom) == 180.0
  {
    Whole(Pow2(zoom) as real);
  }

  // ---------------------------------------------------------------------
  // The tile range
  // ---------------------------------------------------------------------

  datatype TileRange = TileRange(zoom: nat, xMin: int, xMax: int, yMin: int, yMax: int)
  {
    function NumX(): int { xMax - xMin + 1 }
    function NumY(): int { yMax - yMin + 1 }
    function Count(): int { NumX() * NumY() }
  }

  /**
   * The tiles covering `b` at `zoom`, clamped to the 2^zoom × 2^zoom grid:
   * the north-west corner comes from the maximum latitude and the minimum
   * longitude, the south-east corner from the minimum latitude and the
   * maximum longitude.
   */
  function RangeAt(tr: Transcendentals, b: Bounds, zoom: nat): (r: TileRange)
    ensures r.zoom == zoom
    ensures 0 <= r.xMin && r.xMax <= Pow2(zoom) - 1
    ensures 0 <= r.yMin && r.yMax <= Pow2(zoom) - 1
    ensures XTile(b.minLon, zoom) >= 0 ==> r.xMin == XTile(b.minLon, zoom)
    ensures XTile(b.maxLon, zoom) <= Pow2(zoom) - 1 ==> r.xMax == XTile(b.maxLon, zoom)
  {
    var n := Pow2(zoom);
    var xMin := XTile(b.minLon, zoom);
    var yMax := YTile(tr, b.minLat, zoom);
    var xMax := XTile(b.maxLon, zoom);
    var yMin := YTile(tr, b.maxLat, zoom);
    TileRange(zoom,
      if xMin < 0 then 0 else xMin,
      if xMax > n - 1 then n - 1 else xMax,
      if yMin < 0 then 0 else yMin,
      if yMax > n - 1 then n - 1 else yMax)
  }

  /** The longitudes and latitudes the stitched image spans: west, east, south, north. */
  datatype Extent = Extent(west: real, east: real, south: real, north: real)

  /** The extent of the stitched range: its north-west corner and the north-west corner of the tile past its south-east one. */
  function ExtentOf(tr: Transcendentals, r: TileRange): (e: Extent)
    ensures e.west == r.xMin as real / (Pow2(r.zoom) as real) * 360.0 - 180.0
    ensures e.east == (r.xMax + 1) as real / (Pow2(r.zoom) as real) * 360.0 - 180.0
  {
    Extent(TileLon(r.xMin, r.zoom), TileLon(r.xMax + 1, r.zoom),
           TileLat(tr, r.yMax + 1, r.zoom), TileLat(tr, r.yMin, r.zoom))
  }

  /** What a successful call returns besides the pixels: the tiles stitched and the extent they cover. */
  datatype MapView = MapView(range: TileRange, extent: Extent)

  /** The stitching step once the range is settled: `Image.new` refuses a negative size. */
  function Stitched(tr: Transcendentals, r: TileRange): (m: Result<MapView, MapError>)
    ensures m.Success? <==> r.NumX() >= 0 && r.NumY() >= 0
    ensures m.Success? ==> m.value.range == r
  {
    if r.NumX() < 0 || r.NumY() < 0 then Failure(BadImageSize)
    else Success(MapView(r, ExtentOf(tr, r)))
  }

  // ---------------------------------------------------------------------
  // The 100-tile guard, as written
  // ---------------------------------------------------------------------

  /**
   * The guard as written: when more than 100 tiles are needed it lowers a
   * local zoom that nothing reads and calls itself with the same arguments.
   * `depth` is how many more nested calls the interpreter allows before it
   * raises `RecursionError`.
   */
  function MapAsWritten(tr: Transcendentals, b: Bounds, widthPx: int, depth: nat): Result<MapView, MapError>
    decreases depth
  {
    if depth == 0 then Failure(RecursionLimit)
    else
      match ChooseZoom(tr, b.minLon, b.maxLon, widthPx)
      case Failure(e) => Failure(e)
      case Success(zoom) =>
        var r := RangeAt(tr, b, zoom);
        if r.Count() > MaxTiles then MapAsWritten(tr, b, widthPx, depth - 1)
        else Stitched(tr, r)
  }

  /** Whenever the chosen zoom needs more than 100 tiles, the call as written can only end in `RecursionError`. */
  lemma {:induction false} GuardAsWrittenNeverRecovers(tr: Transcendentals, b: Bounds, widthPx: int, depth: nat)
    requires ChooseZoom(tr, b.minLon, b.maxLon, widthPx).Success?
    requires RangeAt(tr, b, ChooseZoom(tr, b.minLon, b.maxLon, widthPx).value).Count() > MaxTiles
    ensures MapAsWritten(tr, b, widthPx, depth) == Failure(RecursionLimit)
  {
    if depth > 0 {
      GuardAsWrittenNeverRecovers(tr, b, widthPx, depth - 1);
    }
  }

  /**
   * A view 8 degrees wide and 160 degrees tall, 1600 pixels wide: at zoom 8
   * it needs far more than 100 tiles, so the call as written fails at every
   * recursion limit. `log2` gives 8 here (log2 of 281.25 is 8.13…). The row
   * fraction is a linear stand-in, decreasing from north to south as the
   * Mercator one does: it gives rows 14 to 241, so 7 × 228 tiles, where the
   * Mercator rows 28 to 227 give 7 × 200.
   */
  lemma GuardAsWrittenFailsOnTallView(depth: nat)
    ensures var tr := Transcendentals(x => x, x => 8.0, lat => (90.0 - lat) / 180.0, f => f, (p, q, t) => p);
      MapAsWritten(tr, Bounds(-93.0, -85.0, -80.0, 80.0), 1600, depth) == Failure(RecursionLimit)
  {
    var tr := Transcendentals(x => x, x => 8.0, lat => (90.0 - lat) / 180.0, f => f, (p, q, t) => p);
    var b := Bounds(-93.0, -85.0, -80.0, 80.0);
    assert ChooseZoom(tr, b.minLon, b.maxLon, 1600) == Success(8);
    assert Pow2(8) == 256 by {
      assert Pow2(4) == 16;
    }
    var r := RangeAt(tr, b, 8);
    assert XTile(-93.0, 8) == 61;
    assert XTile(-85.0, 8) == 67;
    assert YTile(tr, 80.0, 8) == 14;
    assert YTile(tr, -80.0, 8) == 241;
    assert r.NumX() == 7 && r.NumY() == 228;
    GuardAsWrittenNeverRecovers(tr, b, 1600, depth);
  }

  // ---------------------------------------------------------------------
  // The 100-tile guard, corrected
  // ---------------------------------------------------------------------

  /**
   * The evident intent of the guard: retry one zoom level lower while the
   * range needs more than 100 tiles, down to the lowest zoom the clamp
   * allows.
   */
  function FitZoom(tr: Transcendentals, b: Bounds, zoom: nat): (r: Result<TileRange, MapError>)
    ensures r.Success? ==> r.value == RangeAt(tr, b, r.value.zoom)
    ensures r.Success? ==> r.value.Count() <= MaxTiles && r.value.zoom <= zoom
    ensures r.Success? && zoom >= MinZoom ==> r.value.zoom >= MinZoom
    ensures r.Failure? ==> r.error == TooManyTiles
    ensures r.Success? ==> forall z: nat :: r.value.zoom < z <= zoom ==> RangeAt(tr, b, z).Count() > MaxTiles
    decreases zoom
  {
    var range := RangeAt(tr, b, zoom);
    if range.Count() <= MaxTiles then Success(range)
    else if zoom > MinZoom then FitZoom(tr, b, zoom - 1)
    else Failure(TooManyTiles)
  }

  /**
   * `get_map_for_bounds` with the corrected guard. A successful result
   * stitches at most 100 tiles, at a zoom in [2, 18], with non-negative
   * sizes; the zoom is the highest one not above the chosen zoom that fits.
   */
  function MapFor(tr: Transcendentals, b: Bounds, widthPx: int): (m: Result<MapView, MapError>)
    ensures m.Success? ==> ChooseZoom(tr, b.minLon, b.maxLon, widthPx).Success?
    ensures m.Success? ==> m.value.range.zoom <= ChooseZoom(tr, b.minLon, b.maxLon, widthPx).value
    ensures m.Success? ==> forall z: nat :: m.value.range.zoom < z <= ChooseZoom(tr, b.minLon, b.maxLon, widthPx).value ==>
              RangeAt(tr, b, z).Count() > MaxTiles
    ensures m.Success? ==> MinZoom <= m.value.range.zoom <= MaxZoom
    ensures m.Success? ==> 0 <= m.value.range.NumX() && 0 <= m.value.range.NumY()
    ensures m.Success? ==> m.value.range.Count() <= MaxTiles
    ensures m.Success? ==> m.value.range == RangeAt(tr, b, m.value.range.zoom)
    ensures b.maxLon == b.minLon ==> m == Failure(ZeroDivision)
  {
    match ChooseZoom(tr, b.minLon, b.maxLon, widthPx)
    case Failure(e) => Failure(e)
    case Success(zoom) =>
      match FitZoom(tr, b, zoom)
      case Failure(e) => Failure(e)
      case Success(r) => Stitched(tr, r)
  }

  lemma SmallProduct(a: int, b: int)
    requires a <= 4 && b <= 4
    ensures a * b > 100 ==> a < 0 && b < 0
  {
    if a >= 0 && b >= 0 {
      assert a * b <= 4 * b;
    } else if a >= 0 || b >= 0 {
      assert a * b <= 0;
    }
  }

  /** At the lowest zoom the grid is 4 × 4, so more than 100 tiles means both sizes are negative (an inverted request). */
  lemma LowestZoomFits(tr: Transcendentals, b: Bounds)
    ensures var r := RangeAt(tr, b, MinZoom as nat);
      r.Count() > MaxTiles ==> r.NumX() < 0 && r.NumY() < 0
  {
    var r := RangeAt(tr, b, MinZoom as nat);
    assert Pow2(2) == 4;
    SmallProduct(r.NumX(), r.NumY());
  }

  /** The corrected guard gives up only on an inverted request. */
  lemma {:induction false} FitZoomFailsOnlyWhenInverted(tr: Transcendentals, b: Bounds, zoom: nat)
    requires zoom >= MinZoom
    requires FitZoom(tr, b, zoom).Failure?
    ensures RangeAt(tr, b, MinZoom as nat).NumX() < 0 && RangeAt(tr, b, MinZoom as nat).NumY() < 0
  {
    if zoom > MinZoom {
      FitZoomFailsOnlyWhenInverted(tr, b, zoom - 1);
    } else {
      LowestZoomFits(tr, b);
    }
  }

  /** At any zoom, the clamped range spans the longitudes of a request inside [-180, 180]. */
  lemma RangeCoversLongitudes(tr: Transcendentals, b: Bounds, zoom: nat)
    requires -180.0 <= b.minLon <= b.maxLon <= 180.0
    ensures var r := RangeAt(tr, b, zoom);
      TileLon(r.xMin, zoom) <= b.minLon && b.maxLon <= TileLon(r.xMax + 1, zoom)
  {
    var r := RangeAt(tr, b, zoom);
    XTileBrackets(b.minLon, zoom);
    XTileBrackets(b.maxLon, zoom);
    if XTile(b.maxLon, zoom) > Pow2(zoom) - 1 {
      assert r.xMax + 1 == Pow2(zoom);
      LastTileEdge(zoom);
    }
  }

  /**
   * The stitched image spans the requested longitudes: for a request inside
   * [-180, 180] its west edge is not east of the minimum longitude and its
   * east edge not west of the maximum one.
   */
  lemma ExtentCoversLongitudes(tr: Transcendentals, b: Bounds, widthPx: int)
    requires -180.0 <= b.minLon <= b.maxLon <= 180.0
    requires MapFor(tr, b, widthPx).Success?
    ensures var e := MapFor(tr, b, widthPx).value.extent;
      e.west <= b.minLon && b.maxLon <= e.east
  {
    var m := MapFor(tr, b, widthPx).value;
    assert m.extent == ExtentOf(tr, m.range);
    RangeCoversLongitudes(tr, b, m.range.zoom);
  }

  // ---------------------------------------------------------------------
  // Tiles, the tile cache and stitching
  // ---------------------------------------------------------------------

  /** A tile image: the bytes of a fetched PNG, or a solid colour. */
  datatype Tile = Png(data: seq<int>) | Solid(red: int, green: int, blue: int)

  /** The light grey tile drawn where a fetch fails. */
  const Placeholder: Tile := Solid(240, 240, 240)

  /** A tile's address, the `{z}_{x}_{y}` of its cache file. */
  datatype TileKey = TileKey(z: int, x: int, y: int)

  /**
   * The tile `get_tile` returns given the cache's contents: the cached one,
   * else the fetched one, else the placeholder. `fetch` stands for the
   * tile server, None for any failure of the request.
   */
  function TileFor(stored: map<TileKey, Tile>, fetch: TileKey -> Option<Tile>, key: TileKey): Tile {
    if key in stored then stored[key]
    else match fetch(key)
      case Some(t) => t
      case None => Placeholder
  }

  /** The on-disk tile cache: the tiles saved so far, by address. */
  class TileCache {
    var stored: map<TileKey, Tile>

    constructor(initial: map<TileKey, Tile>)
      ensures stored == initial
    {
      stored := initial;
    }

    /**
     * `get_tile`: a cached tile is returned as it is; a fetched tile is
     * saved and returned; a failed fetch returns the placeholder, which is
     * not saved. Either way the cache never changes which tile any address
     * shows.
     */
    method GetTile(key: TileKey, fetch: TileKey -> Option<Tile>) returns (t: Tile)
      modifies this
      ensures t == TileFor(old(stored), fetch, key)
      ensures key in old(stored) ==> stored == old(stored)
      ensures key !in old(stored) && fetch(key).Some? ==> stored == old(stored)[key := fetch(key).value]
      ensures fetch(key).None? ==> stored == old(stored)
      ensures forall k :: TileFor(stored, fetch, k) == TileFor(old(stored), fetch, k)
    {
      if key in stored {
        return stored[key];
      }
      match fetch(key)
      case Some(img) =>
        stored := stored[key := img];
        t := img;
      case None =>
        t := Placeholder;
    }
  }

  /** `key` is the address of a tile of the range `r`. */
  predicate InRange(r: TileRange, key: TileKey) {
    key.z == r.zoom && r.xMin <= key.x <= r.xMax && r.yMin <= key.y <= r.yMax
  }

  /**
   * The cache after every tile of `r` has gone through `get_tile`: what
   * was saved before, plus each tile of the range that was not saved and
   * that the server returned; a failed fetch saves nothing.
   */
  ghost predicate Filled(before: map<TileKey, Tile>, after: map<TileKey, Tile>, fetch: TileKey -> Option<Tile>, r: TileRange) {
    && (forall k :: k in after <==> k in before || (InRange(r, k) && fetch(k).Some?))
    && (forall k :: k in after ==> after[k] == TileFor(before, fetch, k))
  }

  /** Where the tile at (x, y) is pasted: 256 pixels per tile from the range's north-west corner. */
  function PasteOffset(r: TileRange, x: int, y: int): (int, int) {
    ((x - r.xMin) * TileSize, (y - r.yMin) * TileSize)
  }

  /** Every tile of the range is pasted wholly inside the image, and no two at the same place. */
  lemma PasteOffsetsInside(r: TileRange, x: int, y: int)
    requires r.xMin <= x <= r.xMax && r.yMin <= y <= r.yMax
    ensures var (px, py) := PasteOffset(r, x, y);
      0 <= px && px + TileSize <= r.NumX() * TileSize && 0 <= py && py + TileSize <= r.NumY() * TileSize
  {
  }

  lemma PasteOffsetsDistinct(r: TileRange, x1: int, y1: int, x2: int, y2: int)
    requires (x1, y1) != (x2, y2)
    ensures PasteOffset(r, x1, y1) != PasteOffset(r, x2, y2)
  {
    if x1 != x2 {
      assert (x1 - r.xMin) * TileSize != (x2 - r.xMin) * TileSize;
    } else {
      assert (y1 - r.yMin) * TileSize != (y2 - r.yMin) * TileSize;
    }
  }

  /**
   * The cell (i, j) of the canvas `Stitch` fills, which holds the tile at
   * (xMin + i, yMin + j), is the one pasted at pixel (256 i, 256 j).
   */
  lemma PasteOffsetOfCell(r: TileRange, i: int, j: int)
    ensures PasteOffset(r, r.xMin + i, r.yMin + j) == (i * TileSize, j * TileSize)
  {
  }

  /** The image holds, in the cell of each tile of `r`, the tile `get_tile` gives for it with the cache at `stored`. */
  ghost predicate Shows(canvas: array2<Tile>, r: TileRange, stored: map<TileKey, Tile>, fetch: TileKey -> Option<Tile>)
    reads canvas
  {
    && canvas.Length0 == r.NumX() && canvas.Length1 == r.NumY()
    && forall i, j :: 0 <= i < canvas.Length0 && 0 <= j < canvas.Length1 ==>
         canvas[i, j] == TileFor(stored, fetch, TileKey(r.zoom, r.xMin + i, r.yMin + j))
  }

  /**
   * The stitching loops: every tile of the range, fetched through the
   * cache, lands in the cell of the image its paste offset names (the cell
   * times 256 is the pixel offset).
   */
  method Stitch(r: TileRange, cache: TileCache, fetch: TileKey -> Option<Tile>) returns (canvas: array2<Tile>)
    requires r.NumX() >= 0 && r.NumY() >= 0
    modifies cache
    ensures fresh(canvas)
    ensures Shows(canvas, r, old(cache.stored), fetch)
    ensures Filled(old(cache.stored), cache.stored, fetch, r)
    ensures forall k :: TileFor(cache.stored, fetch, k) == TileFor(old(cache.stored), fetch, k)
  {
    canvas := new Tile[r.NumX(), r.NumY()];
    ghost var stored0 := cache.stored;
    for x := r.xMin to r.xMax + 1
      invariant forall k :: k in cache.stored <==> k in stored0 || (Done(r, k, x, r.yMin) && fetch(k).Some?)
      invariant forall k :: k in cache.stored ==> cache.stored[k] == TileFor(stored0, fetch, k)
      invariant forall k :: TileFor(cache.stored, fetch, k) == TileFor(stored0, fetch, k)
      invariant forall i, j :: 0 <= i < x - r.xMin && 0 <= j < canvas.Length1 ==>
                  canvas[i, j] == TileFor(stored0, fetch, TileKey(r.zoom, r.xMin + i, r.yMin + j))
    {
      var col := x - r.xMin;
      for y := r.yMin to r.yMax + 1
        invariant forall k :: k in cache.stored <==> k in stored0 || (Done(r, k, x, y) && fetch(k).Some?)
        invariant forall k :: k in cache.stored ==> cache.stored[k] == TileFor(stored0, fetch, k)
        invariant forall k :: TileFor(cache.stored, fetch, k) == TileFor(stored0, fetch, k)
        invariant forall i, j :: 0 <= i < x - r.xMin && 0 <= j < canvas.Length1 ==>
                    canvas[i, j] == TileFor(stored0, fetch, TileKey(r.zoom, r.xMin + i, r.yMin + j))
        invariant forall j :: 0 <= j < y - r.yMin ==>
                    canvas[col, j] == TileFor(stored0, fetch, TileKey(r.zoom, x, r.yMin + j))
      {
        var tile := cache.GetTile(TileKey(r.zoom, x, y), fetch);
        canvas[col, y - r.yMin] := tile;
      }
    }
  }

  /** The stitching loops have fetched the tiles of `r` before column `x`, and those of column `x` above row `y`. */
  predicate Done(r: TileRange, key: TileKey, x: int, y: int) {
    && key.z == r.zoom && r.xMin <= key.x && r.yMin <= key.y <= r.yMax
    && (key.x < x || (key.x == x && key.y < y))
  }

  /** The corrected guard as a loop: one zoom level lower at a time while the range needs more than 100 tiles. */
  method LowerZoom(tr: Transcendentals, b: Bounds, zoom0: nat) returns (fit: Result<TileRange, MapError>)
    ensures fit == FitZoom(tr, b, zoom0)
  {
    var zoom: nat := zoom0;
    var range := RangeAt(tr, b, zoom);
    while range.Count() > MaxTiles && zoom > MinZoom
      invariant range == RangeAt(tr, b, zoom)
      invariant FitZoom(tr, b, zoom) == FitZoom(tr, b, zoom0)
      decreases zoom
    {
      zoom := zoom - 1;
      range := RangeAt(tr, b, zoom);
    }
    if range.Count() > MaxTiles {
      fit := Failure(TooManyTiles);
    } else {
      fit := Success(range);
    }
  }

  /**
   * `get_map_for_bounds` with the corrected guard: the zoom, the range
   * lowered one zoom level at a time while it needs more than 100 tiles,
   * then the stitched tiles and their extent.
   */
  method GetMapForBounds(tr: Transcendentals, b: Bounds, widthPx: int, cache: TileCache, fetch: TileKey -> Option<Tile>)
    returns (m: Result<MapView, MapError>, canvas: array2<Tile>)
    modifies cache
    ensures m == MapFor(tr, b, widthPx)
    ensures m.Success? ==> Shows(canvas, m.value.range, old(cache.stored), fetch)
    ensures m.Success? ==> Filled(old(cache.stored), cache.stored, fetch, m.value.range)
    ensures m.Failure? ==> cache.stored == old(cache.stored)
    ensures forall k :: TileFor(cache.stored, fetch, k) == TileFor(old(cache.stored), fetch, k)
  {
    canvas := new Tile[0, 0];
    var chosen := ChooseZoom(tr, b.minLon, b.maxLon, widthPx);
    if chosen.Failure? {
      return Failure(chosen.error), canvas;
    }
    var fit := LowerZoom(tr, b, chosen.value);
    if fit.Failure? {
      return Failure(fit.error), canvas;
    }
    var range := fit.value;
    if range.NumX() < 0 || range.NumY() < 0 {
      return Failure(BadImageSize), canvas;
    }
    canvas := Stitch(range, cache, fetch);
    m := Success(MapView(range, ExtentOf(tr, range)));
  }
}
