/**
 * Positions on the map and the `geo:` strings of a location history,
 * with the floating-point library functions the visualizer calls left
 * abstract: they are passed in as values and only the laws a property
 * needs are assumed, as preconditions of that property.
 */
module Geo {
  import opened Wrappers
  import opened Text

  /** A position as the visualizer keeps it: longitude first, in degrees. */
  datatype Point = Point(lon: real, lat: real)

  /** What `parse_geo` returns: latitude first, as written in the string. */
  datatype GeoFix = GeoFix(lat: real, lon: real)

  /**
   * The library functions whose floating-point results are not modelled:
   * `math.sqrt`, `math.log2`, the Web-Mercator row fraction of a latitude
   * (`(1 - asinh(tan(lat)) / pi) / 2`), its inverse (`degrees(atan(sinh(pi * (1 - 2 f))))`)
   * and the great-circle arc of `slerp` between two distinct points.
   */
  datatype Transcendentals = Transcendentals(
    sqrt: real -> real,
    log2: real -> real,
    yFraction: real -> real,
    latOfYFraction: real -> real,
    slerpArc: (Point, Point, real) -> Point)

  /** `dateutil.parser.parse` and `float()`: None where they raise. */
  datatype Parsers = Parsers(timestamp: string -> Option<Instant>, decimal: string -> Option<real>)

  /** A parsed timestamp: its calendar year and its position on the time line in seconds. */
  datatype Instant = Instant(year: int, seconds: real)

  const GeoPrefix: string := "geo:"

  predicate HasGeoPrefix(s: string) {
    |s| >= 4 && s[..4] == GeoPrefix
  }

  /**
   * `parse_geo(s)`: a missing or empty value, a value without the `geo:`
   * prefix, a rest that does not split on `,` into exactly two pieces, or a
   * piece `float()` rejects, all give None.
   */
  function ParseGeo(s: Option<string>, decimal: string -> Option<real>): Option<GeoFix> {
    if s.None? || s.value == [] || !HasGeoPrefix(s.value) then None
    else
      var parts := Split(s.value[4..], ',');
      if |parts| != 2 then None
      else
        match (decimal(parts[0]), decimal(parts[1]))
        case (Some(lat), Some(lon)) => Some(GeoFix(lat, lon))
        case _ => None
  }

  /** A parsed value starts with `geo:` and holds exactly one comma after it, and both pieces are numbers. */
  lemma ParseGeoShape(s: Option<string>, decimal: string -> Option<real>)
    requires ParseGeo(s, decimal).Some?
    ensures s.Some? && HasGeoPrefix(s.value)
    ensures Count(s.value[4..], ',') == 1
    ensures var parts := Split(s.value[4..], ',');
      && decimal(parts[0]) == Some(ParseGeo(s, decimal).value.lat)
      && decimal(parts[1]) == Some(ParseGeo(s, decimal).value.lon)
  {
    JoinSplit(s.value[4..], ',');
  }

  /** The `geo:lat,lon` form of a position, given how numbers are printed. */
  function ShowGeo(fix: GeoFix, show: real -> string): string {
    GeoPrefix + show(fix.lat) + [','] + show(fix.lon)
  }

  /**
   * Printing a position and parsing it back gives the position, whenever
   * `float()` reads back what `show` prints and `show` prints no comma.
   */
  lemma ParseShowGeo(fix: GeoFix, show: real -> string, decimal: string -> Option<real>)
    requires decimal(show(fix.lat)) == Some(fix.lat) && decimal(show(fix.lon)) == Some(fix.lon)
    requires ',' !in show(fix.lat) && ',' !in show(fix.lon)
    ensures ParseGeo(Some(ShowGeo(fix, show)), decimal) == Some(fix)
  {
    var s := ShowGeo(fix, show);
    assert s[..4] == GeoPrefix;
    assert s[4..] == show(fix.lat) + [','] + show(fix.lon);
    SplitAppend(show(fix.lat), ',', show(fix.lon));
    SplitWithoutSeparator(show(fix.lat), ',');
    SplitWithoutSeparator(show(fix.lon), ',');
  }

  /**
   * `slerp(p0, p1, t)`: a point equal to its partner is returned as it is;
   * otherwise the point lies on the great-circle arc, which is not modelled.
   */
  function Slerp(tr: Transcendentals, p0: Point, p1: Point, t: real): (r: Point)
    ensures p0 == p1 ==> r == p0
  {
    if p0 == p1 then p0 else tr.slerpArc(p0, p1, t)
  }
}
