# Travel timeline visualizer and platebook CSV reader, in Dafny

This project models the core of a travel-timeline video generator.
The generator reads a location-history export and extracts a time-ordered list of samples from it.
It paces an animation over those samples, keeping one frame per step of a "perceived duration" curve.
For every frame it moves a camera and draws the path travelled so far.
It shows a map stitched from Web-Mercator tiles behind the path.
The project also models the CSV reader of the platebook generator, which turns a published spreadsheet into a list of lessons.

The model follows the code module by module:

- `Text` holds the Python string operations the code relies on: `strip`, `split`, `replace`, and `int` on a string.
- `Lessons` models `parse_csv_to_lessons`, as a loop method proved equal to a specification function. It also gives a writer that the reader undoes.
- `Geo` models `parse_geo`, and the identity case of `slerp`.
- `Samples` models the stable sort by time and the deduplication.
- `Extraction` models `extract_raw_points`, with one loop method per loop of the code.
- `Pacing` models `prepare_animation_data`: the curve loop, a binary-search `searchsorted`, and the frame loop.
- `Tiles` models `deg2num`/`num2deg` (longitude part), `get_map_for_bounds`, and the `get_tile` cache.
  - The cache is a class whose `stored` map is updated in place.
  - Stitching fills an `array2` of tiles.
- `Camera` models the `update` closure. It is a class holding the camera's centre and width, the last rounded bounds, and the extent of the map on screen.

Floating-point library functions are function-valued fields of a `Transcendentals` value passed as a parameter: `sqrt`, `log2`, the Mercator row fraction and its inverse, and the `slerp` arc.
`dateutil.parser.parse` and `float()` are carried the same way, in a `Parsers` value.
A property that needs a law of one of these (for example that `sqrt` is non-negative) states that law as a precondition.
All arithmetic is on exact reals and unbounded integers.

A hop weighs 3.5 per degree travelled plus one per hour elapsed, so a hop of an hour or more weighs at least 1 whatever its length (`Pacing.HourLongHopAboveFloor`), well above the 0.3 floor.

## Model

| member | source | states |
|---|---|---|
| Lessons.ParseCsvToLessons | platebook_from_sheets.py:27-45 | the loop over the data lines returns exactly `ParseCsv`: the lessons of the record lines in order, or the first error |
| Lessons.ParseSucceeds | platebook_from_sheets.py:33-43 | the parse succeeds iff no data line is a record whose first field `int()` rejects; the lessons are then those of the record lines, in order |
| Lessons.ParseFails | platebook_from_sheets.py:37-40 | a failed parse reports the first field of the first aborting line, and no earlier line aborts |
| Lessons.AbortingLine | platebook_from_sheets.py:34-40 | a line aborts iff it is a non-blank line of at least three fields whose first field does not parse as an integer |
| Lessons.CollectSucceeds | platebook_from_sheets.py:33-43 | collecting per-line outcomes succeeds iff none aborts, and then yields the kept lessons |
| Lessons.CollectFails | platebook_from_sheets.py:33-43 | a failed collection carries the error of the first aborting outcome |
| Lessons.FirstBadLineFails | platebook_from_sheets.py:33-43 | a bad plate number after non-aborting lines fails the parse whatever follows |
| Lessons.Cleaned | platebook_from_sheets.py:41-42 | a date or title field after `strip` and quote removal contains no double quote and is no longer than the field |
| Lessons.NoQuotesInLessons | platebook_from_sheets.py:41-42 | no date and no title of a parsed lesson contains a double quote |
| Lessons.AtMostOneLessonPerLine | platebook_from_sheets.py:33-43 | there are at most as many lessons as lines after the header |
| Lessons.HeaderOnlyYieldsNothing | platebook_from_sheets.py:30-33 | text whose stripped form has no newline (empty, blank or header only) gives no lessons |
| Lessons.NonRecordIgnored | platebook_from_sheets.py:34-38 | a blank line or a line with fewer than three fields can be removed without changing the result |
| Lessons.ExtraFieldsIgnored | platebook_from_sheets.py:37-43 | columns after the third never change a line's outcome |
| Lessons.FieldsRoundTrip | platebook_from_sheets.py:40-42 | the printed plate number, a plain date and a plain title convert back to the same lesson |
| Lessons.LineRoundTrip | platebook_from_sheets.py:37-43 | a lesson written as a CSV line reads back as that lesson |
| Lessons.CsvRoundTrip | platebook_from_sheets.py:27-45 | a header line followed by formatted lessons parses back to exactly those lessons |
| Text.Strip | platebook_from_sheets.py:30 | `strip()` leaves no white space at either end, never lengthens, and gives "" iff the text is all white space |
| Text.StripSlice | platebook_from_sheets.py:30 | `strip()` is the slice of the text between a white-space prefix and a white-space suffix |
| Text.StripTrimmed | platebook_from_sheets.py:34 | `strip()` leaves text without surrounding white space unchanged |
| Text.JoinSplit | platebook_from_sheets.py:37 | joining the pieces of `split(sep)` gives back the text, and there is one more piece than separators |
| Text.SplitJoin | platebook_from_sheets.py:30 | splitting pieces joined with a separator they do not contain gives the pieces back |
| Text.SplitAppend | platebook_from_sheets.py:37 | splitting `a + sep + b` gives the pieces of `a` followed by those of `b` |
| Text.RemoveAll | platebook_from_sheets.py:41-42 | `replace(c, '')` leaves no `c`, keeps only characters of the input, and shortens by the number of `c` |
| Text.RemoveAllJoinsPieces | platebook_from_sheets.py:41-42 | `replace(c, '')` equals `''.join(s.split(c))`: the other characters, in order |
| Text.ParseShowInt | platebook_from_sheets.py:40 | `int(str(n)) == n` for every integer |
| Geo.ParseGeoShape | timeline_visualizer.py:186-193 | a value `parse_geo` accepts starts with `geo:`, has exactly one comma after it, and both pieces parse as numbers giving the latitude and the longitude |
| Geo.ParseShowGeo | timeline_visualizer.py:186-193 | `geo:lat,lon` printed from a position parses back to that position |
| Geo.Slerp | timeline_visualizer.py:148-151 | interpolating between a point and itself gives that point |
| Samples.SortByTimeSorted | timeline_visualizer.py:242 | the sorted samples are in time order |
| Samples.SortByTimePermutes | timeline_visualizer.py:242 | the sort keeps every sample exactly as often as it occurred |
| Samples.SortByTimeStable | timeline_visualizer.py:242 | samples with equal times keep their relative order |
| Samples.SubsequenceAtTime | timeline_visualizer.py:242-257 | deleting samples keeps the relative order of those sharing a time |
| Samples.Dedup | timeline_visualizer.py:245-255 | deduplication keeps the first sample, never lengthens, and keeps only input samples |
| Samples.DedupStep | timeline_visualizer.py:249-255 | a new sample is dropped iff it has the position of the last retained sample and comes less than 10 seconds after it |
| Samples.DedupSubsequence | timeline_visualizer.py:245-255 | the result is the input with some samples deleted, order kept |
| Samples.DedupNoNearNeighbours | timeline_visualizer.py:249-255 | no retained sample repeats its retained predecessor |
| Samples.DedupSorted | timeline_visualizer.py:242-255 | deduplicating a time-ordered list leaves it in time order |
| Samples.DedupCovers | timeline_visualizer.py:249-255 | every input sample is retained or repeats a retained sample |
| Extraction.ExtractRawPoints | timeline_visualizer.py:195-257 | the fragment loop, the sort and the deduplication loop return exactly `Extract` |
| Extraction.EmitFragment | timeline_visualizer.py:197-240 | one fragment gives visit, raw path, activity start and end, then timeline samples, or its first error |
| Extraction.EmitRawPath | timeline_visualizer.py:218-227 | the raw-path loop returns `RawPathSamples` |
| Extraction.RawPathSamples | timeline_visualizer.py:218-227 | the raw path fails iff some point lacks a coordinate; otherwise one sample per point, point i stamped (i + 1)/(n + 1) of the way through the activity |
| Extraction.RawPathTimeInside | timeline_visualizer.py:225-226 | for an activity of positive duration every raw-path time lies strictly between start and end |
| Extraction.RawPathTimeIncreasing | timeline_visualizer.py:225-226 | later raw-path points get strictly later times |
| Extraction.EmitTimelinePath | timeline_visualizer.py:235-240 | the timeline-path loop returns `TimelineSamples` |
| Extraction.TimelineFailureSticks | timeline_visualizer.py:235-240 | once a timeline point has failed, later points do not matter |
| Extraction.TimelineOffset | timeline_visualizer.py:236-240 | a point `geo:lat,lon` with an integer offset m becomes a sample m minutes after the start |
| Extraction.SkippedFragment | timeline_visualizer.py:198-201 | a fragment without a start time, or starting in another year, contributes nothing |
| Extraction.SkippedFragmentIgnored | timeline_visualizer.py:197-201 | removing such a fragment does not change the result |
| Extraction.BadTimestampAborts | timeline_visualizer.py:198-200 | a start time the parser rejects aborts the whole extraction, whatever follows |
| Extraction.GatherFailureSticks | timeline_visualizer.py:197-240 | once a fragment has failed, later fragments do not matter |
| Extraction.RemoveNearDuplicates | timeline_visualizer.py:244-257 | the deduplication loop, comparing with the last retained sample, returns `Dedup` |
| Extraction.ExtractOrdered | timeline_visualizer.py:242-257 | the extracted samples are in time order and none repeats its retained predecessor |
| Extraction.ExtractKeepsSamples | timeline_visualizer.py:242-257 | the output is a subsequence of the sorted samples, every emitted sample survives or repeats a survivor, and a non-empty input gives a non-empty output |
| Extraction.ExtractKeepsEmissionOrder | timeline_visualizer.py:242-257 | samples stamped with the same time come out in the order they were emitted, some possibly removed as near-duplicates |
| Pacing.StepWeight | timeline_visualizer.py:269-275 | every hop weighs at least 0.3 |
| Pacing.HourLongHopAboveFloor | timeline_visualizer.py:273-275 | a hop of an hour or more weighs at least 1 |
| Pacing.Curve | timeline_visualizer.py:266-277 | the perceived-duration curve has one entry per sample, starts at 0 and climbs by at least 0.3 per hop |
| Pacing.CurveSteps | timeline_visualizer.py:268-277 | each curve entry is the previous one plus the weight of the hop ending there |
| Pacing.CurveIncreasing | timeline_visualizer.py:275-277 | a later entry exceeds an earlier one by at least 0.3 per hop between them |
| Pacing.PerceivedDuration | timeline_visualizer.py:266-277 | the curve loop returns `Curve` |
| Pacing.FirstAtLeast | timeline_visualizer.py:288 | the index of the first entry not below x: every earlier entry is below x, and the entry there (if any) is not |
| Pacing.FirstAtLeastAt | timeline_visualizer.py:288 | that characterisation determines the index uniquely |
| Pacing.SearchSortedLeft | timeline_visualizer.py:288 | a binary search on a non-decreasing array returns the first index whose entry is at least x, as `searchsorted` does |
| Pacing.FrameWeightRange | timeline_visualizer.py:281 | every linspace weight lies between 0 and the total |
| Pacing.LastFrameWeight | timeline_visualizer.py:281 | the last linspace weight is the total |
| Pacing.NextFrame | timeline_visualizer.py:287-311 | one iteration of the frame loop produces `FrameAt` for its weight |
| Pacing.PrepareAnimationData | timeline_visualizer.py:263-317 | no samples give no frames; otherwise exactly `totalFrames` frames, frame k being `FrameAt` for the k-th linspace weight |
| Pacing.FirstFrame | timeline_visualizer.py:288-291 | weight 0 shows the first sample at its time |
| Pacing.WeightsStayOnCurve | timeline_visualizer.py:281-294 | no weight up to the total selects the "after the last sample" branch |
| Pacing.BracketFraction | timeline_visualizer.py:295-311 | inside a bracket the weight lies after its start and at or before its end, the fraction is in (0, 1], and the displayed time lies between the two samples' times |
| Pacing.BetweenTimes | timeline_visualizer.py:309-311 | the interpolated time lies between the times of the hop's two samples |
| Pacing.BetweenAtEnd | timeline_visualizer.py:301-311 | at fraction 1 a straight-line hop shows its end sample at its time |
| Pacing.LinearExactlyForShortHops | timeline_visualizer.py:301-302 | with a true square root, the straight-line branch is taken iff the squared distance is at most 1 |
| Pacing.BracketEnd | timeline_visualizer.py:295-311 | a weight exactly on the end of a straight-line bracket shows that bracket's last sample |
| Pacing.LastFrame | timeline_visualizer.py:281-311 | the last frame shows the last sample at its time, when the last hop is straight |
| Numerics.Trunc | timeline_visualizer.py:64 | `int()` of a float truncates toward zero: it is within one of x, on the side of zero |
| Numerics.RoundTenthIdempotent | timeline_visualizer.py:460-461 | rounding to one decimal twice is rounding once |
| Tiles.ChooseZoom | timeline_visualizer.py:99-103 | a zero span raises ZeroDivisionError (and only a zero span); a positive span and width give a zoom in [2, 18] |
| Tiles.ChooseZoomMonotone | timeline_visualizer.py:99-103 | for a non-decreasing `log2`, a wider span never gets a higher zoom |
| Tiles.XTileWithinGrid | timeline_visualizer.py:60-66 | a longitude in [-180, 180] maps to a column in [0, 2^zoom] |
| Tiles.XTileBrackets | timeline_visualizer.py:60-74 | `num2deg` of the column `deg2num` gives is not east of the longitude, and the next column's edge is east of it |
| Tiles.LastTileEdge | timeline_visualizer.py:68-74 | column 2^zoom starts at longitude 180 |
| Tiles.RangeAt | timeline_visualizer.py:106-114 | the clamped range lies inside the 2^zoom grid; its first column is the column of the minimum longitude unless that is negative, its last column that of the maximum longitude unless that is past the grid |
| Tiles.ExtentOf | timeline_visualizer.py:138-141 | the extent's west and east are the `num2deg` longitudes of the range's first column and the column past its last |
| Tiles.Stitched | timeline_visualizer.py:126-128 | stitching succeeds iff both tile counts are non-negative (`Image.new` refuses a negative size) |
| Tiles.GuardAsWrittenNeverRecovers | timeline_visualizer.py:120-123 | as written, a view needing more than 100 tiles at the chosen zoom always ends in RecursionError |
| Tiles.GuardAsWrittenFailsOnTallView | timeline_visualizer.py:96-123 | an 8-by-160-degree view at 1600 pixels needs more than 100 tiles and fails at every recursion limit (with the linear row stand-in of the lemma, 7 × 228 tiles; with Mercator rows, 7 × 200) |
| Tiles.FitZoom | timeline_visualizer.py:120-123 | the corrected guard returns `RangeAt` at the highest zoom not above the starting zoom whose range has at most 100 tiles (not below 2 when the starting zoom is not); its only error is TooManyTiles |
| Tiles.LowestZoomFits | timeline_visualizer.py:110-123 | at zoom 2 more than 100 tiles happens only when both tile counts are negative |
| Tiles.FitZoomFailsOnlyWhenInverted | timeline_visualizer.py:120-123 | the corrected guard gives up only for an inverted request |
| Tiles.MapFor | timeline_visualizer.py:96-142 | a corrected call that succeeds stitches at most 100 tiles with non-negative sizes, the range being `RangeAt` at the highest zoom not above the chosen one that fits, in [2, 18]; a zero span raises ZeroDivisionError |
| Tiles.RangeCoversLongitudes | timeline_visualizer.py:106-114 | for longitudes in [-180, 180] the clamped columns span the requested longitudes |
| Tiles.ExtentCoversLongitudes | timeline_visualizer.py:137-141 | the stitched image's west and east edges enclose the requested longitudes |
| Tiles.TileCache.GetTile | timeline_visualizer.py:76-94 | a cached tile is returned unchanged; a fetched tile is saved and returned; a failed fetch gives the grey placeholder and saves nothing; no address ever changes the tile it shows |
| Tiles.PasteOffsetsInside | timeline_visualizer.py:126-135 | every tile of the range is pasted wholly inside the image |
| Tiles.PasteOffsetsDistinct | timeline_visualizer.py:133-135 | no two tiles are pasted at the same offset |
| Tiles.PasteOffsetOfCell | timeline_visualizer.py:126-135 | the cell (i, j) of the stitched canvas, holding tile (x_min + i, y_min + j), is the one pasted at pixel (256 i, 256 j) |
| Tiles.Stitch | timeline_visualizer.py:126-135 | every cell of the image holds the tile `get_tile` gives for its address; afterwards the cache holds what it held plus each tile of the range that was not cached and that the server returned, and nothing else |
| Tiles.LowerZoom | timeline_visualizer.py:120-123 | the zoom-lowering loop returns `FitZoom` |
| Tiles.GetMapForBounds | timeline_visualizer.py:96-142 | the corrected call returns `MapFor`; on success an image showing every tile of the range and a cache filled as by `Stitch`; a failure leaves the cache untouched |
| Camera.FirstMatch | timeline_visualizer.py:429-436 | the first region holding the point, if any, every earlier region not holding it; None iff no region holds it |
| Camera.TargetCases | timeline_visualizer.py:429-436 | Wisconsin gives (-89, 44.2, 8), else Korea gives (127, 36, 4), else the point itself at width 180 |
| Camera.TargetWidthBounds | timeline_visualizer.py:429-436 | every target width lies in [4, 180] |
| Camera.Wrap | timeline_visualizer.py:443-444 | the wrapped centre is the centre, or the centre shifted by 360 degrees either way |
| Camera.WrapBringsWithinHalfTurn | timeline_visualizer.py:443-444 | a gap under 540 degrees ends at most 180 wide, strictly under 180 when a shift happened |
| Camera.WrapShiftsOnce | timeline_visualizer.py:443-444 | the shift is applied once: a gap over 540 degrees stays over 180 |
| Camera.Blend | timeline_visualizer.py:447-450 | one easing step stays between the current value and the target |
| Camera.BlendClosesGap | timeline_visualizer.py:447-450 | each step leaves exactly 98% of the remaining gap |
| Camera.ViewOf | timeline_visualizer.py:452-454 | the view is `width` wide and `width * 9/16` tall, centred on the camera |
| Camera.Rounded | timeline_visualizer.py:460-461 | each rounded limit is within 0.05 of the limit |
| Camera.RoundedIdempotent | timeline_visualizer.py:460-463 | rounding rounded limits changes nothing, so a still view compares equal |
| Camera.DrawnPathLength | timeline_visualizer.py:408-418 | the drawn path has one vertex per frame plus one break per date-line jump |
| Camera.DrawnPathPositions | timeline_visualizer.py:408-418 | removing the breaks gives back the frames' positions in order |
| Camera.DrawnPathBreaks | timeline_visualizer.py:411-418 | every break sits between two positions more than 180 degrees of longitude apart, and the path ends at the latest frame |
| Camera.CameraView.constructor | timeline_visualizer.py:393-400 | the initial view is centred at (-89, 44.2), 8 degrees wide, with no map bounds remembered |
| Camera.CameraView.Update | timeline_visualizer.py:402-473 | frame i draws the path of frames 0..i and the dot at frame i; it eases width, wrapped centre and latitude toward the region's target; choosing the zoom never raises, the view being at least 4 degrees wide; it re-stitches every tenth frame or when the rounded view changed; the bounds, the extent and the cache change only when that succeeds, the cache then filled with the fetched tiles of the range |

## Left out

- Reading files, the network, the tile cache directory on disk, printing, drawing with matplotlib, video encoding and argument parsing are not modelled. `fetch` is a deterministic parameter standing for the tile server; the PNG cache files are the `stored` map.
- Floating-point rounding: all arithmetic is on exact reals. The `timedelta` microsecond rounding of offsets is not modelled.
- `dateutil.parser.parse`, `float()`, `math.sqrt`, `math.log2` and the Mercator latitude transform are parameters, not definitions. Comparisons between naive and aware datetimes, which raise, are not modelled.
- `Text.ParseShowInt`: `int()` is modelled for ASCII digits only; Python also accepts other Unicode decimal digits.
- The sort is `list.sort` of the library; it is modelled as the unique stable sort, written as an insertion-sort function, not as the library's algorithm.
- Geo.Slerp: only the case of equal points is modelled. The great-circle arc is the `slerpArc` parameter, and the `allclose` and `omega < 1e-6` shortcuts are folded into it.
- Tiles.RangeAt: the latitude rows are related to the bounds only through the abstract row fraction, so no coverage property is stated for latitudes.
- Pacing.LastFrame: stated only when the last hop is a straight line, because the end point of the great-circle arc is not modelled.
- Camera.CameraView.Update: refreshes through the corrected zoom guard (`Tiles.MapFor`). In the program a view needing more than 100 tiles at the chosen zoom ends in RecursionError, which the `except` at timeline_visualizer.py:464-471 catches, keeping the old bounds and map; the model instead shows the map at the highest zoom that fits. Where the over-100 count comes from an inverted range (both counts negative), `Tiles.MapFor` fails too and the model also keeps the old map. The model constrains the camera only by `Valid()` (a width between 4 and 180 degrees); whether the easing toward the three targets ever reaches a non-inverted view needing more than 100 tiles is not established, so the two may never differ in practice.
- Camera.CameraView.Update: the camera state is held as centre and width rather than as the axes' limits. The image pixels are returned by `Tiles.GetMapForBounds` but are not stored on the camera. The date text (`strftime`) is not modelled.
- The first map request before the animation starts (`get_map_for_bounds(-93, -85, 42, 47)`) and the city labels are not modelled; the camera starts with no remembered bounds and no map extent.
- The dictionaries of the export are records with optional fields; `.get()` on a present key of the wrong JSON type is not modelled.
- `platebook.py`, `make_platebook.py`, `platebook_server.py`, `streamlit_app.py` and `plates.js` are not part of this model. Fetching the sheet in `fetch_google_sheet_csv` is I/O.

## Findings

| source | as written | input that shows it | evidently intended | confidence | as-written member | corrected member |
|---|---|---|---|---|---|---|
| timeline_visualizer.py:121-123 | when more than 100 tiles are needed, `zoom -= 1` lowers a local that is never read, and the function calls itself with the same arguments, so it recurses until Python raises RecursionError | bounds (-93, -85, -80, 80) at 1600 pixels: zoom 8, columns 61 to 67 and Mercator rows 28 to 227, so 7 × 200 = 1400 tiles | retry one zoom level lower until at most 100 tiles are needed, stopping at the lowest zoom | not executed | Tiles.GuardAsWrittenFailsOnTallView | Tiles.FitZoom |
