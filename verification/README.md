# MeteoCanada radar and weather rules in Dafny

This project models the computational core of the MeteoCanada Android app. Two revisions of the app live side by side: the first under `com.example.meteocanada`, the second under `dev.isalazy.meteocanada`. The model covers:

- **Tile geometry** (`MapUtils`):
  - the three WMTS tile-matrix tables (radar, base map, city names);
  - the guarded lookups `getTileCoordinatesForBounds` and `getTileLayoutParams`;
  - the projected screen box `getProjectedBounds`;
  - the tile URL builders, including the `ResourceURL` template filling of OGC WMTS 1.0.0 (RESTful encoding);
  - the pull-event parser that extracts radar layers from the capabilities document.
- **Tile placement** (both `RadarMap` revisions):
  - the per-layer row-major tile loops;
  - the pixel offsets of each tile;
  - the layer order and the radar's half transparency;
  - in the second revision, the pinch-and-pan gesture step, which switches zoom level at resolution thresholds and clamps the scale.
- **The radar screen** (second revision's `MainActivity`):
  - timestamp labels from layer identifiers;
  - the prefetch URL list;
  - animation stepping and the start of playback;
  - the start-up, refresh and permission location rules.
- **Weather data**:
  - `WeatherRepository`'s parse of the forecast and city-search responses, over an abstract JSON value that follows `org.json`'s accessors;
  - `WeatherViewModel`'s refresh guard with one fallback fetch, and its search threshold.
- **The first revision's activity**:
  - its two-tier image cache, keyed on disk by `String.hashCode`, which is modelled with 32-bit wrap-around;
  - its fetch with one retry;
  - its weaker feels-like rule.

Conventions:

- Kotlin `Double` is modelled as exact `real`.
- `toInt()` truncates toward zero and saturates at the Int range (`KotlinNum.DoubleToInt`).
- Int `/` and `%` truncate toward zero (`KotlinNum.TruncDiv`, `KotlinNum.TruncRem`).
- Network answers, date parsers, the projection, `roundToInt` and the second revision's resolution table are parameters of the functions that use them.

## Model

| member | source | states |
|---|---|---|
| KotlinNum.DoubleToInt | app/src/main/java/com/example/meteocanada/ui/MapUtils.kt:212-215 | `toInt()`: in Int range, truncation toward zero inside it, saturation at both ends outside |
| KotlinNum.TruncDiv | app/src/main/java/com/example/meteocanada/ui/MapUtils.kt:212-215 | Int division: the quotient brackets the dividend from below for non-negative and from above for negative dividends (rounds toward zero) |
| KotlinNum.TruncRem | app/src/main/java/dev/isalazy/meteocanada/MainActivity.kt:756 | Int remainder: dividend = quotient times divisor plus remainder, remainder takes the dividend's sign and is smaller than the divisor |
| KotlinNum.TruncDivMonotone | app/src/main/java/com/example/meteocanada/ui/MapUtils.kt:212-215 | truncating division by a positive tile size never reverses order |
| KotlinNum.DoubleToIntMonotone | app/src/main/java/com/example/meteocanada/ui/MapUtils.kt:212-215 | `toInt()` never reverses order |
| KotlinText.RemovePrefix | app/src/main/java/dev/isalazy/meteocanada/MainActivity.kt:868 | `removePrefix`: prefix plus result is the input when the prefix is there; otherwise the input is unchanged |
| KotlinText.SubstringBeforeLast | app/src/main/java/dev/isalazy/meteocanada/MainActivity.kt:869 | `substringBeforeLast`: the result, the separator and a tail free of it make the input; no separator gives the whole input |
| KotlinText.SubstringBeforeLastOf | app/src/main/java/dev/isalazy/meteocanada/MainActivity.kt:869 | cutting `a + "_" + b` at its last `_` gives `a` whenever `b` has no `_` |
| KotlinText.ReplaceAll | app/src/main/java/com/example/meteocanada/ui/MapUtils.kt:250-255 | `replace`: a replacement as long as the pattern keeps the text's length, and replacing a pattern by itself returns the text unchanged |
| KotlinText.ReplaceAllAbsent | app/src/main/java/com/example/meteocanada/ui/MapUtils.kt:250-255 | `replace` of a pattern that does not occur returns the text unchanged |
| KotlinText.ReplaceAllOtherToken | app/src/main/java/com/example/meteocanada/ui/MapUtils.kt:250-255 | `replace` of one `{Name}` placeholder passes over a different placeholder untouched |
| KotlinText.NatToStringRoundTrip | app/src/main/java/com/example/meteocanada/ui/MapUtils.kt:254-255 | decimal text of a natural number reads back as that number |
| KotlinText.IntToStringInjective | app/src/main/java/com/example/meteocanada/ui/MapUtils.kt:254-255 | `Int.toString` gives different numbers different texts |
| KotlinText.PadStart | app/src/main/java/com/example/meteocanada/ui/MapUtils.kt:249 | `padStart`: length at least the target, the original at the end, fill characters before it |
| TileMatrices.Lookup | app/src/main/java/com/example/meteocanada/ui/MapUtils.kt:197-207 | a matrix is found exactly for "radar", "base", "text" below 13, 20, 18 levels, and every table entry has positive sizes |
| TileMatrices.TablesValid | app/src/main/java/com/example/meteocanada/ui/MapUtils.kt:40-98 | the radar, base and text tables have 13, 20 and 18 levels, each with positive scale and tile sizes |
| TileMatrices.TileCoordinatesForBounds | app/src/main/java/com/example/meteocanada/ui/MapUtils.kt:194-218 | the (-1,-1,-1,-1) quadruple for an unknown layer or too-high zoom; otherwise columns from min.x/max.x and rows from max.y/min.y (rows count downward) |
| TileMatrices.LayoutParams | app/src/main/java/com/example/meteocanada/ui/MapUtils.kt:266-290 | null under exactly the same conditions; otherwise tile size and origin copied and resolution = scale denominator × 0.00028 |
| TileMatrices.RadarParams | app/src/main/java/com/example/meteocanada/ui/MapUtils.kt:266-290 | the radar parameters at a valid zoom are those of the radar table's entry, with its resolution |
| TileMatrices.ProjectedBounds | app/src/main/java/com/example/meteocanada/ui/MapUtils.kt:225-237 | the box is centred on the projected point and spans width × height radar pixels of that zoom |
| TileMatrices.BoxAround | app/src/main/java/dev/isalazy/meteocanada/ui/composables/RadarMap.kt:122-135 | the second revision's screen box is centred on the projected centre and spans width × height pixels of the given resolution |
| TileMatrices.ColumnMonotone | app/src/main/java/com/example/meteocanada/ui/MapUtils.kt:212-213 | a point further east never lands in an earlier column |
| TileMatrices.RowAntitone | app/src/main/java/com/example/meteocanada/ui/MapUtils.kt:214-215 | a point further north never lands in a later row |
| TileMatrices.TileRangeCovers | app/src/main/java/com/example/meteocanada/ui/MapUtils.kt:209-217 | every point of the box lies in a tile inside the returned range |
| TileMatrices.TileRangeOrdered | app/src/main/java/com/example/meteocanada/ui/MapUtils.kt:209-217 | a box with min ≤ max on both axes gives minTileX ≤ maxTileX and minTileY ≤ maxTileY |
| TileMatrices.LayoutParamsAgreeWithRange | app/src/main/java/com/example/meteocanada/ui/MapUtils.kt:197-217 | the layout parameters are missing exactly when the range is the sentinel, and otherwise define the range |
| TileMatrices.ColumnIsWmtsIndex | app/src/main/java/com/example/meteocanada/ui/MapUtils.kt:212-213 | right of the origin the truncate-then-divide column equals the WMTS tile index floor((x − originX) / (tileWidth × resolution)) |
| TileMatrices.RowIsWmtsIndex | app/src/main/java/com/example/meteocanada/ui/MapUtils.kt:214-215 | below the top edge the row equals the WMTS index floor((originY − y) / (tileHeight × resolution)) |
| TileMatrices.ColumnLeftOfOrigin | app/src/main/java/com/example/meteocanada/ui/MapUtils.kt:212-213 | less than one tile left of the origin, truncation gives column 0 where the WMTS floor gives −1 |
| TileMatrices.RangeNotClamped | app/src/main/java/com/example/meteocanada/ui/MapUtils.kt:212-217 | indices are not clamped to the matrix size: at radar zoom 0 (a 1×1 matrix) a box reaching 1024 pixels east gives column 2 |
| TileMatrices.ProjectedBoundsSpan | app/src/main/java/com/example/meteocanada/ui/MapUtils.kt:229-237 | with non-negative sizes the box contains its centre and is width by height pixels |
| TileMatrices.RadarTableRegular | app/src/main/java/com/example/meteocanada/ui/MapUtils.kt:40-54 | radar levels grow strictly finer and share one origin and tile size |
| TileMatrices.BaseTableRegular | app/src/main/java/com/example/meteocanada/ui/MapUtils.kt:56-77 | base-map levels grow strictly finer and share one origin and tile size |
| TileMatrices.TextTableRegular | app/src/main/java/com/example/meteocanada/ui/MapUtils.kt:79-98 | city-name levels grow strictly finer and share one origin and tile size |
| TileMatrices.BaseAndTextAlign | app/src/main/java/com/example/meteocanada/ui/MapUtils.kt:56-98 | the base map and city names use the same resolution at every shared zoom and the same origin, so their tiles line up |
| TileUrls.BaseMapUrl | app/src/main/java/com/example/meteocanada/ui/MapUtils.kt:240-242 | every base-map URL starts with the base-map WMTS tile prefix |
| TileUrls.CityNamesMapUrl | app/src/main/java/com/example/meteocanada/ui/MapUtils.kt:244-246 | every city-name URL starts with the city-name WMTS tile prefix |
| TileUrls.ZoomString | app/src/main/java/com/example/meteocanada/ui/MapUtils.kt:249 | the zoom text is at least two characters: a 0 then the digit below 10, the plain decimal from 10 up |
| TileUrls.ReplaceField | app/src/main/java/com/example/meteocanada/ui/MapUtils.kt:251-255 | one `replace` call turns exactly the placeholders of its field into the value, leaving other text alone |
| TileUrls.FiveSubstitutionsFill | app/src/main/java/com/example/meteocanada/ui/MapUtils.kt:250-255 | the five `replace` calls together fill every placeholder of the template |
| TileUrls.RadarMapUrlFillsTemplate | app/src/main/java/com/example/meteocanada/ui/MapUtils.kt:248-256 | the radar URL is the template with style, tile-matrix set, padded zoom, column and row filled in |
| TileUrls.RadarMapUrl | app/src/main/java/com/example/meteocanada/ui/MapUtils.kt:248-256 | a template with none of the five placeholders is returned unchanged |
| TileUrls.ZoomStringNamesRadarMatrix | app/src/main/java/com/example/meteocanada/ui/MapUtils.kt:41-53 | the zoom text of a radar URL is the identifier ("00" to "12") of the radar matrix at that zoom |
| TileUrls.TilePathInjective | app/src/main/java/com/example/meteocanada/ui/MapUtils.kt:240-246 | the `zoom/row/column` tail of the base and city URLs names one tile |
| TileUrls.BaseMapUrlInjective | app/src/main/java/com/example/meteocanada/ui/MapUtils.kt:240-242 | different base-map tiles are fetched from different URLs |
| TileUrls.CityNamesMapUrlInjective | app/src/main/java/com/example/meteocanada/ui/MapUtils.kt:244-246 | different city-name tiles are fetched from different URLs |
| Capabilities.OnStartEffect | app/src/main/java/com/example/meteocanada/ui/MapUtils.kt:131-149 | a start tag becomes the current tag; `Layer` opens a layer with every field cleared; `Style`, `TileMatrixSetLink` and the `ResourceURL` template take effect only inside a layer; nothing is collected |
| Capabilities.OnTextEffect | app/src/main/java/com/example/meteocanada/ui/MapUtils.kt:150-168 | non-blank text inside a layer sets the style under `Style`, otherwise the identifier, for `ows:Identifier`, and the tile matrix set for `TileMatrixSet` inside its link; no other field changes |
| Capabilities.OnEndEffect | app/src/main/java/com/example/meteocanada/ui/MapUtils.kt:169-181 | an end tag clears the current tag and leaves the element it closes; `</Layer>` collects the layer exactly when it is complete and radar-prefixed; the fields read are kept |
| Capabilities.Step | app/src/main/java/com/example/meteocanada/ui/MapUtils.kt:129-183 | only a closing `Layer` with the radar prefix and all four fields adds a layer; every other event leaves the list alone |
| Capabilities.RunOnlyAppends | app/src/main/java/com/example/meteocanada/ui/MapUtils.kt:129-184 | the loop only appends to the collected layers, at most one per event |
| Capabilities.RunKeepsRadarLayers | app/src/main/java/com/example/meteocanada/ui/MapUtils.kt:172-174 | whatever the events, only radar-prefixed layers are collected |
| Capabilities.Insert | app/src/main/java/com/example/meteocanada/ui/MapUtils.kt:186 | inserting into an identifier-sorted list keeps it sorted and adds exactly the one layer (a multiset equation) |
| Capabilities.InsertStable | app/src/main/java/com/example/meteocanada/ui/MapUtils.kt:186 | an inserted layer lands after every layer with its identifier, and the order among those layers is unchanged |
| Capabilities.SortById | app/src/main/java/com/example/meteocanada/ui/MapUtils.kt:186 | `sortedBy { identifier }`: sorted result, same layers (a permutation), and stable: layers sharing an identifier keep their relative order |
| Capabilities.RadarLayersOf | app/src/main/java/com/example/meteocanada/ui/MapUtils.kt:107-190 | `getRadarLayers`: empty on any failure; otherwise the collected layers, all radar-prefixed, stably sorted by identifier |
| Capabilities.BodyRun | app/src/main/java/com/example/meteocanada/ui/MapUtils.kt:141-168 | inside a layer the identifier, style, tile-matrix-set and template elements each set only their field, non-blank text only |
| Capabilities.LayerRun | app/src/main/java/com/example/meteocanada/ui/MapUtils.kt:134-140 | one `Layer` element resets the fields first and adds exactly the layer it declares completely |
| Capabilities.DocumentRun | app/src/main/java/com/example/meteocanada/ui/MapUtils.kt:129-184 | a sequence of `Layer` elements adds exactly their complete radar layers, in document order |
| Capabilities.ParseDocument | app/src/main/java/com/example/meteocanada/ui/MapUtils.kt:107-190 | end to end: parsing a document gives its complete radar layers sorted by identifier |
| TileRender.RowTiles | app/src/main/java/com/example/meteocanada/ui/composables/RadarMap.kt:37 | one row of the inner loop: the tiles from minX to maxX in order |
| TileRender.RowsLength | app/src/main/java/com/example/meteocanada/ui/composables/RadarMap.kt:36-37 | the loops visit rows × columns tiles |
| TileRender.RowsMembers | app/src/main/java/com/example/meteocanada/ui/composables/RadarMap.kt:36-37 | a tile is visited exactly when it lies in the inclusive rectangle |
| TileRender.RowsOrder | app/src/main/java/com/example/meteocanada/ui/composables/RadarMap.kt:36-37 | tiles come row by row, columns left to right inside a row |
| TileRender.GridShape | app/src/main/java/dev/isalazy/meteocanada/ui/composables/RadarMap.kt:177-178 | the visited tiles are exactly the inclusive rectangle, in row-major order, rows × columns of them |
| TileRender.OffsetLeft | app/src/main/java/dev/isalazy/meteocanada/ui/composables/RadarMap.kt:189 | the unrounded left offset is the pixel distance from the box's left edge to the projected x of the tile column's left edge |
| TileRender.OffsetTop | app/src/main/java/dev/isalazy/meteocanada/ui/composables/RadarMap.kt:190 | the unrounded top offset is the pixel distance from the box's top edge down to the projected y of the tile row's top edge |
| TileRender.OffsetsAbut | app/src/main/java/dev/isalazy/meteocanada/ui/composables/RadarMap.kt:189-190 | neighbouring columns and rows differ by exactly one tile size before rounding |
| TileRender.PointLandsAtScreenPosition | app/src/main/java/dev/isalazy/meteocanada/ui/composables/RadarMap.kt:189-190 | a projected point inside a tile is drawn at its pixel distance from the box's top-left corner, whatever the layer |
| TileRender.LayerDraws | app/src/main/java/dev/isalazy/meteocanada/ui/composables/RadarMap.kt:177-198 | one image per tile, in tile order, each with the layer's alpha, the URL of its own tile, and its offsets rounded by the given rounding |
| TileRender.DrawLayer | app/src/main/java/com/example/meteocanada/ui/composables/RadarMap.kt:35-49 | a layer without layout parameters is skipped entirely; otherwise its images are its tile range in order, each placed at its own tile's URL and rounded offsets |
| TileRender.DrawsOfAppend | app/src/main/java/com/example/meteocanada/ui/composables/RadarMap.kt:35-81 | the draws of a layer in consecutive blocks are those of each block in turn |
| TileRender.DrawsOfOneLayer | app/src/main/java/com/example/meteocanada/ui/composables/RadarMap.kt:35-49 | a single-layer block contributes all its draws to its own layer and none to another |
| TileRender.DrawsOfBlocks | app/src/main/java/com/example/meteocanada/ui/composables/RadarMap.kt:35-81 | of three blocks each drawing one distinct layer, a layer's draws are exactly its own block |
| TileRender.Blocks | app/src/main/java/com/example/meteocanada/ui/composables/RadarMap.kt:35-81 | three single-layer blocks in rank order are ordered, and only the radar block is half transparent |
| TileRender.DrawLayerAlpha | app/src/main/java/com/example/meteocanada/ui/composables/RadarMap.kt:77 | a drawn layer is half transparent exactly when it is the radar |
| TileRender.LegacyRadarMap | app/src/main/java/com/example/meteocanada/ui/composables/RadarMap.kt:35-81 | the first revision draws base map, then city names, then radar; only radar is half transparent; every image shows its own tile's URL at offsets truncated by `toInt()` from the projected box |
| TileRender.LegacyRadarMapLayer | app/src/main/java/com/example/meteocanada/ui/composables/RadarMap.kt:35-81 | each layer of the first revision is exactly that layer drawn alone over the projected box with truncated offsets |
| TileRender.LegacyRadarMapTiles | app/src/main/java/com/example/meteocanada/ui/composables/RadarMap.kt:35-81 | each layer of the first revision visits exactly its tile range of the projected box |
| TileRender.MapContent | app/src/main/java/dev/isalazy/meteocanada/ui/composables/RadarMap.kt:117-165 | nothing without radar parameters; otherwise base map, radar, city names in that order; only radar half transparent; every image shows its own tile's URL at rounded offsets from the box around the centre |
| TileRender.MapContentLayer | app/src/main/java/dev/isalazy/meteocanada/ui/composables/RadarMap.kt:127-165 | each layer of the second revision is exactly that layer drawn alone over the box around the centre with rounded offsets |
| TileRender.MapContentTiles | app/src/main/java/dev/isalazy/meteocanada/ui/composables/RadarMap.kt:127-165 | each layer of the second revision visits exactly its tile range of the box around the centre |
| TileRender.DrawLayerRoundings | app/src/main/java/dev/isalazy/meteocanada/ui/composables/RadarMap.kt:189-196 | one layer drawn with two roundings gives the same images, tiles, URLs and alpha, each placed by its rounding from the same offsets; equal roundings give equal draws |
| TileRender.MapContentMatchesLegacy | app/src/main/java/dev/isalazy/meteocanada/ui/composables/RadarMap.kt:137-165 | for each layer both revisions draw the same tiles in the same order with the same URLs and alpha, from the same box and the same unrounded offsets; they differ only in layer order and in rounding versus truncation, and agree outright when the rounding does |
| TileRender.MapContentEmptyIff | app/src/main/java/dev/isalazy/meteocanada/ui/composables/RadarMap.kt:117-120 | with a non-negative screen size, `MapContent` draws something exactly when the zoom is below 13 |
| Gestures.CoerceIn | app/src/main/java/dev/isalazy/meteocanada/ui/composables/RadarMap.kt:74 | `coerceIn`: the result is in range, the input when it already was, the nearer bound otherwise |
| Gestures.SwitchLevel | app/src/main/java/dev/isalazy/meteocanada/ui/composables/RadarMap.kt:43-69 | zoom in exactly when the next level exists and is reached, zoom out exactly otherwise when the previous one is; new scale ≥ 1 in, ≤ 1 out; unchanged level keeps scale × factor |
| Gestures.Gesture | app/src/main/java/dev/isalazy/meteocanada/ui/composables/RadarMap.kt:42-92 | the new zoom is the switched level and the new scale is the switched scale clamped by `coerceIn(0.2, 5)`; zoom changes by at most one level, under the same conditions; pan = old level's resolution / new scale |
| Gestures.PinchKeepsVisualContinuity | app/src/main/java/dev/isalazy/meteocanada/ui/composables/RadarMap.kt:54-63 | when the clamp does not bite, a pinch makes shown pixels finer by exactly the pinch factor, across a level switch too |
| Gestures.PanFollowsFinger | app/src/main/java/dev/isalazy/meteocanada/ui/composables/RadarMap.kt:76-92 | without a level switch the centre moves by the pan times the shown resolution, so content follows the finger |
| Gestures.PanAcrossSwitch | app/src/main/java/dev/isalazy/meteocanada/ui/composables/RadarMap.kt:47-92 | on a switch the centre moves res(old)/res(new) times the pan in shown pixels |
| Gestures.PanOvershootsOnZoomIn | app/src/main/java/dev/isalazy/meteocanada/ui/composables/RadarMap.kt:47-78 | a pinch from a level of resolution 2 into one of resolution 1 pans 2 metres for a 1-pixel drag at 1 metre per shown pixel |
| Gestures.CorrectedGesture | app/src/main/java/dev/isalazy/meteocanada/ui/composables/RadarMap.kt:76-92 | the same level and scale, with the pan measured at the resolution actually shown |
| Gestures.CorrectedGestureAgrees | app/src/main/java/dev/isalazy/meteocanada/ui/composables/RadarMap.kt:76-92 | without a level switch the corrected step is the original step |
| Gestures.Gestures | app/src/main/java/dev/isalazy/meteocanada/ui/composables/RadarMap.kt:42-92 | after any run of gestures (with the corrected pan) the scale is positive and, if any, in [0.2, 5]; the zoom moved by at most one per gesture; an existing level stays existing |
| Gestures.GesturesStayOnExistingLevels | app/src/main/java/dev/isalazy/meteocanada/ui/composables/RadarMap.kt:57-69 | from a fresh map every level reached exists |
| RadarScreen.TimestampText | app/src/main/java/dev/isalazy/meteocanada/MainActivity.kt:865-869 | nothing without the prefix; otherwise the rest up to its last `_` |
| RadarScreen.FormatTimestamp | app/src/main/java/dev/isalazy/meteocanada/MainActivity.kt:863-883 | "" without the prefix or when the date does not parse; otherwise the formatted date |
| RadarScreen.TimestampTextOfIdentifier | app/src/main/java/dev/isalazy/meteocanada/MainActivity.kt:868-869 | an identifier built as prefix, time, `_`, suffix yields the time; without a suffix, the whole rest |
| RadarScreen.FormatTimestampOfIdentifier | app/src/main/java/dev/isalazy/meteocanada/MainActivity.kt:863-883 | the label of such an identifier is its time parsed and formatted, or "" |
| RadarScreen.ParsedLayersHaveTimestamps | app/src/main/java/dev/isalazy/meteocanada/MainActivity.kt:865-869 | every layer the capabilities parser returns has timestamp text |
| RadarScreen.LayerTileUrls | app/src/main/java/dev/isalazy/meteocanada/MainActivity.kt:846-850 | one radar URL per tile, in tile order |
| RadarScreen.FlattenAt | app/src/main/java/dev/isalazy/meteocanada/MainActivity.kt:845-851 | element i of block l of equal-size blocks sits at l × size + i of the concatenation |
| RadarScreen.PrefetchBlocks | app/src/main/java/dev/isalazy/meteocanada/MainActivity.kt:845-851 | one block of URLs per layer, each over the same tiles |
| RadarScreen.PrefetchUrls | app/src/main/java/dev/isalazy/meteocanada/MainActivity.kt:842-851 | `preFetchRadarTiles` issues one request per layer and tile of the radar range |
| RadarScreen.PrefetchUrlsCount | app/src/main/java/dev/isalazy/meteocanada/MainActivity.kt:842-851 | prefetch requests number layers × rows × columns |
| RadarScreen.PrefetchUrlsAt | app/src/main/java/dev/isalazy/meteocanada/MainActivity.kt:845-851 | request l × tiles + i is layer l's URL for the i-th tile in row-major order |
| RadarScreen.Tick | app/src/main/java/dev/isalazy/meteocanada/MainActivity.kt:755-757 | the animation index stays in [0, size) when there are layers and is left alone when there are none |
| RadarScreen.TicksCycle | app/src/main/java/dev/isalazy/meteocanada/MainActivity.kt:751-757 | after n ticks the index is (index + n) mod size: every layer is shown in turn, wrapping to the first |
| RadarScreen.StartPlayback | app/src/main/java/dev/isalazy/meteocanada/MainActivity.kt:731-748 | nothing without layers; otherwise the last layer is shown and fetched first, and the background covers all the others |
| RadarScreen.ChooseLocation | app/src/main/java/dev/isalazy/meteocanada/MainActivity.kt:195-202 | detect mode asks for permission; otherwise the saved point, else Montreal; forced only on refresh |
| RadarScreen.RefreshFollowsStartup | app/src/main/java/dev/isalazy/meteocanada/MainActivity.kt:239-248 | refresh makes the start-up choice again with forceRefresh set |
| RadarScreen.OnPermissionResult | app/src/main/java/dev/isalazy/meteocanada/MainActivity.kt:124-133 | denied: nothing; granted: load the fix and save it, or load the fallback point without saving |
| RadarScreen.SavedFixIsReused | app/src/main/java/dev/isalazy/meteocanada/MainActivity.kt:197-199 | a fix saved after a granted permission is the point a later start-up loads |
| RadarScreen.OnCitySelected | app/src/main/java/dev/isalazy/meteocanada/MainActivity.kt:162-169 | the selection is stored (`selectedCity = it`), then a saved city is loaded and "my location" asks for the permission again |
| RadarScreen.SelectionLeavesStartupAlone | app/src/main/java/dev/isalazy/meteocanada/MainActivity.kt:195-202 | start-up and refresh read the mode and the saved position only, so a stored selection does not change their choice |
| WeatherRepository.GetString | app/src/main/java/dev/isalazy/meteocanada/data/WeatherRepository.kt:58 | `getString`: fails on a missing key; a string value is returned as is |
| WeatherRepository.GetObject | app/src/main/java/dev/isalazy/meteocanada/data/WeatherRepository.kt:59 | `getJSONObject`: succeeds exactly on an object value and returns it |
| WeatherRepository.OptObject | app/src/main/java/dev/isalazy/meteocanada/data/WeatherRepository.kt:62 | `optJSONObject`: the object exactly when the value is one, null otherwise |
| WeatherRepository.GetArray | app/src/main/java/dev/isalazy/meteocanada/data/WeatherRepository.kt:74 | `getJSONArray`: succeeds exactly on an array value and returns its items |
| WeatherRepository.GetDouble | app/src/main/java/dev/isalazy/meteocanada/data/WeatherRepository.kt:122-123 | `getDouble`: a number is returned as is; only a number or a string can succeed |
| WeatherRepository.OptMetric | app/src/main/java/dev/isalazy/meteocanada/data/WeatherRepository.kt:62 | null without a feels-like object; a failure when the object lacks its metric |
| WeatherRepository.IconUrl | app/src/main/java/dev/isalazy/meteocanada/data/WeatherRepository.kt:64 | the icon URL is the weathericons base, the code, then `.gif` |
| WeatherRepository.IconUrlInjective | app/src/main/java/dev/isalazy/meteocanada/data/WeatherRepository.kt:85 | different codes give different icon URLs |
| WeatherRepository.WindTextInjective | app/src/main/java/dev/isalazy/meteocanada/data/WeatherRepository.kt:63 | the wind text determines its reading: a direction without spaces and the speed can both be read back from it |
| WeatherRepository.KeepFeelsLike | app/src/main/java/dev/isalazy/meteocanada/data/WeatherRepository.kt:86 | feels-like is kept exactly when present, not blank and different from the temperature |
| WeatherRepository.MapAll | app/src/main/java/dev/isalazy/meteocanada/data/WeatherRepository.kt:75-90 | the loop succeeds exactly when every element parses, giving one entry per element in order |
| WeatherRepository.ParseDaily | app/src/main/java/dev/isalazy/meteocanada/data/WeatherRepository.kt:76-88 | parses exactly when the entry is an object with a temperature, a readable feels-like and date, summary, icon code and precipitation strings; every field is the entry's value, the icon URL is its code's, and feels-like follows the keep rule in both directions |
| WeatherRepository.ParseHourly | app/src/main/java/dev/isalazy/meteocanada/data/WeatherRepository.kt:95-107 | parses exactly when the entry is an object with a temperature, a readable feels-like and time, condition, icon code and precipitation strings; every field is the entry's value, the icon URL is its code's, and feels-like follows the keep rule in both directions |
| WeatherRepository.ParseWeatherObject | app/src/main/java/dev/isalazy/meteocanada/data/WeatherRepository.kt:57-111 | parsing succeeds exactly when the display name, every observation field, the time stamp and both forecast arrays can be read; the result keeps the requested point, takes the location, condition, temperature, wind text, icon URL and formatted observation time from those fields, obeys the feels-like rule, and its forecasts are the parsed arrays |
| WeatherRepository.ParseWeatherData | app/src/main/java/dev/isalazy/meteocanada/data/WeatherRepository.kt:55-57 | a failed request or a response without an object at element 0 fails; when element 0 is an object the outcome is exactly that of parsing it |
| WeatherRepository.OnlyFirstElementRead | app/src/main/java/dev/isalazy/meteocanada/data/WeatherRepository.kt:56-57 | elements after the first do not change the outcome |
| WeatherRepository.ForecastsFollowArrays | app/src/main/java/dev/isalazy/meteocanada/data/WeatherRepository.kt:73-109 | daily and hourly lists match their arrays in length and order, with icon URLs and the feels-like rule |
| WeatherRepository.ParseCity | app/src/main/java/dev/isalazy/meteocanada/data/WeatherRepository.kt:118-124 | a city parses exactly when it is an object with a display name and a latitude and longitude `getDouble` accepts, and the result carries those three values |
| WeatherRepository.SearchCities | app/src/main/java/dev/isalazy/meteocanada/data/WeatherRepository.kt:39-53 | empty on any failure; otherwise one result per array element, in order |
| WeatherRepository.OneBadCityEmptiesSearch | app/src/main/java/dev/isalazy/meteocanada/data/WeatherRepository.kt:114-128 | one malformed element empties the whole result |
| WeatherViewModel.LoadWeather | app/src/main/java/dev/isalazy/meteocanada/viewmodel/WeatherViewModel.kt:38-62 | nothing while refreshing unless forced; refreshing during, not after; fallback fetched once at (45.529, −73.562) only after a failure; data replaced only by a success |
| WeatherViewModel.LoadsDoNotOverlap | app/src/main/java/dev/isalazy/meteocanada/viewmodel/WeatherViewModel.kt:39-42 | during a load, a second load starts exactly when it is forced |
| WeatherViewModel.LoadKeepsOrReplacesData | app/src/main/java/dev/isalazy/meteocanada/viewmodel/WeatherViewModel.kt:43-57 | after a load the data is what the last request returned if it succeeded, else the old data; shown data is never lost |
| WeatherViewModel.RefreshAlwaysLoads | app/src/main/java/dev/isalazy/meteocanada/viewmodel/WeatherViewModel.kt:38-39 | a refresh is never dropped by the guard |
| WeatherViewModel.SearchCities | app/src/main/java/dev/isalazy/meteocanada/viewmodel/WeatherViewModel.kt:64-76 | a query of two characters or fewer clears the results; a longer one sets the repository's results |
| WeatherViewModel.ClearSearchResults | app/src/main/java/dev/isalazy/meteocanada/viewmodel/WeatherViewModel.kt:78-80 | the results become empty and nothing else changes |
| WeatherViewModel.ShortQueryClears | app/src/main/java/dev/isalazy/meteocanada/viewmodel/WeatherViewModel.kt:68-74 | a short query acts exactly like clearing, and clearing is idempotent |
| WeatherViewModel.SearchCommutesWithLoad | app/src/main/java/dev/isalazy/meteocanada/viewmodel/WeatherViewModel.kt:64-80 | a search does not touch weather state, so it commutes with a load |
| LegacyActivity.Wrap32 | app/src/main/java/com/example/meteocanada/MainActivity.kt:138 | reduction to a signed 32-bit value; the identity on Int-range values |
| LegacyActivity.HashFromAppend | app/src/main/java/com/example/meteocanada/MainActivity.kt:138 | the hash loop over a concatenation continues from the first part's hash |
| LegacyActivity.HashFromIsPolynomial | app/src/main/java/com/example/meteocanada/MainActivity.kt:138 | the hash loop computes h·31ⁿ plus the documented polynomial, modulo 2³² |
| LegacyActivity.HashCode | app/src/main/java/com/example/meteocanada/MainActivity.kt:138 | `hashCode` is s[0]·31ⁿ⁻¹ + … + s[n−1] wrapped to a signed 32-bit value |
| LegacyActivity.HashCollision | app/src/main/java/com/example/meteocanada/MainActivity.kt:138-152 | strings differing only by "Aa" against "BB" have equal hash codes |
| LegacyActivity.Get | app/src/main/java/com/example/meteocanada/MainActivity.kt:133-148 | the memory entry first; else a decodable disk file is promoted and returned; else null; the disk is untouched |
| LegacyActivity.Put | app/src/main/java/com/example/meteocanada/MainActivity.kt:150-160 | the memory entry is set; the disk gets the PNG, nothing, or an unreadable file, by write outcome |
| LegacyActivity.GetAfterPut | app/src/main/java/com/example/meteocanada/MainActivity.kt:150-160 | after put(u, b), get(u) returns b even if the disk write failed |
| LegacyActivity.PutSurvivesRestart | app/src/main/java/com/example/meteocanada/MainActivity.kt:138-160 | a written entry is found again from disk after the memory tier is lost |
| LegacyActivity.GetPromotes | app/src/main/java/com/example/meteocanada/MainActivity.kt:138-147 | a second get answers the same, and a hit is then in memory |
| LegacyActivity.HashCollisionServesWrongImage | app/src/main/java/com/example/meteocanada/MainActivity.kt:138-152 | after storing one icon URL and restarting, get of a colliding URL returns the first URL's image |
| LegacyActivity.DistinctUrlsDoNotInterfere | app/src/main/java/com/example/meteocanada/MainActivity.kt:133-160 | keyed by the URL itself, storing one URL never changes what another URL gets, before or after a restart |
| LegacyActivity.LegacyKeepFeelsLike | app/src/main/java/com/example/meteocanada/MainActivity.kt:316 | feels-like is dropped only when equal to the temperature; a blank value is kept |
| LegacyActivity.FeelsLikeRulesDiffer | app/src/main/java/com/example/meteocanada/MainActivity.kt:316-339 | the two revisions' rules differ exactly on a blank feels-like that differs from the temperature |
| LegacyActivity.BlankFeelsLikeShown | app/src/main/java/com/example/meteocanada/MainActivity.kt:316 | a blank feels-like next to a temperature is shown by the first revision only |
| LegacyActivity.ParseLegacyDaily | app/src/main/java/com/example/meteocanada/MainActivity.kt:309-318 | parses exactly when the entry is an object with a temperature, a readable feels-like and date, summary and icon code strings; every field is the entry's value, and feels-like is dropped exactly when it equals the temperature |
| LegacyActivity.ParseLegacyHourly | app/src/main/java/com/example/meteocanada/MainActivity.kt:327-336 | parses exactly when the entry is an object with a temperature, a readable feels-like and time, condition and icon code strings; every field is the entry's value, and feels-like is dropped exactly when it equals the temperature |
| LegacyActivity.ParseLegacyWeather | app/src/main/java/com/example/meteocanada/MainActivity.kt:292-339 | success needs an array with an element 0; the requested point is kept; current feels-like obeys the first revision's rule |
| LegacyActivity.FetchWeather | app/src/main/java/com/example/meteocanada/MainActivity.kt:269-289 | one or two requests, the first at the asked point, a second only at (45.529, −73.562); data replaced by the last request's success, unchanged on its failure |
| LegacyActivity.FetchRetriesOnlyOnFailure | app/src/main/java/com/example/meteocanada/MainActivity.kt:283-287 | a retry happens exactly when a first, non-retry attempt fails |

## Left out

- The WGS84 to EPSG:3978 projection (proj4j): the projected centre is an input of `ProjectedBounds`, `MapContent` and the prefetch.
- The second revision's `MapUtils` (`project`, `getResolution`, `getOptimalZoomForWidth`) is not part of this model. Its resolution table is the parameter `res` of the gesture step (positive for existing levels). Its tile range and layout parameters are taken to be the first revision's, which `MapContent` and the prefetch use.
- IEEE double and float rounding, and the Float/Double casts of the gesture handler: values are exact reals. `roundToInt` is the parameter `round`.
- The network (`HttpURLConnection`), the XML pull parser (replaced by a list of start, text and end events), and JSON text decoding (replaced by a JSON value). `org.json` serialisation of a container asked for with `getString` is modelled as a failure. Date parsing and formatting (`SimpleDateFormat`) are parameters.
- Image decoding and PNG compression: a disk file either decodes to the bitmap written or is unreadable.
- Coroutines: the 300 ms search debounce and job cancellation, the concurrent prefetch, and the playback delay loop. Each load or search is modelled as one atomic transition.
- Compose UI, navigation, theming, locale handling and `UserPreferences` storage: the preferences are a plain record.
- The `selectedCity` property of `UserPreferences` is not part of this model: `UserPreferences.kt` as modelled has no such property. The selection is a plain stored field of `RadarScreen.Prefs`, and its setter is taken to write nothing else.
- The first revision's `getLocation` fallback: it has the same shape as the second revision's, modelled in `RadarScreen.OnPermissionResult`.
- `String.length` and `hashCode` work on UTF-16 code units. Here a string is a sequence of Unicode scalars, which agrees for text without surrogate pairs.
- The Montreal Float constants of `UserPreferences` are taken at their decimal value, without Float rounding.
- WeatherRepository.GetString: the coercion of numbers, booleans and null to text is part of its definition, but the contract states only the string and missing-key cases.
- Gestures.Gestures: the contract of a run states bounds (scale range, zoom drift, existing levels), not each step's pan.
- TileMatrices.ProjectedBounds: requires a zoom below 13. `getProjectedBounds` indexes the radar tile-matrix table at `zoom` (MapUtils.kt:225) and throws `IndexOutOfBoundsException` from zoom 13 on; the model does not represent that exception, so no member says what happens there.
- TileRender.LegacyRadarMap: requires a zoom below 13 because it calls `getProjectedBounds`; from zoom 13 on the first revision's composable throws, where the second revision's `MapContent` draws nothing (`TileRender.MapContentEmptyIff`). The throw is not modelled.
- RadarScreen.PrefetchRange and RadarScreen.PrefetchUrls: require a zoom below 13 because the first revision's `getProjectedBounds` stands in for the one the prefetch calls; with it, a prefetch at a higher zoom would throw, which is not modelled.
- LegacyActivity.ParseLegacyWeather: the contract does not restate the field-by-field mapping, which mirrors `WeatherRepository.ParseWeatherObject` without observation time and precipitation.

## Findings

| source | as written | input that shows it | evidently intended | confidence | as-written member | corrected member |
|---|---|---|---|---|---|---|
| app/src/main/java/dev/isalazy/meteocanada/ui/composables/RadarMap.kt:47-78 | after a level switch the pan uses the old level's resolution divided by the new scale | levels of resolution 2 and 1, scale 1, pinch ×2, drag 1 pixel: the centre moves 2 metres while a pixel shows 1 metre | the pan uses the resolution shown after the step (the comment asks for "the resolution at the CURRENT scale") | medium, not executed | Gestures.PanOvershootsOnZoomIn | Gestures.CorrectedGesture |
| app/src/main/java/com/example/meteocanada/MainActivity.kt:138-152 | the disk file is named by `url.hashCode()` alone | store the icon `…/Aa.gif`, restart, get `…/BB.gif`: the first icon is returned | one disk file per URL | low, not executed | LegacyActivity.HashCollisionServesWrongImage | LegacyActivity.DistinctUrlsDoNotInterfere |
