/** The WMTS tile-matrix tables of the radar map and the geometry derived from
    them: which tiles cover a projected bounding box, and how a layer's tiles
    are laid out. Coordinates are metres in the Canada Atlas Lambert projection
    (EPSG:3978); a resolution is metres per pixel. */
module TileMatrices {
  import opened Wrappers
  import opened KotlinNum

  /** One level of a WMTS tile matrix set (`MapUtils.TileMatrix`). */
  datatype TileMatrix = TileMatrix(
    identifier: string,
    scaleDenominator: real,
    topLeftCornerX: real,
    topLeftCornerY: real,
    tileWidth: int,
    tileHeight: int,
    matrixWidth: int,
    matrixHeight: int)

  /** A projected point (`ProjCoordinate`). */
  datatype Coord = Coord(x: real, y: real)

  /** A projected box: `min` is the bottom-left corner, `max` the top-right. */
  datatype Bounds = Bounds(min: Coord, max: Coord)

  /** An inclusive range of tile columns and rows (`Quadruple(minTileX,
      minTileY, maxTileX, maxTileY)`). */
  datatype TileRange = TileRange(minX: int, minY: int, maxX: int, maxY: int)

  /** The `(-1, -1, -1, -1)` quadruple returned for an unknown layer or zoom. */
  const InvalidRange := TileRange(-1, -1, -1, -1)

  /** What a renderer needs to place a layer's tiles (`TileLayoutParams`). */
  datatype TileLayoutParams = TileLayoutParams(
    tileWidth: int,
    tileHeight: int,
    resolution: real,
    topLeftCornerX: real,
    topLeftCornerY: real)

  /** The standardized rendering pixel size, 0.28 mm, of section 6.1 of the
      OGC WMTS 1.0.0 standard (OGC 07-057r7). */
  const PixelSize: real := 0.00028

  const RadarTable: seq<TileMatrix> := [
      TileMatrix("00", 137016643.0809052, -7959420.0, 4646500.0, 512, 512, 1, 1),
      TileMatrix("01", 80320101.1163927, -7959420.0, 4646500.0, 512, 512, 2, 1),
      TileMatrix("02", 47247118.30376042, -7959420.0, 4646500.0, 512, 512, 2, 2),
      TileMatrix("03", 28348270.98225625, -7959420.0, 4646500.0, 512, 512, 4, 3),
      TileMatrix("04", 16536491.406316146, -7959420.0, 4646500.0, 512, 512, 6, 4),
      TileMatrix("05", 9449423.660752084, -7959420.0, 4646500.0, 512, 512, 10, 7),
      TileMatrix("06", 5669654.1964512495, -7959420.0, 4646500.0, 512, 512, 16, 11),
      TileMatrix("07", 3307298.281263229, -7959420.0, 4646500.0, 512, 512, 27, 19),
      TileMatrix("08", 1889884.7321504168, -7959420.0, 4646500.0, 512, 512, 46, 32),
      TileMatrix("09", 1133930.83929025, -7959420.0, 4646500.0, 512, 512, 77, 53),
      TileMatrix("10", 661459.6562526459, -7959420.0, 4646500.0, 512, 512, 131, 91),
      TileMatrix("11", 396875.7937515875, -7959420.0, 4646500.0, 512, 512, 218, 151),
      TileMatrix("12", 236235.5915188021, -7959420.0, 4646500.0, 512, 512, 365, 254)
    ]

  const BaseTable: seq<TileMatrix> := [
      TileMatrix("0", 137016643.080888, -34655800.0, 39310000.0, 256, 256, 4, 5),
      TileMatrix("1", 80320101.11638261, -34655800.0, 39310000.0, 256, 256, 7, 7),
      TileMatrix("2", 47247118.30375448, -34655800.0, 39310000.0, 256, 256, 12, 12),
      TileMatrix("3", 28348270.982252687, -34655800.0, 39310000.0, 256, 256, 19, 20),
      TileMatrix("4", 16536491.40631407, -34655800.0, 39310000.0, 256, 256, 33, 34),
      TileMatrix("5", 9449423.660750896, -34655800.0, 39310000.0, 256, 256, 57, 60),
      TileMatrix("6", 5669654.196450537, -34655800.0, 39310000.0, 256, 256, 95, 100),
      TileMatrix("7", 3307298.2812628136, -34655800.0, 39310000.0, 256, 256, 162, 170),
      TileMatrix("8", 1889884.7321501793, -34655800.0, 39310000.0, 256, 256, 283, 298),
      TileMatrix("9", 1133930.8392901076, -34655800.0, 39310000.0, 256, 256, 471, 496),
      TileMatrix("10", 661459.6562525628, -34655800.0, 39310000.0, 256, 256, 807, 849),
      TileMatrix("11", 396875.7937515376, -34655800.0, 39310000.0, 256, 256, 1345, 1415),
      TileMatrix("12", 236235.59151877242, -34655800.0, 39310000.0, 256, 256, 2259, 2377),
      TileMatrix("13", 137016.643080888, -34655800.0, 39310000.0, 256, 256, 3894, 4098),
      TileMatrix("14", 80320.10111638262, -34655800.0, 39310000.0, 256, 256, 6642, 6991),
      TileMatrix("15", 47247.118303754476, -34655800.0, 39310000.0, 256, 256, 11292, 11884),
      TileMatrix("16", 28348.27098225269, -34655800.0, 39310000.0, 256, 256, 18819, 19807),
      TileMatrix("17", 16536.491406314068, -34655800.0, 39310000.0, 256, 256, 32261, 33954),
      TileMatrix("18", 9449.423660750896, -34655800.0, 39310000.0, 256, 256, 56457, 59420),
      TileMatrix("19", 5669.654196450538, -34655800.0, 39310000.0, 256, 256, 94094, 99032)
    ]

  const TextTable: seq<TileMatrix> := [
      TileMatrix("0", 137016643.080888, -34655800.0, 39310000.0, 256, 256, 5, 5),
      TileMatrix("1", 80320101.11638261, -34655800.0, 39310000.0, 256, 256, 7, 8),
      TileMatrix("2", 47247118.30375448, -34655800.0, 39310000.0, 256, 256, 12, 14),
      TileMatrix("3", 28348270.982252687, -34655800.0, 39310000.0, 256, 256, 20, 22),
      TileMatrix("4", 16536491.40631407, -34655800.0, 39310000.0, 256, 256, 34, 38),
      TileMatrix("5", 9449423.660750896, -34655800.0, 39310000.0, 256, 256, 59, 66),
      TileMatrix("6", 5669654.196450537, -34655800.0, 39310000.0, 256, 256, 98, 110),
      TileMatrix("7", 3307298.2812628136, -34655800.0, 39310000.0, 256, 256, 167, 188),
      TileMatrix("8", 1889884.7321501793, -34655800.0, 39310000.0, 256, 256, 292, 329),
      TileMatrix("9", 1133930.8392901076, -34655800.0, 39310000.0, 256, 256, 487, 548),
      TileMatrix("10", 661459.6562525628, -34655800.0, 39310000.0, 256, 256, 834, 938),
      TileMatrix("11", 396875.7937515376, -34655800.0, 39310000.0, 256, 256, 1389, 1563),
      TileMatrix("12", 236235.59151877242, -34655800.0, 39310000.0, 256, 256, 2334, 2626),
      TileMatrix("13", 137016.643080888, -34655800.0, 39310000.0, 256, 256, 4023, 4528),
      TileMatrix("14", 80320.10111638262, -34655800.0, 39310000.0, 256, 256, 6863, 7723),
      TileMatrix("15", 47247.118303754476, -34655800.0, 39310000.0, 256, 256, 11666, 13130),
      TileMatrix("16", 28348.27098225269, -34655800.0, 39310000.0, 256, 256, 19443, 21882),
      TileMatrix("17", 16536.491406314068, -34655800.0, 39310000.0, 256, 256, 33331, 37512)
    ]

  /** The table behind a layer name; `None` for any name but the three known. */
  function MatrixSetFor(layer: string): Option<seq<TileMatrix>> {
    if layer == "radar" then Some(RadarTable)
    else if layer == "base" then Some(BaseTable)
    else if layer == "text" then Some(TextTable)
    else None
  }

  predicate KnownLayer(layer: string) {
    layer == "radar" || layer == "base" || layer == "text"
  }

  /** Number of zoom levels a layer offers. */
  function ZoomLevels(layer: string): nat {
    if layer == "radar" then 13
    else if layer == "base" then 20
    else if layer == "text" then 18
    else 0
  }

  predicate ValidMatrix(m: TileMatrix) {
    m.scaleDenominator > 0.0 && m.tileWidth > 0 && m.tileHeight > 0
    && m.matrixWidth > 0 && m.matrixHeight > 0
  }

  /** The guarded table lookup shared by `getTileCoordinatesForBounds` and
      `getTileLayoutParams` (a negative zoom makes the source throw). */
  function Lookup(layer: string, zoom: int): (r: Option<TileMatrix>)
    requires zoom >= 0
    ensures r.Some? <==> KnownLayer(layer) && zoom < ZoomLevels(layer)
    ensures r.Some? ==> ValidMatrix(r.value)
  {
    match MatrixSetFor(layer)
    case None => None
    case Some(table) =>
      TablesValid();
      if zoom >= |table| then None else Some(table[zoom])
  }

  lemma TablesValid()
    ensures |RadarTable| == 13 && |BaseTable| == 20 && |TextTable| == 18
    ensures forall i :: 0 <= i < |RadarTable| ==> ValidMatrix(RadarTable[i])
    ensures forall i :: 0 <= i < |BaseTable| ==> ValidMatrix(BaseTable[i])
    ensures forall i :: 0 <= i < |TextTable| ==> ValidMatrix(TextTable[i])
  {
  }

  /** Metres per pixel at a tile matrix: scale denominator times 0.28 mm. */
  function Resolution(m: TileMatrix): real {
    m.scaleDenominator * PixelSize
  }

  function ParamsOf(m: TileMatrix): (p: TileLayoutParams)
    requires ValidMatrix(m)
    ensures ValidParams(p)
  {
    TileLayoutParams(m.tileWidth, m.tileHeight, Resolution(m), m.topLeftCornerX, m.topLeftCornerY)
  }

  predicate ValidParams(p: TileLayoutParams) {
    p.tileWidth > 0 && p.tileHeight > 0 && p.resolution > 0.0
  }

  /** The tile column holding projected abscissa `x`: the pixel offset from the
      grid origin, truncated to an Int, then divided by the tile width. */
  function Column(p: TileLayoutParams, x: real): int
    requires ValidParams(p)
  {
    TruncDiv(DoubleToInt((x - p.topLeftCornerX) / p.resolution), p.tileWidth)
  }

  /** The tile row holding projected ordinate `y`; rows count downward from
      the grid's top edge. */
  function Row(p: TileLayoutParams, y: real): int
    requires ValidParams(p)
  {
    TruncDiv(DoubleToInt((p.topLeftCornerY - y) / p.resolution), p.tileHeight)
  }

  /** `getTileCoordinatesForBounds`. */
  function TileCoordinatesForBounds(bounds: Bounds, zoom: int, layer: string): (r: TileRange)
    requires zoom >= 0
    ensures !KnownLayer(layer) || zoom >= ZoomLevels(layer) ==> r == InvalidRange
    ensures KnownLayer(layer) && zoom < ZoomLevels(layer) ==>
      var p := ParamsOf(Lookup(layer, zoom).value);
      && r.minX == Column(p, bounds.min.x) && r.maxX == Column(p, bounds.max.x)
      && r.minY == Row(p, bounds.max.y) && r.maxY == Row(p, bounds.min.y)
  {
    match Lookup(layer, zoom)
    case None => InvalidRange
    case Some(m) =>
      // the resolution is `scaleDenominator * PixelSize` (see `ParamsOf`)
      var p := ParamsOf(m);
      TileRange(Column(p, bounds.min.x), Row(p, bounds.max.y), Column(p, bounds.max.x), Row(p, bounds.min.y))
  }

  /** `getTileLayoutParams`. */
  function LayoutParams(zoom: int, layer: string): (r: Option<TileLayoutParams>)
    requires zoom >= 0
    ensures r.None? <==> !KnownLayer(layer) || zoom >= ZoomLevels(layer)
    ensures r.Some? ==> ValidParams(r.value)
    ensures r.Some? ==>
      var m := Lookup(layer, zoom).value;
      && r.value.tileWidth == m.tileWidth && r.value.tileHeight == m.tileHeight
      && r.value.topLeftCornerX == m.topLeftCornerX && r.value.topLeftCornerY == m.topLeftCornerY
      && r.value.resolution == m.scaleDenominator * 0.00028
  {
    match Lookup(layer, zoom)
    case None => None
    case Some(m) => Some(ParamsOf(m))
  }

  /** The radar layout parameters are those of the radar table's level. */
  lemma RadarParams(zoom: int)
    requires 0 <= zoom < |RadarTable|
    ensures LayoutParams(zoom, "radar") == Some(ParamsOf(RadarTable[zoom]))
    ensures ParamsOf(RadarTable[zoom]).resolution == Resolution(RadarTable[zoom])
  {
    TablesValid();
  }

  /** `getProjectedBounds`, with the projected centre given (the WGS84 to
      EPSG:3978 transform is not part of this model). */
  function ProjectedBounds(center: Coord, zoom: int, width: int, height: int): (r: Bounds)
    requires 0 <= zoom < |RadarTable|
    ensures var res := Resolution(RadarTable[zoom]);
      && r.min.x + r.max.x == 2.0 * center.x && r.min.y + r.max.y == 2.0 * center.y
      && r.max.x - r.min.x == width as real * res
      && r.max.y - r.min.y == height as real * res
  {
    BoxAround(center, Resolution(RadarTable[zoom]), width, height)
  }

  /** The box of `width` by `height` pixels of size `resolution` centred on
      `center`. */
  function BoxAround(center: Coord, resolution: real, width: int, height: int): (r: Bounds)
    ensures r.min.x + r.max.x == 2.0 * center.x && r.min.y + r.max.y == 2.0 * center.y
    ensures r.max.x - r.min.x == width as real * resolution
    ensures r.max.y - r.min.y == height as real * resolution
  {
    var halfWidthMeters := width as real / 2.0 * resolution;
    var halfHeightMeters := height as real / 2.0 * resolution;
    Bounds(Coord(center.x - halfWidthMeters, center.y - halfHeightMeters),
           Coord(center.x + halfWidthMeters, center.y + halfHeightMeters))
  }

  // ---------------------------------------------------------------------------
  // Properties of the tile geometry

  lemma DivMonotone(a: real, b: real, r: real)
    requires a <= b && r > 0.0
    ensures a / r <= b / r
  {
    assert b / r - a / r == (b - a) / r;
  }

  /** Columns never decrease as the abscissa grows. */
  lemma ColumnMonotone(p: TileLayoutParams, x1: real, x2: real)
    requires ValidParams(p) && x1 <= x2
    ensures Column(p, x1) <= Column(p, x2)
  {
    DivMonotone(x1 - p.topLeftCornerX, x2 - p.topLeftCornerX, p.resolution);
    DoubleToIntMonotone((x1 - p.topLeftCornerX) / p.resolution, (x2 - p.topLeftCornerX) / p.resolution);
    TruncDivMonotone(DoubleToInt((x1 - p.topLeftCornerX) / p.resolution),
                     DoubleToInt((x2 - p.topLeftCornerX) / p.resolution), p.tileWidth);
  }

  /** Rows never increase as the ordinate grows (rows count downward). */
  lemma RowAntitone(p: TileLayoutParams, y1: real, y2: real)
    requires ValidParams(p) && y1 <= y2
    ensures Row(p, y2) <= Row(p, y1)
  {
    DivMonotone(p.topLeftCornerY - y2, p.topLeftCornerY - y1, p.resolution);
    DoubleToIntMonotone((p.topLeftCornerY - y2) / p.resolution, (p.topLeftCornerY - y1) / p.resolution);
    TruncDivMonotone(DoubleToInt((p.topLeftCornerY - y2) / p.resolution),
                     DoubleToInt((p.topLeftCornerY - y1) / p.resolution), p.tileHeight);
  }

  predicate InBounds(b: Bounds, c: Coord) {
    b.min.x <= c.x <= b.max.x && b.min.y <= c.y <= b.max.y
  }

  /** Every point of the box lies in a tile of the returned range: the range
      covers the box. Its top row comes from `max.y`, its bottom row from
      `min.y`. */
  lemma TileRangeCovers(bounds: Bounds, zoom: int, layer: string, c: Coord)
    requires 0 <= zoom < ZoomLevels(layer)
    requires InBounds(bounds, c)
    ensures var r := TileCoordinatesForBounds(bounds, zoom, layer);
      var p := LayoutParams(zoom, layer).value;
      && r.minX <= Column(p, c.x) <= r.maxX
      && r.minY <= Row(p, c.y) <= r.maxY
  {
    var p := LayoutParams(zoom, layer).value;
    ColumnMonotone(p, bounds.min.x, c.x);
    ColumnMonotone(p, c.x, bounds.max.x);
    RowAntitone(p, bounds.min.y, c.y);
    RowAntitone(p, c.y, bounds.max.y);
  }

  /** For a box with `min <= max` on both axes the range is non-empty. */
  lemma TileRangeOrdered(bounds: Bounds, zoom: int, layer: string)
    requires 0 <= zoom < ZoomLevels(layer)
    requires bounds.min.x <= bounds.max.x && bounds.min.y <= bounds.max.y
    ensures var r := TileCoordinatesForBounds(bounds, zoom, layer);
      r.minX <= r.maxX && r.minY <= r.maxY
  {
    TileRangeCovers(bounds, zoom, layer, bounds.min);
  }

  /** The layout parameters are missing exactly when the tile range is the
      `(-1, -1, -1, -1)` sentinel by the lookup guard, and otherwise the range
      is the one the parameters define. */
  lemma LayoutParamsAgreeWithRange(bounds: Bounds, zoom: int, layer: string)
    requires zoom >= 0
    ensures LayoutParams(zoom, layer).None? ==> TileCoordinatesForBounds(bounds, zoom, layer) == InvalidRange
    ensures LayoutParams(zoom, layer).Some? ==>
      var p := LayoutParams(zoom, layer).value;
      TileCoordinatesForBounds(bounds, zoom, layer)
        == TileRange(Column(p, bounds.min.x), Row(p, bounds.max.y), Column(p, bounds.max.x), Row(p, bounds.min.y))
  {
  }

  /** Right of the origin, the truncate-then-divide of the source is the WMTS
      tile index `floor((x - originX) / (tileWidth * resolution))`, as long as
      the pixel offset fits in an Int. */
  lemma ColumnIsWmtsIndex(p: TileLayoutParams, x: real)
    requires ValidParams(p)
    requires 0.0 <= (x - p.topLeftCornerX) / p.resolution < (IntMax + 1) as real
    ensures Column(p, x) == ((x - p.topLeftCornerX) / (p.tileWidth as real * p.resolution)).Floor
  {
    FloorOfScaled((x - p.topLeftCornerX) / p.resolution, p.tileWidth);
    assert (x - p.topLeftCornerX) / (p.tileWidth as real * p.resolution)
        == ((x - p.topLeftCornerX) / p.resolution) / p.tileWidth as real;
  }

  /** Below the top edge, rows are the WMTS index
      `floor((originY - y) / (tileHeight * resolution))`. */
  lemma RowIsWmtsIndex(p: TileLayoutParams, y: real)
    requires ValidParams(p)
    requires 0.0 <= (p.topLeftCornerY - y) / p.resolution < (IntMax + 1) as real
    ensures Row(p, y) == ((p.topLeftCornerY - y) / (p.tileHeight as real * p.resolution)).Floor
  {
    FloorOfScaled((p.topLeftCornerY - y) / p.resolution, p.tileHeight);
    assert (p.topLeftCornerY - y) / (p.tileHeight as real * p.resolution)
        == ((p.topLeftCornerY - y) / p.resolution) / p.tileHeight as real;
  }

  /** `floor(a) / w == floor(a / w)` for non-negative `a` and positive `w`. */
  lemma FloorOfScaled(a: real, w: int)
    requires 0.0 <= a < (IntMax + 1) as real && w > 0
    ensures TruncDiv(DoubleToInt(a), w) == (a / w as real).Floor
  {
    var n := a.Floor;
    assert DoubleToInt(a) == n;
    var q := TruncDiv(n, w);
    assert q * w <= n < q * w + w;
    var wr := w as real;
    assert (q * w) as real == q as real * wr;
    assert ((q + 1) * w) as real == (q + 1) as real * wr;
    QuotientBounds(a, wr, q as real, (q + 1) as real);
  }

  /** Dividing a bracketed value by a positive number brackets the quotient. */
  lemma QuotientBounds(a: real, w: real, lo: real, hi: real)
    requires w > 0.0 && lo * w <= a < hi * w
    ensures lo <= a / w < hi
  {
    var d := a / w;
    assert d * w == a;
  }

  /** Left of the origin the source's truncation differs from the WMTS floor:
      a point less than one tile left of the grid lands in column 0, not -1. */
  lemma ColumnLeftOfOrigin(p: TileLayoutParams, x: real)
    requires ValidParams(p)
    requires p.topLeftCornerX - p.tileWidth as real * p.resolution < x < p.topLeftCornerX
    ensures Column(p, x) == 0
    ensures ((x - p.topLeftCornerX) / (p.tileWidth as real * p.resolution)).Floor == -1
  {
    var wr := p.tileWidth as real;
    var span := wr * p.resolution;
    var off := x - p.topLeftCornerX;
    assert -span < off < 0.0;
    assert (-wr) * p.resolution == -span;
    QuotientBounds(off, p.resolution, -wr, 0.0);
    assert (-1.0) * span == -span;
    QuotientBounds(off, span, -1.0, 0.0);
    var f := off / span;
    assert -1.0 <= f < 0.0;
    assert f.Floor == -1;
    assert (x - p.topLeftCornerX) / (p.tileWidth as real * p.resolution) == f;
    var q := off / p.resolution;
    StrictQuotientBelow(off, p.resolution, -wr);
    var d := DoubleToInt(q);
    TruncateSmallNegative(q, p.tileWidth);
    SmallNegativeQuotient(d, p.tileWidth);
  }

  /** A value strictly above `lo * w` has a quotient by `w` strictly above `lo`. */
  lemma StrictQuotientBelow(a: real, w: real, lo: real)
    requires w > 0.0 && lo * w < a
    ensures lo < a / w
  {
    var d := a / w;
    assert d * w == a;
    assert (lo - d) * w == lo * w - a;
  }

  /** `toInt()` of a negative value less than `w` below zero stays in (-w, 0]. */
  lemma TruncateSmallNegative(q: real, w: int)
    requires w > 0 && -(w as real) < q < 0.0
    ensures -w < DoubleToInt(q) <= 0
  {
    var t := Trunc(q);
    assert q <= t as real;
  }

  /** Truncating division sends a small non-positive numerator to 0. */
  lemma SmallNegativeQuotient(d: int, w: int)
    requires w > 0 && -w < d <= 0
    ensures TruncDiv(d, w) == 0
  {
    var q := TruncDiv(d, w);
    if q <= -1 {
      MulLe(q, -1, w);
    }
  }

  /** Indices are not clamped to the matrix size: a box reaching 1024 pixels
      right of the origin at radar zoom 0 (a 1 x 1 matrix of 512-pixel tiles)
      yields column 2. */
  lemma RangeNotClamped()
    ensures var res := Resolution(RadarTable[0]);
      var b := Bounds(Coord(-7959420.0, 4646500.0 - 10.0 * res), Coord(-7959420.0 + 1024.0 * res, 4646500.0));
      var r := TileCoordinatesForBounds(b, 0, "radar");
      r == TileRange(0, 0, 2, 0) && r.maxX >= RadarTable[0].matrixWidth
  {
    var res := Resolution(RadarTable[0]);
    var p := ParamsOf(RadarTable[0]);
    assert (-7959420.0 + 1024.0 * res - p.topLeftCornerX) / p.resolution == 1024.0;
    assert (p.topLeftCornerY - (4646500.0 - 10.0 * res)) / p.resolution == 10.0;
    assert (-7959420.0 - p.topLeftCornerX) / p.resolution == 0.0;
    assert (p.topLeftCornerY - 4646500.0) / p.resolution == 0.0;
  }

  /** The projected box of `getProjectedBounds` spans `width` by `height`
      radar pixels around the centre, so it is ordered when the sizes are
      non-negative. */
  lemma ProjectedBoundsSpan(center: Coord, zoom: int, width: int, height: int)
    requires 0 <= zoom < |RadarTable| && width >= 0 && height >= 0
    ensures var b := ProjectedBounds(center, zoom, width, height);
      var res := Resolution(RadarTable[zoom]);
      && b.min.x <= center.x <= b.max.x && b.min.y <= center.y <= b.max.y
      && (b.max.x - b.min.x) / res == width as real
      && (b.max.y - b.min.y) / res == height as real
  {
    TablesValid();
    var res := Resolution(RadarTable[zoom]);
    assert res > 0.0;
    assert width as real * res >= 0.0;
    assert height as real * res >= 0.0;
  }

  // ---------------------------------------------------------------------------
  // Properties of the tables

  /** Each zoom level of a table is strictly finer than the one before. */
  predicate FinerWithZoom(table: seq<TileMatrix>) {
    forall i :: 0 < i < |table| ==> table[i].scaleDenominator < table[i - 1].scaleDenominator
  }

  /** Every level of a table shares the same origin and tile size. */
  predicate SharedGrid(table: seq<TileMatrix>) {
    forall i :: 0 < i < |table| ==>
      && table[i].topLeftCornerX == table[0].topLeftCornerX
      && table[i].topLeftCornerY == table[0].topLeftCornerY
      && table[i].tileWidth == table[0].tileWidth
      && table[i].tileHeight == table[0].tileHeight
  }

  lemma RadarTableRegular()
    ensures FinerWithZoom(RadarTable) && SharedGrid(RadarTable)
  {
  }

  lemma BaseTableFiner()
    ensures FinerWithZoom(BaseTable)
  {
  }

  lemma BaseTableShared()
    ensures SharedGrid(BaseTable)
  {
  }

  lemma BaseTableRegular()
    ensures FinerWithZoom(BaseTable) && SharedGrid(BaseTable)
  {
    BaseTableFiner();
    BaseTableShared();
  }

  lemma TextTableFiner()
    ensures FinerWithZoom(TextTable)
  {
  }

  lemma TextTableShared()
    ensures SharedGrid(TextTable)
  {
  }

  lemma TextTableRegular()
    ensures FinerWithZoom(TextTable) && SharedGrid(TextTable)
  {
    TextTableFiner();
    TextTableShared();
  }

  /** The base map and the city-name overlay use identical resolutions at every
      zoom they share, so their tiles line up exactly. */
  lemma BaseAndTextAlign()
    ensures forall z :: 0 <= z < |TextTable| ==> Resolution(BaseTable[z]) == Resolution(TextTable[z])
    ensures BaseTable[0].topLeftCornerX == TextTable[0].topLeftCornerX
    ensures BaseTable[0].topLeftCornerY == TextTable[0].topLeftCornerY
  {
  }
}
