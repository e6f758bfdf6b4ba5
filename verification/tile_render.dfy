/** Placement of map tiles on screen, in both revisions of the radar map: the
    inclusive tile rectangles each layer visits, the pixel offset of every
    tile, and the order in which the three layers are drawn. */
module TileRender {
  import opened Wrappers
  import opened KotlinNum
  import opened TileMatrices
  import opened TileUrls

  datatype Tile = Tile(x: int, y: int)

  datatype MapLayer = BaseMap | RadarOverlay | CityNames

  /** The layer name the tile-matrix lookups take. */
  function LayerName(k: MapLayer): string {
    match k
    case BaseMap => "base"
    case RadarOverlay => "radar"
    case CityNames => "text"
  }

  /** One `AsyncImage` placed on screen. */
  datatype Draw = Draw(layer: MapLayer, tile: Tile, url: string, left: int, top: int, alpha: real)

  // ---------------------------------------------------------------------------
  // The tiles a layer visits: `for (y in minY..maxY) for (x in minX..maxX)`

  function Span(lo: int, hi: int): nat {
    if hi < lo then 0 else hi - lo + 1
  }

  function RowTiles(y: int, minX: int, maxX: int): (r: seq<Tile>)
    ensures |r| == Span(minX, maxX)
    ensures forall i :: 0 <= i < |r| ==> r[i] == Tile(minX + i, y)
  {
    seq(Span(minX, maxX), i => Tile(minX + i, y))
  }

  function Rows(minX: int, maxX: int, y: int, maxY: int): seq<Tile>
    decreases maxY - y
  {
    if y > maxY then [] else RowTiles(y, minX, maxX) + Rows(minX, maxX, y + 1, maxY)
  }

  /** The tiles of an inclusive range, rows in the outer loop. */
  function Grid(r: TileRange): seq<Tile> {
    Rows(r.minX, r.maxX, r.minY, r.maxY)
  }

  predicate InRange(r: TileRange, t: Tile) {
    r.minX <= t.x <= r.maxX && r.minY <= t.y <= r.maxY
  }

  /** Row-major order: by row, then by column within a row. */
  predicate Before(a: Tile, b: Tile) {
    a.y < b.y || (a.y == b.y && a.x < b.x)
  }

  /** Strictly increasing in row-major order. */
  predicate RowMajor(g: seq<Tile>) {
    forall i, j :: 0 <= i < j < |g| ==> Before(g[i], g[j])
  }

  lemma {:induction false} RowsLength(minX: int, maxX: int, y: int, maxY: int)
    ensures |Rows(minX, maxX, y, maxY)| == Span(y, maxY) * Span(minX, maxX)
    decreases maxY - y
  {
    if y <= maxY {
      RowsLength(minX, maxX, y + 1, maxY);
      assert Span(y, maxY) == Span(y + 1, maxY) + 1;
    }
  }

  lemma {:induction false} RowsMembers(minX: int, maxX: int, y: int, maxY: int, t: Tile)
    ensures t in Rows(minX, maxX, y, maxY) <==> minX <= t.x <= maxX && y <= t.y <= maxY
    decreases maxY - y
  {
    if y <= maxY {
      RowsMembers(minX, maxX, y + 1, maxY, t);
      var row := RowTiles(y, minX, maxX);
      if minX <= t.x <= maxX && t.y == y {
        assert row[t.x - minX] == t;
      }
    }
  }

  lemma {:induction false} RowsOrder(minX: int, maxX: int, y: int, maxY: int)
    ensures RowMajor(Rows(minX, maxX, y, maxY))
    decreases maxY - y
  {
    if y <= maxY {
      RowsOrder(minX, maxX, y + 1, maxY);
      var row := RowTiles(y, minX, maxX);
      var rest := Rows(minX, maxX, y + 1, maxY);
      var g := row + rest;
      forall i, j | 0 <= i < j < |g| ensures Before(g[i], g[j]) {
        if i >= |row| {
          assert g[i] == rest[i - |row|] && g[j] == rest[j - |row|];
        } else if j >= |row| {
          assert g[i] == row[i] && g[j] == rest[j - |row|];
          RowsMembers(minX, maxX, y + 1, maxY, g[j]);
          assert g[i].y == y < g[j].y;
        } else {
          assert g[i] == row[i] && g[j] == row[j];
          assert g[i].y == g[j].y && g[i].x < g[j].x;
        }
      }
    }
  }

  /** The visited tiles are exactly those of the inclusive rectangle, each once,
      in row-major order; there are `rows * columns` of them. */
  lemma GridShape(r: TileRange)
    ensures |Grid(r)| == Span(r.minY, r.maxY) * Span(r.minX, r.maxX)
    ensures forall t :: t in Grid(r) <==> InRange(r, t)
    ensures RowMajor(Grid(r))
  {
    RowsLength(r.minX, r.maxX, r.minY, r.maxY);
    RowsOrder(r.minX, r.maxX, r.minY, r.maxY);
    forall t ensures t in Grid(r) <==> InRange(r, t) {
      RowsMembers(r.minX, r.maxX, r.minY, r.maxY, t);
    }
  }

  // ---------------------------------------------------------------------------
  // Pixel offsets

  /** Horizontal offset of tile column `x` from the left edge of the box, in
      pixels, before rounding: walking that many pixels right from the box's
      left edge reaches the projected x of the column's left edge. */
  function OffsetLeft(p: TileLayoutParams, bounds: Bounds, x: int): (r: real)
    requires ValidParams(p)
    ensures bounds.min.x + r * p.resolution == p.topLeftCornerX + (x * p.tileWidth) as real * p.resolution
  {
    (x * p.tileWidth) as real - (bounds.min.x - p.topLeftCornerX) / p.resolution
  }

  /** Vertical offset of tile row `y` from the top edge of the box, in pixels,
      before rounding: walking that many pixels down from the box's top edge
      reaches the projected y of the row's top edge. */
  function OffsetTop(p: TileLayoutParams, bounds: Bounds, y: int): (r: real)
    requires ValidParams(p)
    ensures bounds.max.y - r * p.resolution == p.topLeftCornerY - (y * p.tileHeight) as real * p.resolution
  {
    (y * p.tileHeight) as real - (p.topLeftCornerY - bounds.max.y) / p.resolution
  }

  /** Neighbouring tiles are exactly one tile size apart, so a layer's tiles
      abut without gaps or overlaps before rounding. */
  lemma OffsetsAbut(p: TileLayoutParams, bounds: Bounds, x: int, y: int)
    requires ValidParams(p)
    ensures OffsetLeft(p, bounds, x + 1) - OffsetLeft(p, bounds, x) == p.tileWidth as real
    ensures OffsetTop(p, bounds, y + 1) - OffsetTop(p, bounds, y) == p.tileHeight as real
  {
    assert (x + 1) * p.tileWidth == x * p.tileWidth + p.tileWidth;
    assert (y + 1) * p.tileHeight == y * p.tileHeight + p.tileHeight;
  }

  /** A point of the projected plane lands at screen pixel
      `((c.x - minX) / res, (maxY - c.y) / res)` whichever tile carries it: the
      pixel `(i, j)` of tile `(x, y)` is drawn at the tile's offset plus
      `(i, j)`. Layers with equal resolution therefore line up exactly. */
  lemma PointLandsAtScreenPosition(p: TileLayoutParams, bounds: Bounds, t: Tile, i: real, j: real)
    requires ValidParams(p)
    ensures var c := Coord(p.topLeftCornerX + ((t.x * p.tileWidth) as real + i) * p.resolution,
                           p.topLeftCornerY - ((t.y * p.tileHeight) as real + j) * p.resolution);
      && OffsetLeft(p, bounds, t.x) + i == (c.x - bounds.min.x) / p.resolution
      && OffsetTop(p, bounds, t.y) + j == (bounds.max.y - c.y) / p.resolution
  {
    var r := p.resolution;
    var u := (t.x * p.tileWidth) as real + i;
    var v := (t.y * p.tileHeight) as real + j;
    assert (p.topLeftCornerX + u * r - bounds.min.x) / r == u - (bounds.min.x - p.topLeftCornerX) / r by {
      assert (p.topLeftCornerX + u * r - bounds.min.x) / r == (u * r) / r + (p.topLeftCornerX - bounds.min.x) / r;
    }
    assert (bounds.max.y - (p.topLeftCornerY - v * r)) / r == v - (p.topLeftCornerY - bounds.max.y) / r by {
      assert (bounds.max.y - (p.topLeftCornerY - v * r)) / r == (v * r) / r + (bounds.max.y - p.topLeftCornerY) / r;
    }
  }

  // ---------------------------------------------------------------------------
  // Drawing a layer

  function TileUrl(k: MapLayer, layer: RadarLayer, zoom: int, t: Tile): string {
    match k
    case BaseMap => BaseMapUrl(zoom, t.x, t.y)
    case RadarOverlay => RadarMapUrl(layer, zoom, t.x, t.y)
    case CityNames => CityNamesMapUrl(zoom, t.x, t.y)
  }

  /** The images of one layer, one per tile, placed with `round`. */
  function LayerDraws(k: MapLayer, layer: RadarLayer, zoom: int, tiles: seq<Tile>, p: TileLayoutParams,
                      bounds: Bounds, alpha: real, round: real -> int): (r: seq<Draw>)
    requires ValidParams(p)
    ensures |r| == |tiles|
    ensures forall i :: 0 <= i < |r| ==> r[i].layer == k && r[i].tile == tiles[i] && r[i].alpha == alpha
    ensures forall i :: 0 <= i < |r| ==>
      && r[i].url == TileUrl(k, layer, zoom, tiles[i])
      && r[i].left == round(OffsetLeft(p, bounds, tiles[i].x))
      && r[i].top == round(OffsetTop(p, bounds, tiles[i].y))
  {
    seq(|tiles|, i requires 0 <= i < |tiles| =>
      Draw(k, tiles[i], TileUrl(k, layer, zoom, tiles[i]),
           round(OffsetLeft(p, bounds, tiles[i].x)), round(OffsetTop(p, bounds, tiles[i].y)), alpha))
  }

  /** Draw `d` shows the image of its own layer and tile, at the offsets of
      that tile in the layout of its layer, rounded by `round`. */
  predicate Placed(d: Draw, layer: RadarLayer, zoom: int, bounds: Bounds, round: real -> int)
    requires zoom >= 0
  {
    match LayoutParams(zoom, LayerName(d.layer))
    case None => false
    case Some(p) =>
      && d.url == TileUrl(d.layer, layer, zoom, d.tile)
      && d.left == round(OffsetLeft(p, bounds, d.tile.x))
      && d.top == round(OffsetTop(p, bounds, d.tile.y))
  }

  /** A layer as both revisions draw it: skipped entirely when its layout
      parameters are missing, otherwise every tile of its range. */
  function DrawLayer(k: MapLayer, layer: RadarLayer, zoom: int, bounds: Bounds, alpha: real,
                     round: real -> int): (r: seq<Draw>)
    requires zoom >= 0
    ensures LayoutParams(zoom, LayerName(k)).None? ==> r == []
    ensures forall i :: 0 <= i < |r| ==> r[i].layer == k && r[i].alpha == alpha
    ensures forall d :: d in r ==> Placed(d, layer, zoom, bounds, round)
    ensures LayoutParams(zoom, LayerName(k)).Some? ==>
      var tiles := Grid(TileCoordinatesForBounds(bounds, zoom, LayerName(k)));
      |r| == |tiles| && forall i :: 0 <= i < |r| ==> r[i].tile == tiles[i]
  {
    match LayoutParams(zoom, LayerName(k))
    case None => []
    case Some(p) =>
      LayerDraws(k, layer, zoom, Grid(TileCoordinatesForBounds(bounds, zoom, LayerName(k))), p, bounds, alpha, round)
  }

  /** The draws of layer `k`, in drawing order. */
  function DrawsOf(ds: seq<Draw>, k: MapLayer): seq<Draw> {
    if |ds| == 0 then []
    else (if ds[0].layer == k then [ds[0]] else []) + DrawsOf(ds[1..], k)
  }

  lemma {:induction false} DrawsOfAppend(a: seq<Draw>, b: seq<Draw>, k: MapLayer)
    ensures DrawsOf(a + b, k) == DrawsOf(a, k) + DrawsOf(b, k)
    decreases |a|
  {
    if |a| == 0 {
      assert a + b == b;
    } else {
      var head := if a[0].layer == k then [a[0]] else [];
      assert (a + b)[0] == a[0];
      assert (a + b)[1..] == a[1..] + b;
      assert DrawsOf(a + b, k) == head + DrawsOf(a[1..] + b, k);
      DrawsOfAppend(a[1..], b, k);
      assert head + (DrawsOf(a[1..], k) + DrawsOf(b, k)) == (head + DrawsOf(a[1..], k)) + DrawsOf(b, k);
    }
  }

  lemma {:induction false} DrawsOfOneLayer(ds: seq<Draw>, j: MapLayer, k: MapLayer)
    requires forall i :: 0 <= i < |ds| ==> ds[i].layer == j
    ensures DrawsOf(ds, k) == if j == k then ds else []
    decreases |ds|
  {
    if |ds| > 0 {
      DrawsOfOneLayer(ds[1..], j, k);
      if j == k {
        assert ds == [ds[0]] + ds[1..];
      }
    }
  }

  /** Of three single-layer blocks of different layers, layer `k` draws
      exactly the block that is its own. */
  lemma DrawsOfBlocks(a: seq<Draw>, b: seq<Draw>, c: seq<Draw>, ka: MapLayer, kb: MapLayer, kc: MapLayer, k: MapLayer)
    requires forall i :: 0 <= i < |a| ==> a[i].layer == ka
    requires forall i :: 0 <= i < |b| ==> b[i].layer == kb
    requires forall i :: 0 <= i < |c| ==> c[i].layer == kc
    requires ka != kb && kb != kc && ka != kc
    ensures DrawsOf(a + b + c, k) == if k == ka then a else if k == kb then b else if k == kc then c else []
  {
    DrawsOfAppend(a + b, c, k);
    DrawsOfAppend(a, b, k);
    DrawsOfOneLayer(a, ka, k);
    DrawsOfOneLayer(b, kb, k);
    DrawsOfOneLayer(c, kc, k);
  }

  /** The tiles drawn for layer `k`, in drawing order. */
  function TilesOf(ds: seq<Draw>, k: MapLayer): seq<Tile> {
    var d := DrawsOf(ds, k);
    seq(|d|, i requires 0 <= i < |d| => d[i].tile)
  }

  /** Layers appear in blocks following `rank`. */
  predicate OrderedBy(ds: seq<Draw>, rank: MapLayer -> int) {
    forall i, j :: 0 <= i < j < |ds| ==> rank(ds[i].layer) <= rank(ds[j].layer)
  }

  /** Only radar tiles are half transparent. */
  predicate RadarHalfTransparent(ds: seq<Draw>) {
    forall i :: 0 <= i < |ds| ==> (ds[i].alpha == 0.5 <==> ds[i].layer == RadarOverlay)
  }

  /** Three single-layer blocks in rank order are ordered, and only the radar
      block is half transparent. */
  lemma Blocks(a: seq<Draw>, b: seq<Draw>, c: seq<Draw>, ka: MapLayer, kb: MapLayer, kc: MapLayer,
               rank: MapLayer -> int)
    requires forall i :: 0 <= i < |a| ==> a[i].layer == ka
    requires forall i :: 0 <= i < |b| ==> b[i].layer == kb
    requires forall i :: 0 <= i < |c| ==> c[i].layer == kc
    requires rank(ka) <= rank(kb) <= rank(kc)
    requires RadarHalfTransparent(a) && RadarHalfTransparent(b) && RadarHalfTransparent(c)
    ensures OrderedBy(a + b + c, rank)
    ensures RadarHalfTransparent(a + b + c)
  {
    var d := a + b + c;
    forall i | 0 <= i < |d|
      ensures d[i].layer == (if i < |a| then ka else if i < |a| + |b| then kb else kc)
      ensures d[i].alpha == 0.5 <==> d[i].layer == RadarOverlay
    {
      if i < |a| {
        assert d[i] == a[i];
      } else if i < |a| + |b| {
        assert d[i] == b[i - |a|];
      } else {
        assert d[i] == c[i - |a| - |b|];
      }
    }
  }

  /** A drawn layer is half transparent exactly when it is the radar. */
  lemma DrawLayerAlpha(k: MapLayer, layer: RadarLayer, zoom: int, bounds: Bounds, alpha: real, round: real -> int)
    requires zoom >= 0
    requires alpha == 0.5 <==> k == RadarOverlay
    ensures RadarHalfTransparent(DrawLayer(k, layer, zoom, bounds, alpha, round))
  {
  }

  // ---------------------------------------------------------------------------
  // The first revision (`com.example`): fixed zoom, `toInt()` truncation

  function LegacyRank(k: MapLayer): int {
    match k
    case BaseMap => 0
    case CityNames => 1
    case RadarOverlay => 2
  }

  /** The first revision's `RadarMap` body: base map, then city names, then the
      half-transparent radar, each layer's offsets truncated by `toInt()`. The
      projected centre stands for the projected `(lat, lon)`. */
  function LegacyRadarMap(layer: RadarLayer, center: Coord, zoom: int, widthPx: int, heightPx: int): (r: seq<Draw>)
    requires 0 <= zoom < |RadarTable|
    ensures OrderedBy(r, LegacyRank)
    ensures RadarHalfTransparent(r)
    ensures forall d :: d in r ==> Placed(d, layer, zoom, ProjectedBounds(center, zoom, widthPx, heightPx), DoubleToInt)
  {
    var bounds := ProjectedBounds(center, zoom, widthPx, heightPx);
    var base := DrawLayer(BaseMap, layer, zoom, bounds, 1.0, DoubleToInt);
    var text := DrawLayer(CityNames, layer, zoom, bounds, 1.0, DoubleToInt);
    var radar := DrawLayer(RadarOverlay, layer, zoom, bounds, 0.5, DoubleToInt);
    DrawLayerAlpha(BaseMap, layer, zoom, bounds, 1.0, DoubleToInt);
    DrawLayerAlpha(CityNames, layer, zoom, bounds, 1.0, DoubleToInt);
    DrawLayerAlpha(RadarOverlay, layer, zoom, bounds, 0.5, DoubleToInt);
    Blocks(base, text, radar, BaseMap, CityNames, RadarOverlay, LegacyRank);
    base + text + radar
  }

  /** The draws of layer `k` in the first revision are that layer drawn alone
      over the projected box, truncating offsets. */
  lemma LegacyRadarMapLayer(layer: RadarLayer, center: Coord, zoom: int, widthPx: int, heightPx: int, k: MapLayer)
    requires 0 <= zoom < |RadarTable|
    ensures DrawsOf(LegacyRadarMap(layer, center, zoom, widthPx, heightPx), k)
      == DrawLayer(k, layer, zoom, ProjectedBounds(center, zoom, widthPx, heightPx),
                   if k == RadarOverlay then 0.5 else 1.0, DoubleToInt)
  {
    var bounds := ProjectedBounds(center, zoom, widthPx, heightPx);
    var base := DrawLayer(BaseMap, layer, zoom, bounds, 1.0, DoubleToInt);
    var text := DrawLayer(CityNames, layer, zoom, bounds, 1.0, DoubleToInt);
    var radar := DrawLayer(RadarOverlay, layer, zoom, bounds, 0.5, DoubleToInt);
    assert LegacyRadarMap(layer, center, zoom, widthPx, heightPx) == base + text + radar;
    DrawsOfBlocks(base, text, radar, BaseMap, CityNames, RadarOverlay, k);
  }

  /** Each layer of the first revision visits exactly its tile range. */
  lemma LegacyRadarMapTiles(layer: RadarLayer, center: Coord, zoom: int, widthPx: int, heightPx: int, k: MapLayer)
    requires 0 <= zoom < |RadarTable|
    ensures TilesOf(LegacyRadarMap(layer, center, zoom, widthPx, heightPx), k)
      == if LayoutParams(zoom, LayerName(k)).Some?
         then Grid(TileCoordinatesForBounds(ProjectedBounds(center, zoom, widthPx, heightPx), zoom, LayerName(k)))
         else []
  {
    LegacyRadarMapLayer(layer, center, zoom, widthPx, heightPx, k);
  }

  // ---------------------------------------------------------------------------
  // The second revision (`dev.isalazy`): `MapContent` and `RenderTiles`

  function Rank(k: MapLayer): int {
    match k
    case BaseMap => 0
    case RadarOverlay => 1
    case CityNames => 2
  }

  /** `MapContent`: nothing when the radar layer has no tile matrix at this
      zoom; otherwise the box of `widthPx` by `heightPx` radar pixels around the
      centre, drawn as base map, then radar at alpha 0.5, then city names,
      offsets rounded by `round`. */
  function MapContent(layer: RadarLayer, center: Coord, zoom: int, widthPx: int, heightPx: int,
                      round: real -> int): (r: seq<Draw>)
    requires zoom >= 0
    ensures LayoutParams(zoom, "radar").None? ==> r == []
    ensures OrderedBy(r, Rank)
    ensures RadarHalfTransparent(r)
    ensures LayoutParams(zoom, "radar").Some? ==>
      var bounds := BoxAround(center, LayoutParams(zoom, "radar").value.resolution, widthPx, heightPx);
      forall d :: d in r ==> Placed(d, layer, zoom, bounds, round)
  {
    match LayoutParams(zoom, "radar")
    case None => []
    case Some(rp) =>
      var bounds := BoxAround(center, rp.resolution, widthPx, heightPx);
      var base := DrawLayer(BaseMap, layer, zoom, bounds, 1.0, round);
      var radar := DrawLayer(RadarOverlay, layer, zoom, bounds, 0.5, round);
      var text := DrawLayer(CityNames, layer, zoom, bounds, 1.0, round);
      DrawLayerAlpha(BaseMap, layer, zoom, bounds, 1.0, round);
      DrawLayerAlpha(RadarOverlay, layer, zoom, bounds, 0.5, round);
      DrawLayerAlpha(CityNames, layer, zoom, bounds, 1.0, round);
      Blocks(base, radar, text, BaseMap, RadarOverlay, CityNames, Rank);
      base + radar + text
  }

  /** The draws of layer `k` in the second revision are that layer drawn alone
      over the same box, offsets rounded by `round`. */
  lemma MapContentLayer(layer: RadarLayer, center: Coord, zoom: int, widthPx: int, heightPx: int,
                        round: real -> int, k: MapLayer)
    requires 0 <= zoom < |RadarTable|
    ensures DrawsOf(MapContent(layer, center, zoom, widthPx, heightPx, round), k)
      == DrawLayer(k, layer, zoom, ProjectedBounds(center, zoom, widthPx, heightPx),
                   if k == RadarOverlay then 0.5 else 1.0, round)
  {
    RadarParams(zoom);
    var rp := LayoutParams(zoom, "radar").value;
    var bounds := BoxAround(center, rp.resolution, widthPx, heightPx);
    assert bounds == ProjectedBounds(center, zoom, widthPx, heightPx);
    var base := DrawLayer(BaseMap, layer, zoom, bounds, 1.0, round);
    var radar := DrawLayer(RadarOverlay, layer, zoom, bounds, 0.5, round);
    var text := DrawLayer(CityNames, layer, zoom, bounds, 1.0, round);
    assert MapContent(layer, center, zoom, widthPx, heightPx, round) == base + radar + text;
    DrawsOfBlocks(base, radar, text, BaseMap, RadarOverlay, CityNames, k);
  }

  /** Each layer of the second revision visits exactly its tile range of the
      box around the centre. */
  lemma MapContentTiles(layer: RadarLayer, center: Coord, zoom: int, widthPx: int, heightPx: int,
                        round: real -> int, k: MapLayer)
    requires 0 <= zoom < |RadarTable|
    ensures TilesOf(MapContent(layer, center, zoom, widthPx, heightPx, round), k)
      == if LayoutParams(zoom, LayerName(k)).Some?
         then Grid(TileCoordinatesForBounds(ProjectedBounds(center, zoom, widthPx, heightPx), zoom, LayerName(k)))
         else []
  {
    MapContentLayer(layer, center, zoom, widthPx, heightPx, round, k);
  }

  /** Both revisions draw, for each layer, the same images in the same order
      from the same box: the same tiles, URLs and alpha, at offsets computed
      from the same unrounded positions. The only differences are the order of
      the layers and how an offset is turned into whole pixels: `round` in the
      second revision, `toInt()` truncation in the first. Where the two agree,
      so do the layers. */
  lemma MapContentMatchesLegacy(layer: RadarLayer, center: Coord, zoom: int, widthPx: int, heightPx: int,
                                round: real -> int, k: MapLayer)
    requires 0 <= zoom < |RadarTable|
    ensures var a := DrawsOf(MapContent(layer, center, zoom, widthPx, heightPx, round), k);
      var b := DrawsOf(LegacyRadarMap(layer, center, zoom, widthPx, heightPx), k);
      var bounds := ProjectedBounds(center, zoom, widthPx, heightPx);
      && |a| == |b|
      && (forall i :: 0 <= i < |a| ==>
            && a[i].layer == b[i].layer == k && a[i].tile == b[i].tile
            && a[i].url == b[i].url && a[i].alpha == b[i].alpha
            && Placed(a[i], layer, zoom, bounds, round)
            && Placed(b[i], layer, zoom, bounds, DoubleToInt))
      && ((forall x :: round(x) == DoubleToInt(x)) ==> a == b)
  {
    MapContentLayer(layer, center, zoom, widthPx, heightPx, round, k);
    LegacyRadarMapLayer(layer, center, zoom, widthPx, heightPx, k);
    DrawLayerRoundings(k, layer, zoom, ProjectedBounds(center, zoom, widthPx, heightPx),
                       if k == RadarOverlay then 0.5 else 1.0, round);
  }

  /** One layer drawn with two roundings: the same images, tiles and alpha,
      placed by each rounding from the same offsets; equal roundings give
      equal layers. */
  lemma DrawLayerRoundings(k: MapLayer, layer: RadarLayer, zoom: int, bounds: Bounds, alpha: real, round: real -> int)
    requires zoom >= 0
    ensures var a := DrawLayer(k, layer, zoom, bounds, alpha, round);
      var b := DrawLayer(k, layer, zoom, bounds, alpha, DoubleToInt);
      && |a| == |b|
      && (forall i :: 0 <= i < |a| ==>
            && a[i].layer == b[i].layer == k && a[i].tile == b[i].tile
            && a[i].url == b[i].url && a[i].alpha == b[i].alpha
            && Placed(a[i], layer, zoom, bounds, round)
            && Placed(b[i], layer, zoom, bounds, DoubleToInt))
      && ((forall x :: round(x) == DoubleToInt(x)) ==> a == b)
  {
    var a := DrawLayer(k, layer, zoom, bounds, alpha, round);
    var b := DrawLayer(k, layer, zoom, bounds, alpha, DoubleToInt);
    forall i | 0 <= i < |a| ensures Placed(a[i], layer, zoom, bounds, round) && Placed(b[i], layer, zoom, bounds, DoubleToInt) {
      assert a[i] in a && b[i] in b;
    }
    if forall x :: round(x) == DoubleToInt(x) {
      forall i | 0 <= i < |a| ensures a[i] == b[i] {
        assert a[i] in a && b[i] in b;
      }
    }
  }

  /** With a screen of non-negative size, `MapContent` draws something exactly
      when the radar tile matrix exists at that zoom. */
  lemma MapContentEmptyIff(layer: RadarLayer, center: Coord, zoom: int, widthPx: int, heightPx: int,
                           round: real -> int)
    requires zoom >= 0 && widthPx >= 0 && heightPx >= 0
    ensures MapContent(layer, center, zoom, widthPx, heightPx, round) == [] <==> zoom >= |RadarTable|
  {
    if zoom < |RadarTable| {
      var bounds := ProjectedBounds(center, zoom, widthPx, heightPx);
      ProjectedBoundsSpan(center, zoom, widthPx, heightPx);
      TileRangeOrdered(bounds, zoom, "radar");
      var range := TileCoordinatesForBounds(bounds, zoom, "radar");
      GridShape(range);
      assert Tile(range.minX, range.minY) in Grid(range);
      MapContentTiles(layer, center, zoom, widthPx, heightPx, round, RadarOverlay);
    }
  }
}
