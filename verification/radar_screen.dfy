/** The pure rules of the second revision's radar screen and start-up: the
    timestamp shown under the map, the tiles fetched ahead of playback, the
    animation step, and which location the weather is loaded for. */
module RadarScreen {
  import opened Wrappers
  import opened KotlinNum
  import opened KotlinText
  import opened TileMatrices
  import opened TileUrls
  import opened Capabilities
  import opened TileRender

  // ---------------------------------------------------------------------------
  // formatTimestamp

  /** The string stage of `formatTimestamp`: `None` when the identifier lacks
      the radar prefix, otherwise the text after the prefix up to the last
      `_` (all of it when there is none). */
  function TimestampText(identifier: string): (r: Option<string>)
    ensures r.None? <==> !StartsWith(identifier, RadarPrefix)
    ensures r.Some? ==> exists rest :: identifier == RadarPrefix + rest && SubstringBeforeLast(rest, '_') == r.value
  {
    if !StartsWith(identifier, RadarPrefix) then None
    else
      var rest := RemovePrefix(identifier, RadarPrefix);
      Some(SubstringBeforeLast(rest, '_'))
  }

  /** `formatTimestamp`: `parse` stands for the UTC `yyyy-MM-dd'T'HH-mm-ss'Z'`
      parser (`None` for a parse failure or a null date, both of which give
      ""), `format` for the `yyyy-MM-dd HH:mm` formatter. */
  function FormatTimestamp<D>(identifier: string, parse: string -> Option<D>, format: D -> string): (r: string)
    ensures !StartsWith(identifier, RadarPrefix) ==> r == ""
    ensures StartsWith(identifier, RadarPrefix) && parse(TimestampText(identifier).value).None? ==> r == ""
    ensures StartsWith(identifier, RadarPrefix) && parse(TimestampText(identifier).value).Some? ==>
      r == format(parse(TimestampText(identifier).value).value)
  {
    match TimestampText(identifier)
    case None => ""
    case Some(text) =>
      match parse(text)
      case None => ""
      case Some(d) => format(d)
  }

  /** The timestamp of an identifier built as prefix, time, `_`, suffix (the
      suffix without `_`) is the time, and with no suffix the whole rest. */
  lemma TimestampTextOfIdentifier(time: string, suffix: string)
    requires '_' !in suffix
    ensures TimestampText(RadarPrefix + time + "_" + suffix) == Some(time)
    ensures '_' !in time ==> TimestampText(RadarPrefix + time) == Some(time)
  {
    var id := RadarPrefix + time + "_" + suffix;
    assert StartsWith(id, RadarPrefix) by {
      assert id[..|RadarPrefix|] == RadarPrefix;
    }
    assert RemovePrefix(id, RadarPrefix) == time + ['_'] + suffix;
    SubstringBeforeLastOf(time, suffix, '_');
    var id2 := RadarPrefix + time;
    assert id2[..|RadarPrefix|] == RadarPrefix;
    assert RemovePrefix(id2, RadarPrefix) == time;
  }

  /** The label of an identifier carrying the time `time` is that time, parsed
      and formatted, or "" when it does not parse. */
  lemma FormatTimestampOfIdentifier<D>(time: string, suffix: string, parse: string -> Option<D>, format: D -> string)
    requires '_' !in suffix
    ensures FormatTimestamp(RadarPrefix + time + "_" + suffix, parse, format)
      == match parse(time) case None => "" case Some(d) => format(d)
  {
    TimestampTextOfIdentifier(time, suffix);
  }

  /** Every layer the capabilities parser returns has a timestamp text, so
      only a parse failure can blank its label. */
  lemma ParsedLayersHaveTimestamps(document: Result<seq<Event>>, i: int)
    requires 0 <= i < |RadarLayersOf(document)|
    ensures TimestampText(RadarLayersOf(document)[i].identifier).Some?
  {
  }

  // ---------------------------------------------------------------------------
  // preFetchRadarTiles

  /** The radar URLs of one layer over the given tiles, in order. */
  function LayerTileUrls(layer: RadarLayer, zoom: int, tiles: seq<Tile>): (r: seq<string>)
    ensures |r| == |tiles|
    ensures forall i :: 0 <= i < |r| ==> r[i] == RadarMapUrl(layer, zoom, tiles[i].x, tiles[i].y)
  {
    seq(|tiles|, i requires 0 <= i < |tiles| => RadarMapUrl(layer, zoom, tiles[i].x, tiles[i].y))
  }

  /** The blocks one after the other. */
  function Flatten<T>(blocks: seq<seq<T>>): seq<T>
    decreases |blocks|
  {
    if |blocks| == 0 then [] else blocks[0] + Flatten(blocks[1..])
  }

  predicate Uniform<T>(blocks: seq<seq<T>>, n: nat) {
    forall l :: 0 <= l < |blocks| ==> |blocks[l]| == n
  }

  lemma {:induction false} FlattenLength<T>(blocks: seq<seq<T>>, n: nat)
    requires Uniform(blocks, n)
    ensures |Flatten(blocks)| == |blocks| * n
    decreases |blocks|
  {
    if |blocks| > 0 {
      FlattenLength(blocks[1..], n);
      MulPred(|blocks|, n);
    }
  }

  /** Element `i` of block `l` sits at position `l * n + i`. */
  lemma {:induction false} FlattenAt<T>(blocks: seq<seq<T>>, n: nat, l: int, i: int)
    requires Uniform(blocks, n) && 0 <= l < |blocks| && 0 <= i < n
    ensures l * n + i < |Flatten(blocks)|
    ensures Flatten(blocks)[l * n + i] == blocks[l][i]
    decreases l
  {
    FlattenLength(blocks[1..], n);
    if l > 0 {
      FlattenAt(blocks[1..], n, l - 1, i);
      MulPred(l, n);
      assert blocks[1..][l - 1] == blocks[l];
    }
  }

  /** The radar range of the screen box around the projected centre. */
  function PrefetchRange(center: Coord, zoom: int, widthPx: int, heightPx: int): TileRange
    requires 0 <= zoom < |RadarTable|
  {
    TileCoordinatesForBounds(ProjectedBounds(center, zoom, widthPx, heightPx), zoom, "radar")
  }

  function PrefetchBlocks(layers: seq<RadarLayer>, zoom: int, tiles: seq<Tile>): (r: seq<seq<string>>)
    ensures |r| == |layers| && Uniform(r, |tiles|)
    ensures forall l :: 0 <= l < |r| ==> r[l] == LayerTileUrls(layers[l], zoom, tiles)
  {
    seq(|layers|, l requires 0 <= l < |layers| => LayerTileUrls(layers[l], zoom, tiles))
  }

  /** `preFetchRadarTiles`: for every layer, in order, the radar URL of every
      tile of the screen box. */
  function PrefetchUrls(layers: seq<RadarLayer>, center: Coord, zoom: int, widthPx: int, heightPx: int): (r: seq<string>)
    requires 0 <= zoom < |RadarTable|
    ensures |r| == |layers| * |Grid(PrefetchRange(center, zoom, widthPx, heightPx))|
  {
    var tiles := Grid(PrefetchRange(center, zoom, widthPx, heightPx));
    FlattenLength(PrefetchBlocks(layers, zoom, tiles), |tiles|);
    Flatten(PrefetchBlocks(layers, zoom, tiles))
  }

  /** There are layers times rows times columns of the radar range requests. */
  lemma PrefetchUrlsCount(layers: seq<RadarLayer>, center: Coord, zoom: int, widthPx: int, heightPx: int)
    requires 0 <= zoom < |RadarTable|
    ensures var range := PrefetchRange(center, zoom, widthPx, heightPx);
      |PrefetchUrls(layers, center, zoom, widthPx, heightPx)|
        == |layers| * (Span(range.minY, range.maxY) * Span(range.minX, range.maxX))
  {
    GridShape(PrefetchRange(center, zoom, widthPx, heightPx));
  }

  /** The requests run layer by layer, each over the range's tiles in
      row-major order (`GridShape`): request `l * |tiles| + i` is tile `i` of
      layer `l`. */
  lemma PrefetchUrlsAt(layers: seq<RadarLayer>, center: Coord, zoom: int, widthPx: int, heightPx: int, l: int, i: int)
    requires 0 <= zoom < |RadarTable|
    requires 0 <= l < |layers| && 0 <= i < |Grid(PrefetchRange(center, zoom, widthPx, heightPx))|
    ensures var tiles := Grid(PrefetchRange(center, zoom, widthPx, heightPx));
      && l * |tiles| + i < |PrefetchUrls(layers, center, zoom, widthPx, heightPx)|
      && PrefetchUrls(layers, center, zoom, widthPx, heightPx)[l * |tiles| + i]
         == RadarMapUrl(layers[l], zoom, tiles[i].x, tiles[i].y)
  {
    var tiles := Grid(PrefetchRange(center, zoom, widthPx, heightPx));
    FlattenAt(PrefetchBlocks(layers, zoom, tiles), |tiles|, l, i);
  }

  // ---------------------------------------------------------------------------
  // Playback

  /** One animation tick: the index advances modulo the number of layers; with
      no layers it is left alone. */
  function Tick(index: int, size: int): (r: int)
    ensures size > 0 && index >= 0 ==> 0 <= r < size
    ensures size <= 0 ==> r == index
  {
    if size > 0 then TruncRem(index + 1, size) else index
  }

  function Ticks(index: int, size: int, n: nat): int
    decreases n
  {
    if n == 0 then index else Ticks(Tick(index, size), size, n - 1)
  }

  /** After `n` ticks from a valid index the index is `(index + n) mod size`:
      playback cycles through every layer and wraps to the first. */
  lemma {:induction false} TicksCycle(index: int, size: int, n: nat)
    requires 0 <= index < size
    ensures Ticks(index, size, n) == (index + n) % size
    decreases n
  {
    if n > 0 {
      var next := Tick(index, size);
      assert next == (index + 1) % size by {
        QuotientUnique(index + 1, size, TruncDiv(index + 1, size), (index + 1) / size);
      }
      TicksCycle(next, size, n - 1);
      assert (next + (n - 1)) % size == (index + n) % size by {
        ModAddLeft(index + 1, n - 1, size);
      }
    }
  }

  /** What the screen does once the layer list arrives. */
  datatype Playback = Playback(shown: int, firstFetch: seq<RadarLayer>, background: seq<RadarLayer>)

  /** With layers present, the most recent (last) layer is fetched and shown
      first and the rest are fetched in the background; with none, nothing
      happens. */
  function StartPlayback(layers: seq<RadarLayer>): (r: Option<Playback>)
    ensures r.None? <==> |layers| == 0
    ensures r.Some? ==>
      && r.value.shown == |layers| - 1
      && r.value.firstFetch == [layers[r.value.shown]]
      && r.value.background + r.value.firstFetch == layers
  {
    if |layers| == 0 then None
    else Some(Playback(|layers| - 1, [layers[|layers| - 1]], layers[..|layers| - 1]))
  }

  // ---------------------------------------------------------------------------
  // Which location the weather is loaded for

  const MontrealLat: real := 45.5017
  const MontrealLon: real := -73.5673
  datatype LatLon = LatLon(lat: real, lon: real)

  /** The fallback used when the device gives no position, and by the view
      model and the first revision when a fetch fails. */
  const FallbackLocation := LatLon(45.529, -73.562)

  /** The stored preferences: the location mode and saved position the
      start-up choice reads, and the city last selected in the city list
      (`None` for "my location"). */
  datatype Prefs = Prefs(locationMode: string, saved: Option<LatLon>, selectedCity: Option<LatLon>)

  datatype Action = RequestPermission | Load(at: LatLon, forceRefresh: bool)

  /** The choice made at start-up (`forceRefresh` false) and on pull-to-refresh
      (`forceRefresh` true). */
  function ChooseLocation(prefs: Prefs, forceRefresh: bool): (r: Action)
    ensures r.RequestPermission? <==> prefs.locationMode == "detect"
    ensures r.Load? ==> r.forceRefresh == forceRefresh
    ensures r.Load? && prefs.saved.Some? ==> r.at == prefs.saved.value
    ensures r.Load? && prefs.saved.None? ==> r.at == LatLon(MontrealLat, MontrealLon)
  {
    if prefs.locationMode == "detect" then RequestPermission
    else if prefs.saved.Some? then Load(prefs.saved.value, forceRefresh)
    else Load(LatLon(MontrealLat, MontrealLon), forceRefresh)
  }

  /** Refreshing makes the start-up choice again, forcing the load. */
  lemma RefreshFollowsStartup(prefs: Prefs)
    ensures ChooseLocation(prefs, true)
      == match ChooseLocation(prefs, false)
         case RequestPermission => RequestPermission
         case Load(at, _) => Load(at, true)
  {
  }

  /** The outcome of asking the device for its position. */
  datatype LocationFix = Fix(at: LatLon) | NoFix | FixFailed

  /** The permission callback and `getLocation`: a denied permission loads
      nothing; a position is saved and loaded; no position loads the fallback
      point. */
  function OnPermissionResult(prefs: Prefs, granted: bool, fix: LocationFix): (r: (Prefs, Option<Action>))
    ensures !granted ==> r == (prefs, None)
    ensures granted ==> r.1.Some? && r.1.value.Load? && !r.1.value.forceRefresh
    ensures granted && fix.Fix? ==> r.1.value.at == fix.at && r.0 == prefs.(saved := Some(fix.at))
    ensures granted && !fix.Fix? ==> r.1.value.at == FallbackLocation && r.0 == prefs
  {
    if !granted then (prefs, None)
    else match fix
      case Fix(at) => (prefs.(saved := Some(at)), Some(Load(at, false)))
      case _ => (prefs, Some(Load(FallbackLocation, false)))
  }

  /** After a granted permission with a position, a later start-up outside
      detect mode loads that saved position. */
  lemma SavedFixIsReused(prefs: Prefs, at: LatLon)
    requires prefs.locationMode != "detect"
    ensures var p := OnPermissionResult(prefs, true, Fix(at)).0;
      ChooseLocation(p, false) == Load(at, false)
  {
  }

  /** Selecting a city stores it as the selection, then loads it; selecting
      "my location" stores no selection and asks for the permission again. */
  function OnCitySelected(prefs: Prefs, city: Option<LatLon>): (r: (Prefs, Action))
    ensures r.0 == prefs.(selectedCity := city)
    ensures r.1.RequestPermission? <==> city.None?
    ensures r.1.Load? ==> r.1.at == city.value && !r.1.forceRefresh
  {
    var stored := prefs.(selectedCity := city);
    match city
    case None => (stored, RequestPermission)
    case Some(at) => (stored, Load(at, false))
  }

  /** The stored selection is not what start-up or refresh read: after a
      selection they make the same choice as before it. */
  lemma SelectionLeavesStartupAlone(prefs: Prefs, city: Option<LatLon>, forceRefresh: bool)
    ensures ChooseLocation(OnCitySelected(prefs, city).0, forceRefresh) == ChooseLocation(prefs, forceRefresh)
  {
  }
}
