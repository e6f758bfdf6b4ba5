/** Tile-image URLs of the three map layers: the fixed base-map and city-name
    URL patterns, and the radar layer's WMTS `ResourceURL` template (RESTful
    encoding, clause 10 of OGC WMTS 1.0.0) filled in by string replacement. */
module TileUrls {
  import opened KotlinText
  import opened TileMatrices

  /** One radar layer advertised by the capabilities document (`RadarLayer`). */
  datatype RadarLayer = RadarLayer(
    identifier: string,
    style: string,
    tileMatrixSet: string,
    resourceUrlTemplate: string)

  const BaseMapPrefix := "https://geoappext.nrcan.gc.ca/arcgis/rest/services/BaseMaps/CBMT_CBCT_GEOM_3978/MapServer/WMTS/tile/1.0.0/BaseMaps_CBMT_CBCT_GEOM_3978/default/default028mm/"
  const CityNamesPrefix := "https://geoappext.nrcan.gc.ca/arcgis/rest/services/BaseMaps/CBCT_TXT_3978/MapServer/WMTS/tile/1.0.0/BaseMaps_CBCT_TXT_3978/default/default028mm/"

  /** The `zoom/row/column` tail shared by the two fixed URL patterns. */
  function TilePath(zoom: int, x: int, y: int): string {
    IntToString(zoom) + "/" + (IntToString(y) + "/" + IntToString(x))
  }

  /** `getBaseMapUrl`. */
  function BaseMapUrl(zoom: int, x: int, y: int): (r: string)
    ensures StartsWith(r, BaseMapPrefix)
  {
    BaseMapPrefix + TilePath(zoom, x, y) + ".jpg"
  }

  /** `getCityNamesMapUrl`. */
  function CityNamesMapUrl(zoom: int, x: int, y: int): (r: string)
    ensures StartsWith(r, CityNamesPrefix)
  {
    CityNamesPrefix + TilePath(zoom, x, y) + ".png"
  }

  /** `zoom.toString().padStart(2, '0')`. */
  function ZoomString(zoom: int): (r: string)
    ensures |r| >= 2
    ensures 0 <= zoom < 10 ==> r == ['0', Digit(zoom)]
    ensures zoom >= 10 ==> r == IntToString(zoom)
    ensures '{' !in r
  {
    var s := IntToString(zoom);
    var r := PadStart(s, 2, '0');
    assert '{' !in r by {
      forall i | 0 <= i < |r| ensures r[i] != '{' {
        if i >= |r| - |s| { assert r[i] == r[|r| - |s|..][i - (|r| - |s|)] == s[i - (|r| - |s|)]; }
      }
    }
    assert 0 <= zoom < 10 ==> r == ['0'] + s;
    r
  }

  /** `getRadarMapUrl`: the five WMTS placeholders replaced in turn. A
      template without any of them is returned unchanged. */
  function RadarMapUrl(layer: RadarLayer, zoom: int, x: int, y: int): (r: string)
    ensures (forall f: Field :: !Occurs(layer.resourceUrlTemplate, Token(f))) ==> r == layer.resourceUrlTemplate
  {
    var t := layer.resourceUrlTemplate;
    var t1 := ReplaceAll(t, "{Style}", layer.style);
    var t2 := ReplaceAll(t1, "{TileMatrixSet}", layer.tileMatrixSet);
    var t3 := ReplaceAll(t2, "{TileMatrix}", ZoomString(zoom));
    var t4 := ReplaceAll(t3, "{TileCol}", IntToString(x));
    var r := ReplaceAll(t4, "{TileRow}", IntToString(y));
    if forall f: Field :: !Occurs(t, Token(f)) then
      assert !Occurs(t, Token(StyleField)) && !Occurs(t, Token(TileMatrixSetField));
      assert !Occurs(t, Token(TileMatrixField)) && !Occurs(t, Token(TileColField)) && !Occurs(t, Token(TileRowField));
      ReplaceAllAbsent(t, "{Style}", layer.style);
      ReplaceAllAbsent(t, "{TileMatrixSet}", layer.tileMatrixSet);
      ReplaceAllAbsent(t, "{TileMatrix}", ZoomString(zoom));
      ReplaceAllAbsent(t, "{TileCol}", IntToString(x));
      ReplaceAllAbsent(t, "{TileRow}", IntToString(y));
      r
    else r
  }

  // ---------------------------------------------------------------------------
  // The template, as a sequence of literal text and placeholders

  datatype Field = StyleField | TileMatrixSetField | TileMatrixField | TileColField | TileRowField

  function Token(f: Field): (t: string)
    ensures IsToken(t)
  {
    match f
    case StyleField => "{Style}"
    case TileMatrixSetField => "{TileMatrixSet}"
    case TileMatrixField => "{TileMatrix}"
    case TileColField => "{TileCol}"
    case TileRowField => "{TileRow}"
  }

  lemma TokensDistinct(f: Field, g: Field)
    requires f != g
    ensures Token(f) != Token(g)
  {
    assert |Token(f)| != |Token(g)| || Token(f)[5] != Token(g)[5];
  }

  datatype Piece = Lit(text: string) | Slot(field: Field)

  /** The template text a piece sequence spells. */
  function Render(ps: seq<Piece>): string {
    if |ps| == 0 then ""
    else (match ps[0] case Lit(t) => t case Slot(f) => Token(f)) + Render(ps[1..])
  }

  /** Literal text that contains no opening brace. */
  predicate BraceFreeLiterals(ps: seq<Piece>) {
    forall i :: 0 <= i < |ps| && ps[i].Lit? ==> '{' !in ps[i].text
  }

  /** The URL the template denotes: every placeholder replaced by its value. */
  function Fill(ps: seq<Piece>, value: Field -> string): string {
    if |ps| == 0 then ""
    else (match ps[0] case Lit(t) => t case Slot(f) => value(f)) + Fill(ps[1..], value)
  }

  /** Turns the placeholders of field `f` into literal text `v`. */
  function Subst(ps: seq<Piece>, f: Field, v: string): (r: seq<Piece>)
    ensures |r| == |ps|
  {
    if |ps| == 0 then []
    else [if ps[0] == Slot(f) then Lit(v) else ps[0]] + Subst(ps[1..], f, v)
  }

  /** One `replace` call substitutes exactly the placeholders of its field. */
  lemma {:induction false} ReplaceField(ps: seq<Piece>, f: Field, v: string)
    requires BraceFreeLiterals(ps) && '{' !in v
    ensures ReplaceAll(Render(ps), Token(f), v) == Render(Subst(ps, f, v))
    ensures BraceFreeLiterals(Subst(ps, f, v))
  {
    if |ps| > 0 {
      var rest := ps[1..];
      assert BraceFreeLiterals(rest) by {
        forall i | 0 <= i < |rest| && rest[i].Lit? ensures '{' !in rest[i].text {
          assert rest[i] == ps[i + 1];
        }
      }
      ReplaceField(rest, f, v);
      var tok := Token(f);
      assert tok[0] == '{';
      match ps[0]
      case Lit(t) =>
        assert '{' !in t by { assert ps[0].Lit?; }
        ReplaceAllSkip(t, Render(rest), tok, v);
      case Slot(g) =>
        if g == f {
          ReplaceAllHead(Render(rest), tok, v);
        } else {
          TokensDistinct(g, f);
          ReplaceAllOtherToken(Token(g), Render(rest), tok, v);
        }
      var r := Subst(ps, f, v);
      assert r[1..] == Subst(rest, f, v);
      assert BraceFreeLiterals(r) by {
        forall i | 0 <= i < |r| && r[i].Lit? ensures '{' !in r[i].text {
          if i > 0 { assert r[i] == Subst(rest, f, v)[i - 1]; }
        }
      }
    }
  }

  /** The values the five placeholders receive for a tile request. */
  function UrlValues(layer: RadarLayer, zoom: int, x: int, y: int): Field -> string {
    (f: Field) =>
      match f
      case StyleField => layer.style
      case TileMatrixSetField => layer.tileMatrixSet
      case TileMatrixField => ZoomString(zoom)
      case TileColField => IntToString(x)
      case TileRowField => IntToString(y)
  }

  lemma {:induction false} FiveSubstitutionsFill(ps: seq<Piece>, value: Field -> string)
    ensures Render(Subst(Subst(Subst(Subst(Subst(ps,
      StyleField, value(StyleField)), TileMatrixSetField, value(TileMatrixSetField)),
      TileMatrixField, value(TileMatrixField)), TileColField, value(TileColField)),
      TileRowField, value(TileRowField))) == Fill(ps, value)
  {
    if |ps| > 0 {
      FiveSubstitutionsFill(ps[1..], value);
    }
  }

  /** Filling in a template: whenever the template's literal text and the
      layer's style and tile-matrix-set names contain no `{`, the URL is the
      template with every placeholder replaced by its value, the zoom
      zero-padded to two digits. */
  lemma RadarMapUrlFillsTemplate(layer: RadarLayer, ps: seq<Piece>, zoom: int, x: int, y: int)
    requires layer.resourceUrlTemplate == Render(ps) && BraceFreeLiterals(ps)
    requires '{' !in layer.style && '{' !in layer.tileMatrixSet
    ensures RadarMapUrl(layer, zoom, x, y) == Fill(ps, UrlValues(layer, zoom, x, y))
  {
    var value := UrlValues(layer, zoom, x, y);
    var p1 := Subst(ps, StyleField, layer.style);
    ReplaceField(ps, StyleField, layer.style);
    var p2 := Subst(p1, TileMatrixSetField, layer.tileMatrixSet);
    ReplaceField(p1, TileMatrixSetField, layer.tileMatrixSet);
    var p3 := Subst(p2, TileMatrixField, ZoomString(zoom));
    ReplaceField(p2, TileMatrixField, ZoomString(zoom));
    var p4 := Subst(p3, TileColField, IntToString(x));
    ReplaceField(p3, TileColField, IntToString(x));
    ReplaceField(p4, TileRowField, IntToString(y));
    FiveSubstitutionsFill(ps, value);
  }

  /** The `{TileMatrix}` value of a radar URL is the identifier of the radar
      tile matrix at that zoom ("00" to "12"). */
  lemma ZoomStringNamesRadarMatrix(zoom: int)
    requires 0 <= zoom < |RadarTable|
    ensures ZoomString(zoom) == RadarTable[zoom].identifier
  {
    if zoom >= 10 {
      assert IntToString(zoom) == NatToString(zoom / 10) + [Digit(zoom % 10)];
    }
  }

  // ---------------------------------------------------------------------------
  // The fixed URL patterns name one tile each

  lemma TilePathInjective(z1: int, x1: int, y1: int, z2: int, x2: int, y2: int)
    requires TilePath(z1, x1, y1) == TilePath(z2, x2, y2)
    ensures z1 == z2 && x1 == x2 && y1 == y2
  {
    SplitAtSeparator(IntToString(z1), IntToString(y1) + "/" + IntToString(x1),
                     IntToString(z2), IntToString(y2) + "/" + IntToString(x2), '/');
    SplitAtSeparator(IntToString(y1), IntToString(x1), IntToString(y2), IntToString(x2), '/');
    IntToStringInjective(z1, z2);
    IntToStringInjective(y1, y2);
    IntToStringInjective(x1, x2);
  }

  /** Distinct base-map tiles are fetched from distinct URLs. */
  lemma BaseMapUrlInjective(z1: int, x1: int, y1: int, z2: int, x2: int, y2: int)
    requires BaseMapUrl(z1, x1, y1) == BaseMapUrl(z2, x2, y2)
    ensures z1 == z2 && x1 == x2 && y1 == y2
  {
    var u := BaseMapUrl(z1, x1, y1);
    var n := |BaseMapPrefix|;
    assert TilePath(z1, x1, y1) == u[n..|u| - 4];
    assert TilePath(z2, x2, y2) == u[n..|u| - 4];
    TilePathInjective(z1, x1, y1, z2, x2, y2);
  }

  /** Distinct city-name tiles are fetched from distinct URLs. */
  lemma CityNamesMapUrlInjective(z1: int, x1: int, y1: int, z2: int, x2: int, y2: int)
    requires CityNamesMapUrl(z1, x1, y1) == CityNamesMapUrl(z2, x2, y2)
    ensures z1 == z2 && x1 == x2 && y1 == y2
  {
    var u := CityNamesMapUrl(z1, x1, y1);
    var n := |CityNamesPrefix|;
    assert TilePath(z1, x1, y1) == u[n..|u| - 4];
    assert TilePath(z2, x2, y2) == u[n..|u| - 4];
    TilePathInjective(z1, x1, y1, z2, x2, y2);
  }
}
