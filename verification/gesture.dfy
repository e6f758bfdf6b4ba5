/** The pinch-and-pan handler of the second radar map: a continuous scale on
    top of the discrete zoom levels, a switch of level when the scaled pixels
    reach the next level's resolution, and a pan of the projected centre. */
module Gestures {
  import opened TileMatrices

  /** The state the map keeps between gestures. */
  datatype MapView = MapView(zoom: int, scale: real, center: Coord)

  /** One callback of the transform detector: pan in screen pixels and the
      zoom factor since the previous callback. */
  datatype Transform = Transform(panX: real, panY: real, zoomChange: real)

  const MinScale: real := 0.2
  const MaxScale: real := 5.0

  /** A fresh map (also after a new city is selected): the given zoom at scale 1. */
  function InitialView(zoom: int, center: Coord): MapView {
    MapView(zoom, 1.0, center)
  }

  function CoerceIn(x: real, lo: real, hi: real): (r: real)
    requires lo <= hi
    ensures lo <= r <= hi
    ensures lo <= x <= hi ==> r == x
    ensures x < lo ==> r == lo
    ensures x > hi ==> r == hi
  {
    if x < lo then lo else if x > hi then hi else x
  }

  /** Metres of the projected plane per screen pixel. */
  function ShownResolution(res: int -> real, v: MapView): real
    requires v.scale > 0.0
  {
    res(v.zoom) / v.scale
  }

  /** The resolution seen once the scale is multiplied by the gesture's factor. */
  function EffectiveResolution(res: int -> real, v: MapView, t: Transform): real
    requires v.scale > 0.0 && t.zoomChange > 0.0
  {
    res(v.zoom) / (v.scale * t.zoomChange)
  }

  /** The level switch fires inward when the next level exists and its pixels
      are no finer than the effective ones. */
  predicate ZoomsIn(res: int -> real, v: MapView, t: Transform)
    requires v.scale > 0.0 && t.zoomChange > 0.0
  {
    res(v.zoom + 1) > 0.0 && EffectiveResolution(res, v, t) <= res(v.zoom + 1)
  }

  /** Otherwise it fires outward when the previous level exists and its pixels
      are no coarser than the effective ones. */
  predicate ZoomsOut(res: int -> real, v: MapView, t: Transform)
    requires v.scale > 0.0 && t.zoomChange > 0.0
  {
    !ZoomsIn(res, v, t) && res(v.zoom - 1) > 0.0 && EffectiveResolution(res, v, t) >= res(v.zoom - 1)
  }

  /** Zoom level and scale after the level switch, before the clamp. */
  datatype Level = Level(zoom: int, scale: real)

  function SwitchLevel(res: int -> real, v: MapView, t: Transform): (l: Level)
    requires v.scale > 0.0 && t.zoomChange > 0.0
    ensures l.zoom == v.zoom + 1 <==> ZoomsIn(res, v, t)
    ensures l.zoom == v.zoom - 1 <==> ZoomsOut(res, v, t)
    ensures l.zoom == v.zoom <==> !ZoomsIn(res, v, t) && !ZoomsOut(res, v, t)
    ensures l.zoom != v.zoom ==> res(l.zoom) > 0.0
    ensures l.zoom == v.zoom + 1 ==> l.scale >= 1.0
    ensures l.zoom == v.zoom - 1 ==> l.scale <= 1.0
    ensures l.zoom == v.zoom ==> l.scale == v.scale * t.zoomChange
  {
    var effectiveRes := EffectiveResolution(res, v, t);
    var nextRes := res(v.zoom + 1);
    var prevRes := res(v.zoom - 1);
    if nextRes > 0.0 && effectiveRes <= nextRes then
      // an effective resolution of 0 makes the quotient +infinity, which the
      // later clamp turns into the maximum scale
      Level(v.zoom + 1, if effectiveRes == 0.0 then MaxScale
                        else if nextRes / effectiveRes < 1.0 then 1.0 else nextRes / effectiveRes)
    else if prevRes > 0.0 && effectiveRes >= prevRes then
      Level(v.zoom - 1, if prevRes / effectiveRes > 1.0 then 1.0 else prevRes / effectiveRes)
    else
      Level(v.zoom, v.scale * t.zoomChange)
  }

  lemma DivDiv(a: real, s: real, z: real)
    requires s > 0.0 && z > 0.0
    ensures a / (s * z) == (a / s) / z
  {
    var p := a / (s * z);
    var q := (a / s) / z;
    assert p * (s * z) == a;
    assert q * z == a / s;
    assert (q * z) * s == a;
    assert q * (s * z) == a;
  }

  /** The gesture callback as written: level switch, clamp of the scale to
      [0.2, 5], then a pan measured with the resolution of the level the
      gesture started on. `res` stands for the resolution lookup by zoom
      level, non-positive for a level that does not exist. */
  function Gesture(res: int -> real, v: MapView, t: Transform): (r: MapView)
    requires v.scale > 0.0 && t.zoomChange > 0.0
    ensures MinScale <= r.scale <= MaxScale
    ensures r.zoom == SwitchLevel(res, v, t).zoom
    ensures r.scale == CoerceIn(SwitchLevel(res, v, t).scale, MinScale, MaxScale)
    ensures r.zoom == v.zoom + 1 <==> ZoomsIn(res, v, t)
    ensures r.zoom == v.zoom - 1 <==> ZoomsOut(res, v, t)
    ensures r.zoom == v.zoom <==> !ZoomsIn(res, v, t) && !ZoomsOut(res, v, t)
    ensures r.zoom != v.zoom ==> res(r.zoom) > 0.0
    ensures r.zoom == v.zoom + 1 ==> r.scale >= 1.0
    ensures r.zoom == v.zoom - 1 ==> r.scale <= 1.0
    ensures r.center.x == v.center.x - t.panX * (res(v.zoom) / r.scale)
    ensures r.center.y == v.center.y + t.panY * (res(v.zoom) / r.scale)
  {
    var l := SwitchLevel(res, v, t);
    var clamped := CoerceIn(l.scale, MinScale, MaxScale);
    var currentRes := res(v.zoom) / clamped;
    MapView(l.zoom, clamped, Coord(v.center.x + -t.panX * currentRes, v.center.y + t.panY * currentRes))
  }

  /** Rescaling by `target / eff` shows pixels of size `eff` again. */
  lemma RescaleShows(target: real, eff: real)
    requires target > 0.0 && eff > 0.0
    ensures target / (target / eff) == eff
  {
    var q := target / eff;
    assert q * eff == target;
  }

  /** A ratio of positive numbers is at least 1 exactly when the numerator is
      at least the denominator. */
  lemma RatioOrder(a: real, b: real)
    requires a > 0.0 && b > 0.0
    ensures a / b >= 1.0 <==> a >= b
    ensures a / b <= 1.0 <==> a <= b
  {
    var q := a / b;
    assert q * b == a;
  }

  /** A level switch sets the scale that shows the effective resolution with
      the new level's pixels. */
  lemma SwitchRescales(res: int -> real, v: MapView, t: Transform)
    requires v.scale > 0.0 && t.zoomChange > 0.0 && res(v.zoom) > 0.0
    requires SwitchLevel(res, v, t).zoom != v.zoom
    ensures SwitchLevel(res, v, t).scale == res(SwitchLevel(res, v, t).zoom) / EffectiveResolution(res, v, t)
  {
    var eff := EffectiveResolution(res, v, t);
    var nextRes, prevRes := res(v.zoom + 1), res(v.zoom - 1);
    assert eff > 0.0 by {
      assert v.scale * t.zoomChange > 0.0;
    }
    if nextRes > 0.0 && eff <= nextRes {
      RatioOrder(nextRes, eff);
    } else {
      assert prevRes > 0.0 && eff >= prevRes;
      RatioOrder(prevRes, eff);
    }
  }

  /** A pinch by a factor makes screen pixels that many times finer, across a
      level switch too, as long as the scale clamp does not bite. */
  lemma PinchKeepsVisualContinuity(res: int -> real, v: MapView, t: Transform)
    requires v.scale > 0.0 && t.zoomChange > 0.0 && res(v.zoom) > 0.0
    ensures var r := Gesture(res, v, t);
      MinScale < r.scale < MaxScale ==>
        ShownResolution(res, r) == EffectiveResolution(res, v, t)
        && ShownResolution(res, r) == ShownResolution(res, v) / t.zoomChange
  {
    var r := Gesture(res, v, t);
    var l := SwitchLevel(res, v, t);
    var eff := EffectiveResolution(res, v, t);
    DivDiv(res(v.zoom), v.scale, t.zoomChange);
    assert eff > 0.0;
    if MinScale < r.scale < MaxScale {
      assert r.scale == l.scale && r.zoom == l.zoom;
      if l.zoom != v.zoom {
        SwitchRescales(res, v, t);
        RescaleShows(res(l.zoom), eff);
      }
    }
  }

  /** Without a level switch a pan moves the centre by the pan times the
      shown resolution, so the content follows the finger. */
  lemma PanFollowsFinger(res: int -> real, v: MapView, t: Transform)
    requires v.scale > 0.0 && t.zoomChange > 0.0
    ensures var r := Gesture(res, v, t);
      r.zoom == v.zoom ==>
        && r.center.x == v.center.x - t.panX * ShownResolution(res, r)
        && r.center.y == v.center.y + t.panY * ShownResolution(res, r)
  {
  }

  /** On a level switch the pan is measured in the old level's metres: the
      centre moves `res(old) / res(new)` times the pan in shown pixels. */
  lemma PanAcrossSwitch(res: int -> real, v: MapView, t: Transform)
    requires v.scale > 0.0 && t.zoomChange > 0.0
    ensures var r := Gesture(res, v, t);
      r.zoom != v.zoom ==>
        r.center.x - v.center.x == -t.panX * ShownResolution(res, r) * (res(v.zoom) / res(r.zoom))
  {
    var r := Gesture(res, v, t);
    if r.zoom != v.zoom {
      var a := res(v.zoom);
      var b := res(r.zoom);
      assert b > 0.0;
      assert (b / r.scale) * (a / b) == a / r.scale;
    }
  }

  /** Two levels with pixels of 2 m and 1 m. */
  function TwoLevels(zoom: int): real {
    if zoom == 0 then 2.0 else if zoom == 1 then 1.0 else 0.0
  }

  /** A doubling pinch from level 0 switches to level 1 with scale 1; a
      one-pixel pan in the same callback moves the centre by 2 m, two shown
      pixels of level 1. */
  lemma PanOvershootsOnZoomIn()
    ensures var r := Gesture(TwoLevels, MapView(0, 1.0, Coord(0.0, 0.0)), Transform(1.0, 0.0, 2.0));
      && r.zoom == 1 && r.scale == 1.0
      && ShownResolution(TwoLevels, r) == 1.0
      && r.center.x == -2.0
  {
    var v := MapView(0, 1.0, Coord(0.0, 0.0));
    var t := Transform(1.0, 0.0, 2.0);
    assert EffectiveResolution(TwoLevels, v, t) == 1.0;
    assert SwitchLevel(TwoLevels, v, t) == Level(1, 1.0);
  }

  /** The gesture with the pan measured at the resolution actually shown
      after the switch. */
  function CorrectedGesture(res: int -> real, v: MapView, t: Transform): (r: MapView)
    requires v.scale > 0.0 && t.zoomChange > 0.0
    ensures r.zoom == Gesture(res, v, t).zoom && r.scale == Gesture(res, v, t).scale
    ensures r.center.x == v.center.x - t.panX * ShownResolution(res, r)
    ensures r.center.y == v.center.y + t.panY * ShownResolution(res, r)
  {
    var l := SwitchLevel(res, v, t);
    var clamped := CoerceIn(l.scale, MinScale, MaxScale);
    var currentRes := res(l.zoom) / clamped;
    MapView(l.zoom, clamped, Coord(v.center.x + -t.panX * currentRes, v.center.y + t.panY * currentRes))
  }

  /** The corrected gesture agrees with the written one whenever the level
      does not change. */
  lemma CorrectedGestureAgrees(res: int -> real, v: MapView, t: Transform)
    requires v.scale > 0.0 && t.zoomChange > 0.0
    ensures var r := Gesture(res, v, t);
      r.zoom == v.zoom ==> CorrectedGesture(res, v, t) == r
  {
  }

  predicate PositiveFactors(ts: seq<Transform>) {
    forall i :: 0 <= i < |ts| ==> ts[i].zoomChange > 0.0
  }

  /** A sequence of callbacks applied in order, each with the corrected pan;
      zoom and scale evolve as in the source, since the correction only moves
      the centre differently. */
  function Gestures(res: int -> real, v: MapView, ts: seq<Transform>): (r: MapView)
    requires v.scale > 0.0 && PositiveFactors(ts)
    ensures r.scale > 0.0
    ensures |ts| > 0 ==> MinScale <= r.scale <= MaxScale
    ensures v.zoom - |ts| <= r.zoom <= v.zoom + |ts|
    ensures res(v.zoom) > 0.0 ==> res(r.zoom) > 0.0
    decreases |ts|
  {
    if |ts| == 0 then v else Gestures(res, CorrectedGesture(res, v, ts[0]), ts[1..])
  }

  /** From a fresh map, every level reached is one that exists. */
  lemma GesturesStayOnExistingLevels(res: int -> real, zoom: int, center: Coord, ts: seq<Transform>)
    requires res(zoom) > 0.0 && PositiveFactors(ts)
    ensures var r := Gestures(res, InitialView(zoom, center), ts);
      res(r.zoom) > 0.0 && MinScale <= r.scale <= MaxScale
  {
  }
}
