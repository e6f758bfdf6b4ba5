/** The extraction of radar layers from the WMTS capabilities document
    (`getRadarLayers`): a small state machine over XML pull-parser events that
    collects each `<Layer>`'s identifier, style, tile matrix set and
    `ResourceURL` template, keeps the 1 km rain-rate layers, and sorts them by
    identifier. */
module Capabilities {
  import opened Wrappers
  import opened KotlinText
  import opened TileUrls

  /** One pull-parser event. A start tag carries the value of its `template`
      attribute, if any (only `ResourceURL` reads it). */
  datatype Event =
    | StartTag(name: string, template: Option<string>)
    | Text(text: string)
    | EndTag(name: string)

  /** The parser's local variables. */
  datatype ParseState = ParseState(
    inLayer: bool,
    inStyle: bool,
    inTileMatrixSetLink: bool,
    currentTag: Option<string>,
    identifier: Option<string>,
    style: Option<string>,
    tileMatrixSet: Option<string>,
    resourceUrlTemplate: Option<string>,
    layers: seq<RadarLayer>)

  const Initial := ParseState(false, false, false, None, None, None, None, None, [])

  /** Identifier prefix of the 1 km rain-rate radar composites. */
  const RadarPrefix := "RADAR_1KM_RRAI_14_"

  /** The condition under which a closing `</Layer>` emits a layer. */
  predicate Complete(s: ParseState) {
    && s.identifier.Some? && StartsWith(s.identifier.value, RadarPrefix)
    && s.style.Some? && s.tileMatrixSet.Some? && s.resourceUrlTemplate.Some?
  }

  /** The `START_TAG` branch (`OnStartEffect` states what it does). */
  function OnStart(s: ParseState, name: string, template: Option<string>): ParseState
  {
    var s := s.(currentTag := Some(name));
    if name == "Layer" then
      s.(inLayer := true, identifier := None, style := None, tileMatrixSet := None, resourceUrlTemplate := None)
    else if name == "Style" then
      if s.inLayer then s.(inStyle := true) else s
    else if name == "TileMatrixSetLink" then
      if s.inLayer then s.(inTileMatrixSetLink := true) else s
    else if name == "ResourceURL" then
      if s.inLayer then s.(resourceUrlTemplate := template) else s
    else s
  }

  /** The `TEXT` branch (`OnTextEffect`). */
  function OnText(s: ParseState, text: string): ParseState
  {
    if !s.inLayer || IsBlank(text) then s
    else if s.currentTag == Some("ows:Identifier") then
      if s.inStyle then s.(style := Some(text)) else s.(identifier := Some(text))
    else if s.currentTag == Some("TileMatrixSet") then
      if s.inTileMatrixSetLink then s.(tileMatrixSet := Some(text)) else s
    else s
  }

  /** The `END_TAG` branch (`OnEndEffect`). */
  function OnEnd(s: ParseState, name: string): ParseState
  {
    var s :=
      if name == "Layer" then
        var s := if Complete(s) then
            s.(layers := s.layers + [RadarLayer(s.identifier.value, s.style.value,
                                                s.tileMatrixSet.value, s.resourceUrlTemplate.value)])
          else s;
        s.(inLayer := false)
      else if name == "Style" then s.(inStyle := false)
      else if name == "TileMatrixSetLink" then s.(inTileMatrixSetLink := false)
      else s;
    s.(currentTag := None)
  }

  /** One turn of the parse loop. Only a closing `</Layer>` adds a layer, and
      only a complete one with the radar prefix. */
  function Step(s: ParseState, e: Event): (r: ParseState)
    ensures e.EndTag? && e.name == "Layer" && Complete(s) ==>
      r.layers == s.layers + [RadarLayer(s.identifier.value, s.style.value, s.tileMatrixSet.value, s.resourceUrlTemplate.value)]
    ensures !(e.EndTag? && e.name == "Layer" && Complete(s)) ==> r.layers == s.layers
  {
    match e
    case StartTag(name, template) => OnStart(s, name, template)
    case Text(text) => OnText(s, text)
    case EndTag(name) => OnEnd(s, name)
  }

  /** The parse loop over a whole event sequence. */
  function Run(s: ParseState, events: seq<Event>): ParseState
    decreases |events|
  {
    if |events| == 0 then s else Run(Step(s, events[0]), events[1..])
  }

  /** What a start tag does: it becomes the current tag; `Layer` opens a
      layer with every field cleared; `Style` and `TileMatrixSetLink` are
      entered, and `ResourceURL` gives the template, only inside a layer;
      nothing is collected. */
  lemma OnStartEffect(s: ParseState, name: string, template: Option<string>)
    ensures var r := OnStart(s, name, template);
      && r.currentTag == Some(name) && r.layers == s.layers
      && r.inLayer == (s.inLayer || name == "Layer")
      && (name == "Layer" ==>
          r.identifier == r.style == r.tileMatrixSet == r.resourceUrlTemplate == None)
      && (name != "Layer" ==> r.identifier == s.identifier && r.style == s.style && r.tileMatrixSet == s.tileMatrixSet)
      && (name != "Layer" ==>
          r.resourceUrlTemplate == if name == "ResourceURL" && s.inLayer then template else s.resourceUrlTemplate)
      && r.inStyle == (s.inStyle || (name == "Style" && s.inLayer))
      && r.inTileMatrixSetLink == (s.inTileMatrixSetLink || (name == "TileMatrixSetLink" && s.inLayer))
  {
  }

  /** What text does: inside a layer, non-blank text under `ows:Identifier`
      names the style inside `Style` and the layer elsewhere, and under
      `TileMatrixSet` inside its link names the tile matrix set. At most those
      fields change, and each only in that situation. */
  lemma OnTextEffect(s: ParseState, text: string)
    ensures var r := OnText(s, text);
      && r == s.(identifier := r.identifier, style := r.style, tileMatrixSet := r.tileMatrixSet)
      && (r.identifier != s.identifier ==>
          s.inLayer && !IsBlank(text) && s.currentTag == Some("ows:Identifier") && !s.inStyle && r.identifier == Some(text))
      && (r.style != s.style ==>
          s.inLayer && !IsBlank(text) && s.currentTag == Some("ows:Identifier") && s.inStyle && r.style == Some(text))
      && (r.tileMatrixSet != s.tileMatrixSet ==>
          s.inLayer && !IsBlank(text) && s.currentTag == Some("TileMatrixSet") && s.inTileMatrixSetLink
          && r.tileMatrixSet == Some(text))
      && (s.inLayer && !IsBlank(text) && s.currentTag == Some("ows:Identifier") ==>
          if s.inStyle then r.style == Some(text) else r.identifier == Some(text))
      && (s.inLayer && !IsBlank(text) && s.currentTag == Some("TileMatrixSet") && s.inTileMatrixSetLink ==>
          r.tileMatrixSet == Some(text))
  {
  }

  /** What an end tag does: no current tag afterwards; the element it closes
      is left; `</Layer>` collects the layer exactly when it is complete; the
      fields read are kept. */
  lemma OnEndEffect(s: ParseState, name: string)
    ensures var r := OnEnd(s, name);
      && r.currentTag == None
      && r.identifier == s.identifier && r.style == s.style
      && r.tileMatrixSet == s.tileMatrixSet && r.resourceUrlTemplate == s.resourceUrlTemplate
      && r.inLayer == (s.inLayer && name != "Layer")
      && r.inStyle == (s.inStyle && name != "Style")
      && r.inTileMatrixSetLink == (s.inTileMatrixSetLink && name != "TileMatrixSetLink")
      && (r.layers == if name == "Layer" && Complete(s)
          then s.layers + [RadarLayer(s.identifier.value, s.style.value, s.tileMatrixSet.value, s.resourceUrlTemplate.value)]
          else s.layers)
  {
  }

  /** The parse loop only appends to the collected layers, at most one per
      event. */
  lemma {:induction false} RunOnlyAppends(s: ParseState, events: seq<Event>)
    ensures s.layers <= Run(s, events).layers
    ensures |Run(s, events).layers| <= |s.layers| + |events|
    decreases |events|
  {
    if |events| > 0 {
      RunOnlyAppends(Step(s, events[0]), events[1..]);
    }
  }

  lemma {:induction false} RunAppend(s: ParseState, a: seq<Event>, b: seq<Event>)
    ensures Run(s, a + b) == Run(Run(s, a), b)
    decreases |a|
  {
    if |a| > 0 {
      assert (a + b)[0] == a[0];
      assert (a + b)[1..] == a[1..] + b;
      RunAppend(Step(s, a[0]), a[1..], b);
    } else {
      assert a + b == b;
    }
  }

  predicate RadarLayers(layers: seq<RadarLayer>) {
    forall i :: 0 <= i < |layers| ==> StartsWith(layers[i].identifier, RadarPrefix)
  }

  /** Whatever the events, only radar-prefixed layers are collected. */
  lemma {:induction false} RunKeepsRadarLayers(s: ParseState, events: seq<Event>)
    requires RadarLayers(s.layers)
    ensures RadarLayers(Run(s, events).layers)
    decreases |events|
  {
    if |events| > 0 {
      RunKeepsRadarLayers(Step(s, events[0]), events[1..]);
    }
  }

  // ---------------------------------------------------------------------------
  // Sorting by identifier (`sortedBy { it.identifier }`)

  predicate SortedById(ls: seq<RadarLayer>) {
    forall i, j :: 0 <= i < j < |ls| ==> LessEq(ls[i].identifier, ls[j].identifier)
  }

  /** The layers with identifier `id`, in order. */
  function WithId(ls: seq<RadarLayer>, id: string): seq<RadarLayer>
    decreases |ls|
  {
    if |ls| == 0 then []
    else WithId(ls[..|ls| - 1], id) + (if ls[|ls| - 1].identifier == id then [ls[|ls| - 1]] else [])
  }

  /** `r` keeps the relative order of the layers of `ls` that share an
      identifier, and has no others: what a stable sort promises. */
  ghost predicate StableById(r: seq<RadarLayer>, ls: seq<RadarLayer>) {
    forall id :: WithId(r, id) == WithId(ls, id)
  }

  /** Inserts `x` after every element whose identifier does not exceed its. */
  function Insert(ls: seq<RadarLayer>, x: RadarLayer): (r: seq<RadarLayer>)
    requires SortedById(ls)
    ensures SortedById(r)
    ensures multiset(r) == multiset(ls) + multiset{x}
  {
    if |ls| == 0 then [x]
    else
      var last := ls[|ls| - 1];
      if LessEq(last.identifier, x.identifier) then
        SortedBelow(ls, x);
        SnocSorted(ls, x);
        ls + [x]
      else
        LessEqTotal(last.identifier, x.identifier);
        var init := ls[..|ls| - 1];
        assert ls == init + [last];
        SortedSplit(init, last);
        var r0 := Insert(init, x);
        BelowByMultiset(r0, init, x, last);
        SnocSorted(r0, last);
        r0 + [last]
  }

  /** Appending a layer no smaller than every other keeps the order. */
  lemma SnocSorted(ls: seq<RadarLayer>, x: RadarLayer)
    requires SortedById(ls)
    requires forall k :: 0 <= k < |ls| ==> LessEq(ls[k].identifier, x.identifier)
    ensures SortedById(ls + [x])
  {
    forall i, j | 0 <= i < j < |ls| + 1
      ensures LessEq((ls + [x])[i].identifier, (ls + [x])[j].identifier)
    {
      if j < |ls| {
        assert (ls + [x])[i] == ls[i] && (ls + [x])[j] == ls[j];
      }
    }
  }

  /** A layer no smaller than the last of a sorted sequence is no smaller
      than any of it. */
  lemma SortedBelow(ls: seq<RadarLayer>, x: RadarLayer)
    requires SortedById(ls) && |ls| > 0
    requires LessEq(ls[|ls| - 1].identifier, x.identifier)
    ensures forall k :: 0 <= k < |ls| ==> LessEq(ls[k].identifier, x.identifier)
  {
    forall k | 0 <= k < |ls| ensures LessEq(ls[k].identifier, x.identifier) {
      if k < |ls| - 1 {
        LessEqTransitive(ls[k].identifier, ls[|ls| - 1].identifier, x.identifier);
      }
    }
  }

  lemma SortedSplit(init: seq<RadarLayer>, last: RadarLayer)
    requires SortedById(init + [last])
    ensures SortedById(init)
    ensures forall k :: 0 <= k < |init| ==> LessEq(init[k].identifier, last.identifier)
  {
    forall i, j | 0 <= i < j < |init| ensures LessEq(init[i].identifier, init[j].identifier) {
      assert (init + [last])[i] == init[i] && (init + [last])[j] == init[j];
    }
    forall k | 0 <= k < |init| ensures LessEq(init[k].identifier, last.identifier) {
      assert (init + [last])[k] == init[k] && (init + [last])[|init|] == last;
    }
  }

  /** A permutation of `init` plus `x` stays below whatever bounds them all. */
  lemma BelowByMultiset(r0: seq<RadarLayer>, init: seq<RadarLayer>, x: RadarLayer, last: RadarLayer)
    requires multiset(r0) == multiset(init) + multiset{x}
    requires forall k :: 0 <= k < |init| ==> LessEq(init[k].identifier, last.identifier)
    requires LessEq(x.identifier, last.identifier)
    ensures forall k :: 0 <= k < |r0| ==> LessEq(r0[k].identifier, last.identifier)
  {
    forall k | 0 <= k < |r0| ensures LessEq(r0[k].identifier, last.identifier) {
      assert r0[k] in multiset(r0);
      if r0[k] != x {
        assert r0[k] in multiset(init);
        var m :| 0 <= m < |init| && init[m] == r0[k];
      }
    }
  }

  lemma WithIdSnoc(a: seq<RadarLayer>, y: RadarLayer, id: string)
    ensures WithId(a + [y], id) == WithId(a, id) + (if y.identifier == id then [y] else [])
  {
    assert (a + [y])[..|a|] == a;
  }

  /** Inserting `x` puts it after every layer already carrying its
      identifier and leaves the order among the others alone. */
  lemma {:induction false} InsertStable(ls: seq<RadarLayer>, x: RadarLayer, id: string)
    requires SortedById(ls)
    ensures WithId(Insert(ls, x), id) == WithId(ls, id) + (if x.identifier == id then [x] else [])
    decreases |ls|
  {
    if |ls| == 0 {
      WithIdSnoc([], x, id);
      assert [] + [x] == [x];
    } else {
      var last := ls[|ls| - 1];
      var init := ls[..|ls| - 1];
      assert ls == init + [last];
      if LessEq(last.identifier, x.identifier) {
        assert Insert(ls, x) == ls + [x];
        WithIdSnoc(ls, x, id);
      } else {
        assert SortedById(init);
        InsertStable(init, x, id);
        InsertBeforeLast(init, last, x, id);
      }
    }
  }

  /** The step of `InsertStable` where `x` goes before the last layer. */
  lemma InsertBeforeLast(init: seq<RadarLayer>, last: RadarLayer, x: RadarLayer, id: string)
    requires SortedById(init + [last]) && !LessEq(last.identifier, x.identifier)
    requires SortedById(init)
    requires WithId(Insert(init, x), id) == WithId(init, id) + (if x.identifier == id then [x] else [])
    ensures WithId(Insert(init + [last], x), id) == WithId(init + [last], id) + (if x.identifier == id then [x] else [])
  {
    InsertBeforeLastUnfolds(init, last, x);
    LessEqReflexive(x.identifier);
    WithIdSnoc(init, last, id);
    WithIdSnoc(Insert(init, x), last, id);
  }

  lemma InsertBeforeLastUnfolds(init: seq<RadarLayer>, last: RadarLayer, x: RadarLayer)
    requires SortedById(init + [last]) && !LessEq(last.identifier, x.identifier)
    requires SortedById(init)
    ensures Insert(init + [last], x) == Insert(init, x) + [last]
  {
    var ls := init + [last];
    assert ls[..|ls| - 1] == init && ls[|ls| - 1] == last;
  }

  /** A stable insertion sort by identifier. */
  function SortById(ls: seq<RadarLayer>): (r: seq<RadarLayer>)
    ensures SortedById(r)
    ensures multiset(r) == multiset(ls)
    ensures StableById(r, ls)
  {
    if |ls| == 0 then []
    else
      var init := ls[..|ls| - 1];
      var last := ls[|ls| - 1];
      assert ls == init + [last];
      var sorted := SortById(init);
      assert StableById(Insert(sorted, last), ls) by {
        forall id ensures WithId(Insert(sorted, last), id) == WithId(ls, id) {
          InsertStable(sorted, last, id);
        }
      }
      Insert(sorted, last)
  }

  /** `getRadarLayers` after the fetch: any exception on the way (network,
      malformed XML) gives the empty list; otherwise the collected layers,
      sorted by identifier. */
  function RadarLayersOf(document: Result<seq<Event>>): (r: seq<RadarLayer>)
    ensures document.Failure? ==> r == []
    ensures SortedById(r) && RadarLayers(r)
    ensures document.Success? ==> multiset(r) == multiset(Run(Initial, document.value).layers)
    ensures document.Success? ==> StableById(r, Run(Initial, document.value).layers)
  {
    match document
    case Failure(_) => []
    case Success(events) =>
      RunKeepsRadarLayers(Initial, events);
      var collected := Run(Initial, events).layers;
      var r := SortById(collected);
      assert RadarLayers(r) by {
        forall i | 0 <= i < |r| ensures StartsWith(r[i].identifier, RadarPrefix) {
          assert r[i] in multiset(collected);
          var m :| 0 <= m < |collected| && collected[m] == r[i];
        }
      }
      r
  }

  // ---------------------------------------------------------------------------
  // Documents built from layer declarations

  /** A `<Layer>` element as the capabilities document declares it; `None`
      marks a child element that is absent. */
  datatype LayerDecl = LayerDecl(
    identifier: Option<string>,
    style: Option<string>,
    tileMatrixSet: Option<string>,
    template: Option<string>)

  function IdentifierEvents(id: string): seq<Event> {
    [StartTag("ows:Identifier", None), Text(id), EndTag("ows:Identifier")]
  }

  function StyleEvents(style: string): seq<Event> {
    [StartTag("Style", None)] + IdentifierEvents(style) + [EndTag("Style")]
  }

  function TileMatrixSetEvents(tms: string): seq<Event> {
    [StartTag("TileMatrixSetLink", None), StartTag("TileMatrixSet", None), Text(tms),
     EndTag("TileMatrixSet"), EndTag("TileMatrixSetLink")]
  }

  function TemplateEvents(template: string): seq<Event> {
    [StartTag("ResourceURL", Some(template)), EndTag("ResourceURL")]
  }

  function Optional(o: Option<string>, events: string -> seq<Event>): seq<Event> {
    if o.Some? then events(o.value) else []
  }

  /** The events of one `<Layer>` element. */
  function LayerEvents(d: LayerDecl): seq<Event> {
    [StartTag("Layer", None)]
    + Optional(d.identifier, IdentifierEvents)
    + Optional(d.style, StyleEvents)
    + Optional(d.tileMatrixSet, TileMatrixSetEvents)
    + Optional(d.template, TemplateEvents)
    + [EndTag("Layer")]
  }

  function DocumentEvents(ds: seq<LayerDecl>): seq<Event> {
    if |ds| == 0 then [] else LayerEvents(ds[0]) + DocumentEvents(ds[1..])
  }

  /** A text value the parser keeps: present and not blank. */
  predicate Given(o: Option<string>) { o.Some? && !IsBlank(o.value) }

  /** The layer a declaration contributes, if any. */
  function Declared(d: LayerDecl): seq<RadarLayer> {
    if Given(d.identifier) && StartsWith(d.identifier.value, RadarPrefix)
       && Given(d.style) && Given(d.tileMatrixSet) && d.template.Some?
    then [RadarLayer(d.identifier.value, d.style.value, d.tileMatrixSet.value, d.template.value)]
    else []
  }

  function AllDeclared(ds: seq<LayerDecl>): seq<RadarLayer> {
    if |ds| == 0 then [] else Declared(ds[0]) + AllDeclared(ds[1..])
  }

  /** Kept text, or the field's previous value. */
  function Keep(o: Option<string>, previous: Option<string>): Option<string> {
    if Given(o) then o else previous
  }

  /** Outside `<Style>` and `<TileMatrixSetLink>`. */
  predicate Outside(s: ParseState) { !s.inStyle && !s.inTileMatrixSetLink }

  lemma Run2(s: ParseState, a: Event, b: Event)
    ensures Run(s, [a, b]) == Step(Step(s, a), b)
  {
    assert [a, b][1..] == [b];
    assert [b][1..] == [];
    assert Run(s, [a, b]) == Run(Step(s, a), [b]);
    assert Run(Step(s, a), [b]) == Run(Step(Step(s, a), b), []);
  }

  lemma Run3(s: ParseState, a: Event, b: Event, c: Event)
    ensures Run(s, [a, b, c]) == Step(Step(Step(s, a), b), c)
  {
    assert [a, b, c][1..] == [b, c];
    Run2(Step(s, a), b, c);
  }

  lemma Run5(s: ParseState, a: Event, b: Event, c: Event, d: Event, e: Event)
    ensures Run(s, [a, b, c, d, e]) == Step(Step(Step(Step(Step(s, a), b), c), d), e)
  {
    assert [a, b, c, d, e][1..] == [b, c, d, e];
    assert [b, c, d, e][1..] == [c, d, e];
    Run3(Step(Step(s, a), b), c, d, e);
  }

  lemma IdentifierPart(s: ParseState, o: Option<string>)
    requires s.inLayer && Outside(s)
    ensures Run(s, Optional(o, IdentifierEvents))
      == if o.Some? then s.(identifier := Keep(o, s.identifier), currentTag := None) else s
  {
    if o.Some? {
      Run3(s, StartTag("ows:Identifier", None), Text(o.value), EndTag("ows:Identifier"));
    }
  }

  lemma StylePart(s: ParseState, o: Option<string>)
    requires s.inLayer && Outside(s)
    ensures Run(s, Optional(o, StyleEvents))
      == if o.Some? then s.(style := Keep(o, s.style), currentTag := None) else s
  {
    if o.Some? {
      assert StyleEvents(o.value) == [StartTag("Style", None), StartTag("ows:Identifier", None),
        Text(o.value), EndTag("ows:Identifier"), EndTag("Style")];
      Run5(s, StartTag("Style", None), StartTag("ows:Identifier", None),
        Text(o.value), EndTag("ows:Identifier"), EndTag("Style"));
    }
  }

  lemma TileMatrixSetPart(s: ParseState, o: Option<string>)
    requires s.inLayer && Outside(s)
    ensures Run(s, Optional(o, TileMatrixSetEvents))
      == if o.Some? then s.(tileMatrixSet := Keep(o, s.tileMatrixSet), currentTag := None) else s
  {
    if o.Some? {
      Run5(s, StartTag("TileMatrixSetLink", None), StartTag("TileMatrixSet", None), Text(o.value),
        EndTag("TileMatrixSet"), EndTag("TileMatrixSetLink"));
    }
  }

  lemma TemplatePart(s: ParseState, o: Option<string>)
    requires s.inLayer && Outside(s)
    ensures Run(s, Optional(o, TemplateEvents))
      == if o.Some? then s.(resourceUrlTemplate := o, currentTag := None) else s
  {
    if o.Some? {
      Run2(s, StartTag("ResourceURL", o), EndTag("ResourceURL"));
    }
  }

  /** The children of a `<Layer>` element. */
  function BodyEvents(d: LayerDecl): seq<Event> {
    Optional(d.identifier, IdentifierEvents)
    + (Optional(d.style, StyleEvents)
    + (Optional(d.tileMatrixSet, TileMatrixSetEvents)
    + Optional(d.template, TemplateEvents)))
  }

  lemma BodyRun(s: ParseState, d: LayerDecl)
    requires s.inLayer && Outside(s)
    ensures var r := Run(s, BodyEvents(d));
      && r.inLayer && Outside(r) && r.layers == s.layers
      && r.identifier == Keep(d.identifier, s.identifier)
      && r.style == Keep(d.style, s.style)
      && r.tileMatrixSet == Keep(d.tileMatrixSet, s.tileMatrixSet)
      && r.resourceUrlTemplate == (if d.template.Some? then d.template else s.resourceUrlTemplate)
  {
    var a := Optional(d.identifier, IdentifierEvents);
    var b := Optional(d.style, StyleEvents);
    var c := Optional(d.tileMatrixSet, TileMatrixSetEvents);
    var t := Optional(d.template, TemplateEvents);
    IdentifierPart(s, d.identifier);
    var s1 := Run(s, a);
    StylePart(s1, d.style);
    var s2 := Run(s1, b);
    TileMatrixSetPart(s2, d.tileMatrixSet);
    var s3 := Run(s2, c);
    TemplatePart(s3, d.template);
    RunAppend(s, a, b + (c + t));
    RunAppend(s1, b, c + t);
    RunAppend(s2, c, t);
  }

  /** One `<Layer>` element: its fields start from nothing, whatever the
      previous layer left behind, and it contributes exactly its declared
      layer. */
  lemma LayerRun(s: ParseState, d: LayerDecl)
    requires Outside(s)
    ensures Outside(Run(s, LayerEvents(d)))
    ensures Run(s, LayerEvents(d)).layers == s.layers + Declared(d)
  {
    var s0 := Step(s, StartTag("Layer", None));
    var rest := BodyEvents(d) + [EndTag("Layer")];
    LayerEventsSplit(d);
    assert ([StartTag("Layer", None)] + rest)[1..] == rest;
    assert Run(s, LayerEvents(d)) == Run(s0, rest);
    LayerBodyRun(s0, d);
  }

  lemma LayerEventsSplit(d: LayerDecl)
    ensures LayerEvents(d) == [StartTag("Layer", None)] + (BodyEvents(d) + [EndTag("Layer")])
  {
  }

  /** The children and the closing tag of a `<Layer>` element, from the
      state its opening tag leaves. */
  lemma LayerBodyRun(s0: ParseState, d: LayerDecl)
    requires s0.inLayer && Outside(s0)
    requires s0.identifier == s0.style == s0.tileMatrixSet == s0.resourceUrlTemplate == None
    ensures Outside(Run(s0, BodyEvents(d) + [EndTag("Layer")]))
    ensures Run(s0, BodyEvents(d) + [EndTag("Layer")]).layers == s0.layers + Declared(d)
  {
    var body := BodyEvents(d);
    BodyRun(s0, d);
    var s4 := Run(s0, body);
    RunAppend(s0, body, [EndTag("Layer")]);
    assert Run(s4, [EndTag("Layer")]) == Step(s4, EndTag("Layer"));
    assert Complete(s4) <==> Declared(d) != [];
  }

  lemma {:induction false} DocumentRun(s: ParseState, ds: seq<LayerDecl>)
    requires Outside(s)
    ensures Run(s, DocumentEvents(ds)).layers == s.layers + AllDeclared(ds)
    decreases |ds|
  {
    if |ds| > 0 {
      var s1 := Run(s, LayerEvents(ds[0]));
      LayerRun(s, ds[0]);
      DocumentRun(s1, ds[1..]);
      DocumentStep(s, ds);
    } else {
      assert s.layers + [] == s.layers;
    }
  }

  /** The inductive step of `DocumentRun`: the first `<Layer>` element, then
      the rest of the document. */
  lemma DocumentStep(s: ParseState, ds: seq<LayerDecl>)
    requires |ds| > 0
    requires Run(s, LayerEvents(ds[0])).layers == s.layers + Declared(ds[0])
    requires Run(Run(s, LayerEvents(ds[0])), DocumentEvents(ds[1..])).layers
          == Run(s, LayerEvents(ds[0])).layers + AllDeclared(ds[1..])
    ensures Run(s, DocumentEvents(ds)).layers == s.layers + AllDeclared(ds)
  {
    var first, rest := LayerEvents(ds[0]), DocumentEvents(ds[1..]);
    assert DocumentEvents(ds) == first + rest;
    RunAppend(s, first, rest);
    var d0, d1 := Declared(ds[0]), AllDeclared(ds[1..]);
    assert AllDeclared(ds) == d0 + d1;
    AppendAssoc(s.layers, d0, d1);
  }

  lemma AppendAssoc<T>(a: seq<T>, b: seq<T>, c: seq<T>)
    ensures (a + b) + c == a + (b + c)
  {
  }

  /** End to end: parsing a document of `<Layer>` elements yields the radar
      layers it declares completely, sorted by identifier. */
  lemma ParseDocument(ds: seq<LayerDecl>)
    ensures RadarLayersOf(Success(DocumentEvents(ds))) == SortById(AllDeclared(ds))
  {
    DocumentRun(Initial, ds);
    assert Run(Initial, DocumentEvents(ds)).layers == AllDeclared(ds);
  }
}
