/** The import pass: every element of every structure is visited in stream
    order and counted; a Boundary is drawn as a filled polygon on the user
    layer named after its layer and datatype, creating that layer when the
    document lacks it; Path, Text, Node and Box elements only produce a
    "not implemented" warning; structure and array references are counted
    and nothing else.

    Each step is first given as a function on Snapshot values (the *Step
    functions and ImportSpec), which the lemmas reason about; the methods
    then drive an Xpedition object and are proved to follow those
    functions. */
module Import {
  import opened Decimal
  import opened Gds
  import opened Geometry
  import opened Host

  // ---------------------------------------------------------------------
  // Transcript lines

  function KindName(e: Element): string {
    match e
    case Boundary(_, _, _) => "Boundary"
    case Path(_, _, _, _) => "Path"
    case Text(_, _, _, _) => "Text"
    case Node(_, _, _) => "Node"
    case Box(_, _, _) => "Box"
    case SRef(_, _) => "SRef"
    case ARef(_, _, _, _) => "ARef"
  }

  /** The geometric element kinds the importer reports as not implemented. */
  predicate Unsupported(e: Element) {
    e.Path? || e.Text? || e.Node? || e.Box?
  }

  // ---------------------------------------------------------------------
  // Specification of one step

  /** A Boundary can be drawn only if it has a first vertex to repeat; the
      importer fails on an empty one. */
  predicate Drawable(e: Element) {
    e.Boundary? ==> |e.xy| > 0
  }

  predicate AllDrawable(elems: seq<Element>) {
    forall k :: 0 <= k < |elems| ==> Drawable(elems[k])
  }

  /** The graphics of a layer, or none when the document lacks it. */
  function Lookup(layers: map<string, seq<UserLayerGfx>>, name: string): seq<UserLayerGfx> {
    if name in layers then layers[name] else []
  }

  /** The graphic drawn for a Boundary's vertices: width 5.0, filled, in
      unit code 5, with the closed points array and its length as the point
      count. */
  function Polygon(xy: seq<Point>): (g: UserLayerGfx)
    requires |xy| > 0
    ensures g.numPoints == |g.points.xs| == |g.points.ys| == |g.points.rs| == |xy| + 1
    ensures g.points.xs[|xy|] == g.points.xs[0] && g.points.ys[|xy|] == g.points.ys[0]
  {
    UserLayerGfx(5.0, |xy| + 1, ClosedOutline(xy), true, 5)
  }

  /** setupUserLayer: find the layer, request it if missing, and report
      whether it is now there. */
  function SetupStep(s: Snapshot, refused: set<string>, uln: string): (r: Snapshot)
    ensures uln in r.userLayers <==> uln in s.userLayers || uln !in refused
    ensures r.userLayers - {uln} == s.userLayers - {uln}
    ensures uln in s.userLayers ==> r.userLayers == s.userLayers && r.layerRequests == s.layerRequests
    ensures uln !in s.userLayers ==> r.layerRequests == s.layerRequests + [uln] && Lookup(r.userLayers, uln) == []
    ensures r.messages == s.messages + [if uln in r.userLayers then LayerSetUp(uln) else LayerSetupFailed(uln)]
  {
    if uln in s.userLayers then
      s.(messages := s.messages + [LayerSetUp(uln)])
    else if uln in refused then
      s.(layerRequests := s.layerRequests + [uln], messages := s.messages + [LayerSetupFailed(uln)])
    else
      Snapshot(s.userLayers[uln := []], s.layerRequests + [uln], s.messages + [LayerSetUp(uln)])
  }

  /** drawBoundry: look the layer up, set it up when missing, then either
      draw the polygon on it or report the element as skipped. */
  function DrawStep(s: Snapshot, refused: set<string>, e: Element): (r: Snapshot)
    requires e.Boundary? && |e.xy| > 0
    ensures var uln := UserLayerName(e.layer, e.dataType);
      && (uln in r.userLayers <==> uln in s.userLayers || uln !in refused)
      && r.userLayers == (if uln !in s.userLayers && uln in refused then s.userLayers
                          else s.userLayers[uln := Lookup(s.userLayers, uln) + [Polygon(e.xy)]])
      && r.layerRequests == s.layerRequests + (if uln in s.userLayers then [] else [uln])
    ensures var uln := UserLayerName(e.layer, e.dataType);
      r.messages == s.messages + (if uln in s.userLayers then []
                                  else if uln in refused then [LayerSetupFailed(uln), BoundarySkipped(uln)]
                                  else [LayerSetUp(uln)])
  {
    var uln := UserLayerName(e.layer, e.dataType);
    var t := if uln in s.userLayers then s else SetupStep(s, refused, uln);
    if uln in t.userLayers then
      t.(userLayers := t.userLayers[uln := t.userLayers[uln] + [Polygon(e.xy)]])
    else
      t.(messages := t.messages + [BoundarySkipped(uln)])
  }

  /** One iteration of the element loop. A reference matches none of the
      branches and leaves everything as it was. */
  function ElementStep(s: Snapshot, refused: set<string>, e: Element): Snapshot
    requires Drawable(e)
  {
    if e.Boundary? then DrawStep(s, refused, e)
    else if Unsupported(e) then s.(messages := s.messages + [NotImplemented(KindName(e))])
    else s
  }

  /** The element loop over a sequence of elements, in order. */
  function ImportSpec(s: Snapshot, refused: set<string>, elems: seq<Element>): Snapshot
    requires AllDrawable(elems)
    decreases |elems|
  {
    if elems == [] then s
    else ElementStep(ImportSpec(s, refused, elems[..|elems| - 1]), refused, elems[|elems| - 1])
  }

  /** All elements of a library, structure by structure. */
  function Flatten(lib: Library): seq<Element> {
    if lib == [] then [] else Flatten(lib[..|lib| - 1]) + lib[|lib| - 1]
  }

  /** The number of elements in a library: the sum of its structures' sizes. */
  function ElementCount(lib: Library): nat {
    if lib == [] then 0 else |lib[0]| + ElementCount(lib[1..])
  }

  predicate LibraryDrawable(lib: Library) {
    forall i :: 0 <= i < |lib| ==> AllDrawable(lib[i])
  }

  // ---------------------------------------------------------------------
  // Observations on a run

  /** The transcript lines of one severity, in order. */
  function OfSeverity(ms: seq<Message>, sev: Severity): seq<Message> {
    if ms == [] then []
    else OfSeverity(ms[..|ms| - 1], sev) + (if ms[|ms| - 1].Severity() == sev then [ms[|ms| - 1]] else [])
  }

  /** One "not implemented" warning per Path, Text, Node or Box element. */
  function UnsupportedWarnings(elems: seq<Element>): seq<Message> {
    if elems == [] then []
    else
      var e := elems[|elems| - 1];
      UnsupportedWarnings(elems[..|elems| - 1]) + (if Unsupported(e) then [NotImplemented(KindName(e))] else [])
  }

  /** The lines one iteration appends to the transcript. */
  function StepLines(layers: map<string, seq<UserLayerGfx>>, refused: set<string>, e: Element): seq<Message> {
    if e.Boundary? then
      var uln := UserLayerName(e.layer, e.dataType);
      if uln in layers then []
      else if uln in refused then [LayerSetupFailed(uln), BoundarySkipped(uln)]
      else [LayerSetUp(uln)]
    else if Unsupported(e) then [NotImplemented(KindName(e))]
    else []
  }

  /** The two errors for a Boundary aimed at a layer that is missing from
      `layers` and that the application refuses to create; none otherwise. */
  function SkipLines(layers: map<string, seq<UserLayerGfx>>, refused: set<string>, e: Element): seq<Message> {
    if e.Boundary? then
      var uln := UserLayerName(e.layer, e.dataType);
      if uln !in layers && uln in refused then [LayerSetupFailed(uln), BoundarySkipped(uln)] else []
    else []
  }

  /** The skip errors of a run, judged against the layers the document had
      before it, in stream order. */
  function SkipErrors(layers: map<string, seq<UserLayerGfx>>, refused: set<string>, elems: seq<Element>): seq<Message> {
    if elems == [] then []
    else SkipErrors(layers, refused, elems[..|elems| - 1]) + SkipLines(layers, refused, elems[|elems| - 1])
  }

  /** The polygons that the Boundaries among `elems` direct to the layer
      `name`, in order. */
  function GfxOn(name: string, elems: seq<Element>): seq<UserLayerGfx>
    requires AllDrawable(elems)
  {
    if elems == [] then []
    else
      var e := elems[|elems| - 1];
      GfxOn(name, elems[..|elems| - 1])
        + (if e.Boundary? && UserLayerName(e.layer, e.dataType) == name then [Polygon(e.xy)] else [])
  }

  /** How often `name` occurs in a sequence of names. */
  function Occurrences(name: string, names: seq<string>): nat {
    if names == [] then 0
    else Occurrences(name, names[..|names| - 1]) + (if names[|names| - 1] == name then 1 else 0)
  }

  // ---------------------------------------------------------------------
  // The importer

  /** setupUserLayer (uln): FindUserLayer, PutUserLayer when not found, and a
      note or an error on the transcript. */
  method SetupUserLayer(app: Xpedition, uln: string) returns (ok: bool)
    modifies app
    ensures ok <==> uln in app.userLayers
    ensures app.State() == SetupStep(old(app.State()), app.refused, uln)
  {
    ok := app.FindUserLayer(uln);
    if !ok {
      ok := app.PutUserLayer(uln);
    }
    if !ok {
      app.Transcript(LayerSetupFailed(uln));
    } else {
      app.Transcript(LayerSetUp(uln));
    }
  }

  /** drawBoundry (elem): build the points array, find or set up the layer,
      then draw or report the element as skipped. */
  method DrawBoundary(app: Xpedition, e: Element)
    requires e.Boundary? && |e.xy| > 0
    modifies app
    ensures app.State() == DrawStep(old(app.State()), app.refused, e)
  {
    var points := BuildPointsArray(e.xy);
    var uln := UserLayerName(e.layer, e.dataType);
    var found := app.FindUserLayer(uln);
    if !found {
      found := SetupUserLayer(app, uln);
    }
    if !found {
      app.Transcript(BoundarySkipped(uln));
    } else {
      app.PutUserLayerGfx(uln, UserLayerGfx(5.0, |points.xs|, points, true, 5));
    }
  }

  /** The traversal in main: visit each element of each structure, dispatch
      on its kind, count it, and finally report the count. */
  method ImportLibrary(app: Xpedition, lib: Library) returns (rc: int)
    requires LibraryDrawable(lib)
    modifies app
    ensures rc == ElementCount(lib)
    ensures AllDrawable(Flatten(lib))
    ensures var t := ImportSpec(old(app.State()), app.refused, Flatten(lib));
      app.State() == t.(messages := t.messages + [RecordsProcessed(rc)])
  {
    ghost var s0 := app.State();
    rc := 0;
    for i := 0 to |lib|
      invariant rc == |Flatten(lib[..i])|
      invariant AllDrawable(Flatten(lib[..i]))
      invariant app.State() == ImportSpec(s0, app.refused, Flatten(lib[..i]))
    {
      var struc := lib[i];
      ghost var done := Flatten(lib[..i]);
      assert done + struc[..0] == done;
      for j := 0 to |struc|
        invariant rc == |done| + j
        invariant AllDrawable(done + struc[..j])
        invariant app.State() == ImportSpec(s0, app.refused, done + struc[..j])
      {
        var elem := struc[j];
        ExtendByElement(done, struc, j);
        ImportSpecSnoc(s0, app.refused, done + struc[..j], elem);
        match elem {
          case Boundary(_, _, _) => DrawBoundary(app, elem);
          case Path(_, _, _, _) => app.Transcript(NotImplemented(KindName(elem)));
          case Text(_, _, _, _) => app.Transcript(NotImplemented(KindName(elem)));
          case Node(_, _, _) => app.Transcript(NotImplemented(KindName(elem)));
          case Box(_, _, _) => app.Transcript(NotImplemented(KindName(elem)));
          case SRef(_, _) =>
          case ARef(_, _, _, _) =>
        }
        rc := rc + 1;
      }
      FlattenSnoc(lib, i);
    }
    assert lib[..|lib|] == lib;
    FlattenLength(lib);
    app.Transcript(RecordsProcessed(rc));
  }

  lemma ExtendByElement(done: seq<Element>, struc: Structure, j: nat)
    requires j < |struc| && AllDrawable(done + struc[..j]) && AllDrawable(struc)
    ensures done + struc[..j + 1] == (done + struc[..j]) + [struc[j]]
    ensures AllDrawable(done + struc[..j + 1])
  {
    assert struc[..j + 1] == struc[..j] + [struc[j]];
  }

  lemma ImportSpecSnoc(s: Snapshot, refused: set<string>, elems: seq<Element>, e: Element)
    requires AllDrawable(elems) && Drawable(e)
    ensures AllDrawable(elems + [e])
    ensures ImportSpec(s, refused, elems + [e]) == ElementStep(ImportSpec(s, refused, elems), refused, e)
  {
    assert (elems + [e])[..|elems|] == elems;
  }

  lemma FlattenSnoc(lib: Library, i: nat)
    requires i < |lib|
    ensures Flatten(lib[..i + 1]) == Flatten(lib[..i]) + lib[i]
    ensures Flatten(lib[..i]) + lib[i][..|lib[i]|] == Flatten(lib[..i + 1])
  {
    assert lib[..i + 1][..i] == lib[..i];
    assert lib[i][..|lib[i]|] == lib[i];
  }

  // ---------------------------------------------------------------------
  // Properties

  lemma {:induction false} ElementCountSnoc(lib: Library)
    requires lib != []
    ensures ElementCount(lib) == ElementCount(lib[..|lib| - 1]) + |lib[|lib| - 1]|
  {
    if |lib| > 1 {
      assert lib[1..][..|lib[1..]| - 1] == lib[..|lib| - 1][1..];
      ElementCountSnoc(lib[1..]);
    }
  }

  /** The traversal visits exactly as many elements as the structures hold. */
  lemma {:induction false} FlattenLength(lib: Library)
    ensures |Flatten(lib)| == ElementCount(lib)
  {
    if lib != [] {
      FlattenLength(lib[..|lib| - 1]);
      ElementCountSnoc(lib);
    }
  }

  /** After the import, a layer holds what it held before followed by the
      polygons of the Boundaries directed to it, in stream order. A layer
      that the application refuses to create and that did not exist stays
      absent; other layers are never removed. */
  lemma {:induction false} ImportedLayerContents(s: Snapshot, refused: set<string>, elems: seq<Element>, name: string)
    requires AllDrawable(elems)
    ensures var r := ImportSpec(s, refused, elems);
      if name in s.userLayers || name !in refused then
        && (name in r.userLayers <==> name in s.userLayers || GfxOn(name, elems) != [])
        && Lookup(r.userLayers, name) == Lookup(s.userLayers, name) + GfxOn(name, elems)
      else
        name !in r.userLayers
  {
    if elems != [] {
      var p, e := elems[..|elems| - 1], elems[|elems| - 1];
      var t := ImportSpec(s, refused, p);
      ImportedLayerContents(s, refused, p, name);
      ElementStepLayer(t, refused, e, name);
      assert ImportSpec(s, refused, elems) == ElementStep(t, refused, e);
      assert GfxOn(name, elems) == GfxOn(name, p)
        + (if e.Boundary? && UserLayerName(e.layer, e.dataType) == name then [Polygon(e.xy)] else []);
    }
  }

  /** One step changes the layer `name` only if it draws a Boundary there. */
  lemma ElementStepLayer(t: Snapshot, refused: set<string>, e: Element, name: string)
    requires Drawable(e)
    ensures var r := ElementStep(t, refused, e);
      if e.Boundary? && UserLayerName(e.layer, e.dataType) == name then
        if name !in t.userLayers && name in refused then name !in r.userLayers
        else name in r.userLayers && r.userLayers[name] == Lookup(t.userLayers, name) + [Polygon(e.xy)]
      else
        (name in r.userLayers <==> name in t.userLayers) && Lookup(r.userLayers, name) == Lookup(t.userLayers, name)
  {
  }

  lemma AppendAssoc(a: seq<Message>, b: seq<Message>, c: seq<Message>)
    ensures (a + b) + c == a + (b + c)
  {
  }

  lemma {:induction false} OfSeverityAppend(a: seq<Message>, b: seq<Message>, sev: Severity)
    ensures OfSeverity(a + b, sev) == OfSeverity(a, sev) + OfSeverity(b, sev)
  {
    if b == [] {
      assert a + b == a;
    } else {
      assert (a + b)[..|a + b| - 1] == a + b[..|b| - 1];
      OfSeverityAppend(a, b[..|b| - 1], sev);
    }
  }

  /** The last iteration of a run appends the lines of its element, judged
      against the layers the run had reached. */
  lemma ImportSpecAppends(s: Snapshot, refused: set<string>, elems: seq<Element>, sev: Severity)
    requires AllDrawable(elems) && elems != []
    ensures var p := elems[..|elems| - 1];
      var lines := StepLines(ImportSpec(s, refused, p).userLayers, refused, elems[|elems| - 1]);
      OfSeverity(ImportSpec(s, refused, elems).messages, sev)
        == OfSeverity(ImportSpec(s, refused, p).messages, sev) + OfSeverity(lines, sev)
  {
    var p, e := elems[..|elems| - 1], elems[|elems| - 1];
    var t := ImportSpec(s, refused, p);
    var lines := StepLines(t.userLayers, refused, e);
    assert ImportSpec(s, refused, elems).messages == t.messages + lines;
    OfSeverityAppend(t.messages, lines, sev);
  }

  lemma OfSeverityPair(a: Message, b: Message, sev: Severity)
    ensures OfSeverity([a, b], sev)
         == (if a.Severity() == sev then [a] else []) + (if b.Severity() == sev then [b] else [])
  {
    assert [a, b][..1] == [a];
    assert [a][..0] == [];
    assert OfSeverity([a], sev) == (if a.Severity() == sev then [a] else []);
  }

  /** The lines of one iteration hold a warning exactly for an element kind
      that is not implemented. */
  lemma StepWarnings(layers: map<string, seq<UserLayerGfx>>, refused: set<string>, e: Element)
    ensures OfSeverity(StepLines(layers, refused, e), Warning)
         == (if Unsupported(e) then [NotImplemented(KindName(e))] else [])
  {
    if e.Boundary? {
      var uln := UserLayerName(e.layer, e.dataType);
      OfSeverityPair(LayerSetupFailed(uln), BoundarySkipped(uln), Warning);
    }
  }

  /** The warnings of an import are one "not implemented" per Path, Text,
      Node or Box element, in stream order; drawing Boundaries adds notes
      and errors only, and references add nothing. */
  lemma {:induction false} ImportWarnings(s: Snapshot, refused: set<string>, elems: seq<Element>)
    requires AllDrawable(elems)
    ensures OfSeverity(ImportSpec(s, refused, elems).messages, Warning)
         == OfSeverity(s.messages, Warning) + UnsupportedWarnings(elems)
  {
    if elems != [] {
      ImportWarnings(s, refused, elems[..|elems| - 1]);
      ImportWarningsStep(s, refused, elems);
    }
  }

  lemma ImportWarningsStep(s: Snapshot, refused: set<string>, elems: seq<Element>)
    requires AllDrawable(elems) && elems != []
    requires OfSeverity(ImportSpec(s, refused, elems[..|elems| - 1]).messages, Warning)
          == OfSeverity(s.messages, Warning) + UnsupportedWarnings(elems[..|elems| - 1])
    ensures OfSeverity(ImportSpec(s, refused, elems).messages, Warning)
         == OfSeverity(s.messages, Warning) + UnsupportedWarnings(elems)
  {
    var p, e := elems[..|elems| - 1], elems[|elems| - 1];
    ImportSpecAppends(s, refused, elems, Warning);
    StepWarnings(ImportSpec(s, refused, p).userLayers, refused, e);
    var w := if Unsupported(e) then [NotImplemented(KindName(e))] else [];
    assert UnsupportedWarnings(elems) == UnsupportedWarnings(p) + w;
    AppendAssoc(OfSeverity(s.messages, Warning), UnsupportedWarnings(p), w);
  }

  /** The lines of one iteration hold errors exactly for a Boundary whose
      layer is missing and refused. */
  lemma StepErrors(layers: map<string, seq<UserLayerGfx>>, refused: set<string>, e: Element)
    ensures OfSeverity(StepLines(layers, refused, e), Error) == SkipLines(layers, refused, e)
  {
    if e.Boundary? {
      var uln := UserLayerName(e.layer, e.dataType);
      OfSeverityPair(LayerSetupFailed(uln), BoundarySkipped(uln), Error);
    }
  }

  /** The errors of an import are exactly the pair "unable to set up" and
      "Boundary element skipped" for each Boundary aimed at a layer that the
      document lacked and the application refuses to create, in stream
      order. Such a layer never appears, so the pair repeats for every
      Boundary aimed at it. */
  lemma {:induction false} ImportErrors(s: Snapshot, refused: set<string>, elems: seq<Element>)
    requires AllDrawable(elems)
    ensures OfSeverity(ImportSpec(s, refused, elems).messages, Error)
         == OfSeverity(s.messages, Error) + SkipErrors(s.userLayers, refused, elems)
  {
    if elems != [] {
      ImportErrors(s, refused, elems[..|elems| - 1]);
      ImportErrorsStep(s, refused, elems);
    }
  }

  lemma ImportErrorsStep(s: Snapshot, refused: set<string>, elems: seq<Element>)
    requires AllDrawable(elems) && elems != []
    requires OfSeverity(ImportSpec(s, refused, elems[..|elems| - 1]).messages, Error)
          == OfSeverity(s.messages, Error) + SkipErrors(s.userLayers, refused, elems[..|elems| - 1])
    ensures OfSeverity(ImportSpec(s, refused, elems).messages, Error)
         == OfSeverity(s.messages, Error) + SkipErrors(s.userLayers, refused, elems)
  {
    var p, e := elems[..|elems| - 1], elems[|elems| - 1];
    ImportSpecAppends(s, refused, elems, Error);
    StepErrors(ImportSpec(s, refused, p).userLayers, refused, e);
    SkipLinesStable(s, refused, p, e);
    var skipped := SkipLines(s.userLayers, refused, e);
    assert SkipErrors(s.userLayers, refused, elems) == SkipErrors(s.userLayers, refused, p) + skipped;
    AppendAssoc(OfSeverity(s.messages, Error), SkipErrors(s.userLayers, refused, p), skipped);
  }

  /** Whether a Boundary is skipped does not depend on how far the run has
      got: a refused layer that was missing stays missing, and a layer that
      existed stays. */
  lemma SkipLinesStable(s: Snapshot, refused: set<string>, p: seq<Element>, e: Element)
    requires AllDrawable(p)
    ensures SkipLines(ImportSpec(s, refused, p).userLayers, refused, e) == SkipLines(s.userLayers, refused, e)
  {
    if e.Boundary? {
      ImportedLayerContents(s, refused, p, UserLayerName(e.layer, e.dataType));
    }
  }

  /** A structure or array reference falls through every branch of the
      loop body: it is counted and changes nothing else. */
  lemma ReferenceChangesNothing(t: Snapshot, refused: set<string>, e: Element)
    requires e.SRef? || e.ARef?
    ensures ElementStep(t, refused, e) == t
  {
  }

  /** Creation is requested only for missing layers: never for a layer the
      document already had, once for a layer that is then created, and once
      per Boundary directed to a layer the application refuses. */
  lemma {:induction false} ImportLayerRequests(s: Snapshot, refused: set<string>, elems: seq<Element>, name: string)
    requires AllDrawable(elems)
    ensures Occurrences(name, ImportSpec(s, refused, elems).layerRequests)
         == Occurrences(name, s.layerRequests)
            + if name in s.userLayers || GfxOn(name, elems) == [] then 0
              else if name in refused then |GfxOn(name, elems)|
              else 1
  {
    if elems != [] {
      var p, e := elems[..|elems| - 1], elems[|elems| - 1];
      ImportLayerRequests(s, refused, p, name);
      ImportedLayerContents(s, refused, p, name);
      ElementStepRequests(ImportSpec(s, refused, p), refused, e, name);
    }
  }

  /** One step requests the layer `name` only for a Boundary aimed at it
      while it is missing. */
  lemma ElementStepRequests(t: Snapshot, refused: set<string>, e: Element, name: string)
    requires Drawable(e)
    ensures Occurrences(name, ElementStep(t, refused, e).layerRequests)
         == Occurrences(name, t.layerRequests)
            + if e.Boundary? && UserLayerName(e.layer, e.dataType) == name && name !in t.userLayers then 1 else 0
  {
    if e.Boundary? {
      var uln := UserLayerName(e.layer, e.dataType);
      if uln !in t.userLayers {
        assert (t.layerRequests + [uln])[..|t.layerRequests|] == t.layerRequests;
      }
    }
  }

  /** A successful setup makes the next one for the same name create
      nothing: no new request and no change to the layers. */
  lemma SetupTwiceCreatesNothing(s: Snapshot, refused: set<string>, uln: string)
    requires uln in SetupStep(s, refused, uln).userLayers
    ensures var t := SetupStep(s, refused, uln);
      var u := SetupStep(t, refused, uln);
      u.userLayers == t.userLayers && u.layerRequests == t.layerRequests
  {
  }

  /** A worked case: an open square with 1000 nm sides on layer 5, datatype 2,
      drawn into a document without user layers, lands on a new layer
      "GDS_5.2" as one closed five-point polygon with 1-micron sides. */
  lemma SquareOnLayer5Datatype2(refused: set<string>)
    requires "GDS_5.2" !in refused
    ensures var square := Boundary(5, 2, [Point(0, 0), Point(1000, 0), Point(1000, 1000), Point(0, 1000)]);
      DrawStep(Snapshot(map[], [], []), refused, square).userLayers
        == map["GDS_5.2" := [UserLayerGfx(5.0, 5, PointsArray(
             [0.0, 1.0, 1.0, 0.0, 0.0], [0.0, 0.0, 1.0, 1.0, 0.0], [0.0, 0.0, 0.0, 0.0, 0.0]), true, 5)]]
  {
    assert NatDecimal(5) == "5" && NatDecimal(2) == "2";
    assert UserLayerName(5, 2) == "GDS_5.2";
    var xy := [Point(0, 0), Point(1000, 0), Point(1000, 1000), Point(0, 1000)];
    var pa := ClosedOutline(xy);
    assert pa.xs == [0.0, 1.0, 1.0, 0.0, 0.0];
    assert pa.ys == [0.0, 0.0, 1.0, 1.0, 0.0];
    assert pa.rs == [0.0, 0.0, 0.0, 0.0, 0.0];
    var empty: map<string, seq<UserLayerGfx>> := map[];
    var r := DrawStep(Snapshot(empty, [], []), refused, Boundary(5, 2, xy));
    var uln := UserLayerName(5, 2);
    assert uln !in empty && uln !in refused;
    assert Lookup(empty, uln) + [Polygon(xy)] == [Polygon(xy)];
    assert r.userLayers == empty[uln := [Polygon(xy)]];
    assert Polygon(xy) == UserLayerGfx(5.0, 5, pa, true, 5);
  }
}
