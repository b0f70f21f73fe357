/** The whole run of the flight planner (lines 44-353), in the order the
    program runs it: spacings, the anchor line on the terrain's northern
    side, the offset lines stitched into one flight line, and the photo
    waypoints along it. The host geometry engine is passed in as functions;
    `G` is its geometry type. */
module FlightPlan {
  import opened Geometry
  import Overlap
  import Terrain
  import Stitching
  import Waypoints

  /** The dialog's numbers (lines 52-57). */
  datatype Parameters = Parameters(h: real, dc: real, dl: real, f: real, percL: real, percF: real)

  /** The host operations the planner calls but does not implement. */
  datatype Engine<!G> = Engine(
    distance: (Point, Point) -> real,               // `QgsPointXY.distance`
    extend: (Polyline, real, real) -> Polyline,     // `native:extendlines`
    offset: (Polyline, int, real) -> seq<Polyline>, // `native:arrayoffsetlines`
    line: Polyline -> G,                            // `QgsGeometry.fromPolylineXY`
    combine: (G, G) -> G,                           // `QgsGeometry.combine`
    length: G -> real,                              // `QgsGeometry.length`
    interpolate: (G, real) -> Point)                // `QgsGeometry.interpolate`

  // ------------------------------------------------------------ anchor line

  /** The terrain measures and the anchor edge (lines 95-180). */
  datatype Anchor = Anchor(
    extremes: Terrain.Extremes,
    dNS: real,
    dWE: real,
    edge: Terrain.EdgeRef,
    p1: Point,
    p2: Point,
    dLinha: real,
    estender: real)

  ghost predicate IsAnchor<G>(rings: seq<Polyline>, engine: Engine<G>, a: Anchor)
  {
    var vs := Terrain.Vertices(rings);
    && Terrain.IsExtremes(vs, a.extremes)
    && a.dNS == Terrain.NorthSouth(vs, a.extremes)
    && a.dWE == Terrain.WestEast(vs, a.extremes)
    && Terrain.IsNorthernmost(rings, a.edge)
    && a.p1 == rings[a.edge.ring][a.edge.index]
    && a.p2 == rings[a.edge.ring][a.edge.index + 1]
    && a.dLinha == engine.distance(a.p1, a.p2)
    && a.estender > 0.0
    && a.dLinha + 2.0 * a.estender == a.dWE
  }

  /** What lines 154-185 make of given extremes and anchor edge: the anchor
      when the terrain is wider than the edge, and otherwise the failure of
      reading the unassigned `estender`. */
  ghost function AnchorFrom<G>(rings: seq<Polyline>, engine: Engine<G>, ex: Terrain.Extremes, e: Terrain.EdgeRef): Result<Anchor>
    requires Terrain.IsExtremes(Terrain.Vertices(rings), ex) && Terrain.IsNorthernmost(rings, e)
  {
    var vs := Terrain.Vertices(rings);
    var p1, p2 := rings[e.ring][e.index], rings[e.ring][e.index + 1];
    var dWE, dLinha := Terrain.WestEast(vs, ex), engine.distance(p1, p2);
    if dWE > dLinha
    then Ok(Anchor(ex, Terrain.NorthSouth(vs, ex), dWE, e, p1, p2, dLinha, (dWE - dLinha) / 2.0))
    else Err(ExtensionUnbound)
  }

  /** Lines 95-185: the extremes and extents, the northernmost edge and how
      far each of its ends is extended. Extremes and edge are unique
      (`Terrain.ExtremesUnique`, `Terrain.NorthernmostUnique`), so the last
      ensures fixes the result whenever both exist. */
  method FindAnchor<G>(rings: seq<Polyline>, engine: Engine<G>) returns (r: Result<Anchor>)
    ensures Terrain.Vertices(rings) == [] ==> r == Err(NoVertices)
    ensures Terrain.Vertices(rings) != [] && !Terrain.HasEdge(rings) ==> r == Err(NoEdge)
    ensures r.Ok? ==> IsAnchor(rings, engine, r.value)
    ensures forall ex, e :: Terrain.IsExtremes(Terrain.Vertices(rings), ex) && Terrain.IsNorthernmost(rings, e) ==>
      r == AnchorFrom(rings, engine, ex, e)
  {
    var vs := Terrain.Vertices(rings);
    var exR := Terrain.FindExtremes(vs);
    if exR.Err? {
      return Err(NoVertices);
    }
    var extremes := exR.value;
    var edR := Terrain.FindNorthernEdge(rings);
    if edR.Err? {
      return Err(NoEdge);
    }
    var edge := edR.value;
    UniqueAnchorInputs(rings, extremes, edge);
    var dNS := Terrain.NorthSouth(vs, extremes);
    var dWE := Terrain.WestEast(vs, extremes);
    var p1, p2 := rings[edge.ring][edge.index], rings[edge.ring][edge.index + 1];
    var dLinha := engine.distance(p1, p2);
    var ext := Terrain.Extension(dWE, dLinha);
    if ext.Err? {
      r := Err(ExtensionUnbound);
    } else {
      r := Ok(Anchor(extremes, dNS, dWE, edge, p1, p2, dLinha, ext.value));
      assert IsAnchor(rings, engine, r.value);
    }
    assert r == AnchorFrom(rings, engine, extremes, edge);
  }

  /** The extremes and the edge the scans find are the only ones there are. */
  lemma UniqueAnchorInputs(rings: seq<Polyline>, extremes: Terrain.Extremes, edge: Terrain.EdgeRef)
    requires Terrain.IsExtremes(Terrain.Vertices(rings), extremes) && Terrain.IsNorthernmost(rings, edge)
    ensures forall ex, e :: Terrain.IsExtremes(Terrain.Vertices(rings), ex) && Terrain.IsNorthernmost(rings, e) ==>
      ex == extremes && e == edge
  {
    forall ex, e | Terrain.IsExtremes(Terrain.Vertices(rings), ex) && Terrain.IsNorthernmost(rings, e)
      ensures ex == extremes && e == edge
    {
      Terrain.ExtremesUnique(Terrain.Vertices(rings), ex, extremes);
      Terrain.NorthernmostUnique(rings, e, edge);
    }
  }

  // ---------------------------------------------------------------- stitching

  /** The sorted pairs and the line layer once the connectors are in. */
  datatype Stitched = Stitched(ordered: seq<Stitching.Segment>, layer: seq<Polyline>)

  /** The first two vertices of every offset line (lines 222-228). */
  function PairsOf(lines: seq<Polyline>): seq<Stitching.Segment>
    requires forall i :: 0 <= i < |lines| ==> |lines[i]| >= 2
  {
    seq(|lines|, (i: int) requires 0 <= i < |lines| => Stitching.Segment(lines[i][0], lines[i][1]))
  }

  /** The line layer once the connectors between the sorted lines are
      appended (lines 232-278). */
  function LayerOf(lines: seq<Polyline>): seq<Polyline>
    requires forall i :: 0 <= i < |lines| ==> |lines[i]| >= 2
  {
    var ordered := Stitching.SortNorthToSouth(PairsOf(lines));
    lines + Stitching.Connectors(
      seq(|ordered|, (i: int) requires 0 <= i < |ordered| => Stitching.Endpoint(ordered[i], Stitching.Side(i))),
      ordered)
  }

  ghost predicate IsStitched(todasLinhas: seq<Polyline>, s: Stitched)
  {
    && (forall i :: 0 <= i < |todasLinhas| ==> |todasLinhas[i]| >= 2)
    && s.ordered == Stitching.SortNorthToSouth(PairsOf(todasLinhas))
    && Stitching.NorthToSouth(s.ordered)
    && |s.ordered| == |todasLinhas|
    && s.layer == LayerOf(todasLinhas)
    && |s.layer| == |todasLinhas| + (if todasLinhas == [] then 0 else |todasLinhas| - 1)
  }

  /** Lines 220-278: read, sort and connect the offset lines. */
  method StitchLines(todasLinhas: seq<Polyline>) returns (r: Result<Stitched>)
    ensures r.Err? <==> exists i :: 0 <= i < |todasLinhas| && |todasLinhas[i]| < 2
    ensures r.Err? ==> r.error == ShortOffsetLine
    ensures r.Ok? ==> IsStitched(todasLinhas, r.value)
  {
    var paresPontos :- Stitching.CollectPairs(todasLinhas);
    var ordered := Stitching.SortNorthToSouth(paresPontos);
    var pontos := Stitching.ChooseEndpoints(ordered);
    Stitching.ConnectorsJoinLines(pontos, ordered);
    var layer := Stitching.AppendConnectors(todasLinhas, pontos, ordered);
    assert paresPontos == PairsOf(todasLinhas);
    assert pontos == seq(|ordered|, (i: int) requires 0 <= i < |ordered| => Stitching.Endpoint(ordered[i], Stitching.Side(i)));
    r := Ok(Stitched(ordered, layer));
  }

  // ---------------------------------------------------------------- whole run

  /** What one run produces, with the values it derives on the way. */
  datatype Plan<G> = Plan(
    spacings: Overlap.Spacings,
    anchor: Anchor,
    n: int,
    todasLinhas: seq<Polyline>,
    stitched: Stitched,
    flightLine: G,
    waypoints: seq<Waypoints.Waypoint>)

  /** How the run goes on from a found anchor (lines 198-353): `None` when it
      produces its waypoints, otherwise the failure that stops it, in the
      order the program meets them. */
  ghost function FailureAfterAnchor<G>(engine: Engine<G>, a: Anchor, sp: Overlap.Spacings): Option<Failure>
  {
    if sp.lateral == 0.0 then Some(ZeroDivision)
    else
      var n := Terrain.LineCount(a.dNS, sp.lateral).value;
      var lines := engine.offset(engine.extend([a.p1, a.p2], a.estender, a.estender), n, sp.lateral);
      if exists i :: 0 <= i < |lines| && |lines[i]| < 2 then Some(ShortOffsetLine)
      else
        match Stitching.CombineAll(LayerOf(lines), engine.line, engine.combine)
        case None => Some(NoFlightLine)
        case Some(g) => if Waypoints.Terminates([g], engine.length, sp.frontal) then None else Some(Diverges)
  }

  /** How a run on a polygon with these extremes and this anchor edge ends. */
  ghost function RunFailure<G>(prm: Parameters, rings: seq<Polyline>, engine: Engine<G>,
                               ex: Terrain.Extremes, e: Terrain.EdgeRef): Option<Failure>
    requires Terrain.IsExtremes(Terrain.Vertices(rings), ex) && Terrain.IsNorthernmost(rings, e)
  {
    match Overlap.ComputeSpacings(prm.dc, prm.dl, prm.h, prm.f, prm.percL, prm.percF)
    case Err(_) => Some(ZeroDivision)
    case Ok(sp) =>
      match AnchorFrom(rings, engine, ex, e)
      case Err(f) => Some(f)
      case Ok(a) => FailureAfterAnchor(engine, a, sp)
  }

  /** The run ends with a result exactly when no failure is due, and with
      the failure that is due otherwise. */
  ghost predicate EndsAs<T>(r: Result<T>, failure: Option<Failure>)
  {
    match failure
    case None => r.Ok?
    case Some(f) => r == Err(f)
  }

  /** The stitched layer is empty, so there is no flight line, exactly when
      the offset engine returns no line. */
  lemma NoFlightLineIff<G>(lines: seq<Polyline>, line: Polyline -> G, combine: (G, G) -> G)
    requires forall i :: 0 <= i < |lines| ==> |lines[i]| >= 2
    ensures Stitching.CombineAll(LayerOf(lines), line, combine).None? <==> lines == []
  {
  }

  /** Lines 198-353: from the anchor and the spacings to the waypoints. */
  method FlyFromAnchor<G>(engine: Engine<G>, anchor: Anchor, spacings: Overlap.Spacings) returns (r: Result<Plan<G>>)
    ensures EndsAs(r, FailureAfterAnchor(engine, anchor, spacings))
    ensures r.Ok? ==>
      && r.value.spacings == spacings
      && r.value.anchor == anchor
      && Terrain.LineCount(anchor.dNS, spacings.lateral) == Ok(r.value.n)
      && r.value.todasLinhas == engine.offset(
           engine.extend([anchor.p1, anchor.p2], anchor.estender, anchor.estender), r.value.n, spacings.lateral)
      && IsStitched(r.value.todasLinhas, r.value.stitched)
      && Stitching.CombineAll(r.value.stitched.layer, engine.line, engine.combine) == Some(r.value.flightLine)
      && Waypoints.Terminates([r.value.flightLine], engine.length, spacings.frontal)
      && r.value.waypoints ==
           Waypoints.AllWaypoints([r.value.flightLine], engine.length, engine.interpolate, spacings.frontal)
      && (forall i :: 0 <= i < |r.value.waypoints| ==> r.value.waypoints[i].id == i)
  {
    // lines 182-190
    var extended := engine.extend([anchor.p1, anchor.p2], anchor.estender, anchor.estender);
    // lines 198-210
    var nR := Terrain.LineCount(anchor.dNS, spacings.lateral);
    if nR.Err? {
      return Err(ZeroDivision);
    }
    var n := nR.value;
    var todasLinhas := engine.offset(extended, n, spacings.lateral);
    // lines 218-278
    var stitchedR := StitchLines(todasLinhas);
    if stitchedR.Err? {
      return Err(ShortOffsetLine);
    }
    var stitched := stitchedR.value;
    // lines 286-303
    var geomTotal := Stitching.CombineFeatures(stitched.layer, engine.line, engine.combine);
    if geomTotal.None? {
      return Err(NoFlightLine);
    }
    // lines 331-353
    var waypointsR := Waypoints.SampleWaypoints([geomTotal.value], engine.length, engine.interpolate, spacings.frontal);
    if waypointsR.Err? {
      return Err(Diverges);
    }
    var waypoints := waypointsR.value;
    Waypoints.IdsGapless([geomTotal.value], engine.length, engine.interpolate, spacings.frontal);
    r := Ok(Plan(spacings, anchor, n, todasLinhas, stitched, geomTotal.value, waypoints));
  }

  /** Lines 44-353 without the UI: every stage in turn, each failure ending
      the run. The third ensures names, for any polygon that has extremes
      and an anchor edge, the failure that ends the run or that it ends
      with waypoints. */
  method PlanFlight<G>(prm: Parameters, rings: seq<Polyline>, engine: Engine<G>) returns (r: Result<Plan<G>>)
    ensures Overlap.ComputeSpacings(prm.dc, prm.dl, prm.h, prm.f, prm.percL, prm.percF).Err? ==>
      r == Err(ZeroDivision)
    ensures Overlap.ComputeSpacings(prm.dc, prm.dl, prm.h, prm.f, prm.percL, prm.percF).Ok? ==>
      && (Terrain.Vertices(rings) == [] ==> r == Err(NoVertices))
      && (Terrain.Vertices(rings) != [] && !Terrain.HasEdge(rings) ==> r == Err(NoEdge))
    ensures forall ex, e :: Terrain.IsExtremes(Terrain.Vertices(rings), ex) && Terrain.IsNorthernmost(rings, e) ==>
      EndsAs(r, RunFailure(prm, rings, engine, ex, e))
    ensures r.Ok? ==>
      && Overlap.ComputeSpacings(prm.dc, prm.dl, prm.h, prm.f, prm.percL, prm.percF) == Ok(r.value.spacings)
      && IsAnchor(rings, engine, r.value.anchor)
      && Terrain.LineCount(r.value.anchor.dNS, r.value.spacings.lateral) == Ok(r.value.n)
      && r.value.todasLinhas == engine.offset(
           engine.extend([r.value.anchor.p1, r.value.anchor.p2], r.value.anchor.estender, r.value.anchor.estender),
           r.value.n, r.value.spacings.lateral)
      && IsStitched(r.value.todasLinhas, r.value.stitched)
      && Stitching.CombineAll(r.value.stitched.layer, engine.line, engine.combine) == Some(r.value.flightLine)
      && Waypoints.Terminates([r.value.flightLine], engine.length, r.value.spacings.frontal)
      && r.value.waypoints ==
           Waypoints.AllWaypoints([r.value.flightLine], engine.length, engine.interpolate, r.value.spacings.frontal)
      && (forall i :: 0 <= i < |r.value.waypoints| ==> r.value.waypoints[i].id == i)
  {
    // lines 61-75
    var spR := Overlap.ComputeSpacings(prm.dc, prm.dl, prm.h, prm.f, prm.percL, prm.percF);
    if spR.Err? {
      return Err(ZeroDivision);
    }
    // lines 95-185
    var anchorR := FindAnchor(rings, engine);
    if anchorR.Err? {
      return Err(anchorR.error);
    }
    var anchor := anchorR.value;
    UniqueAnchorInputs(rings, anchor.extremes, anchor.edge);
    assert RunFailure(prm, rings, engine, anchor.extremes, anchor.edge) == FailureAfterAnchor(engine, anchor, spR.value);
    r := FlyFromAnchor(engine, anchor, spR.value);
  }

  /** The dialog bounds `percF` only from below (lines 40-42). At an overlap
      of one or more the frontal spacing is not positive, and on a flight
      line of positive length the waypoint loop then never ends. */
  lemma FullFrontalOverlapStalls<G>(prm: Parameters, g: G, length: G -> real)
    requires prm.dl > 0.0 && prm.h > 0.0 && prm.f > 0.0 && prm.percF >= 1.0
    requires length(g) > 0.0
    ensures Overlap.FrontalSpacing(prm.dl, prm.h, prm.f, prm.percF).Ok?
    ensures !Waypoints.Terminates([g], length, Overlap.FrontalSpacing(prm.dl, prm.h, prm.f, prm.percF).value)
  {
    Overlap.FrontalPositiveIff(prm.dl, prm.h, prm.f, prm.percF);
    assert [g][0] == g;
  }

  /** The dialog allows a lateral overlap of exactly one (lines 37-39). The
      lateral spacing is then zero, and when the anchor exists the run
      stops on the division by it at line 198. */
  lemma FullLateralOverlapFails<G>(prm: Parameters, rings: seq<Polyline>, engine: Engine<G>,
                                   ex: Terrain.Extremes, e: Terrain.EdgeRef)
    requires Terrain.IsExtremes(Terrain.Vertices(rings), ex) && Terrain.IsNorthernmost(rings, e)
    requires prm.dc > 0.0 && prm.dl > 0.0 && prm.h > 0.0 && prm.f > 0.0 && prm.percF > 0.0 && prm.percL == 1.0
    requires AnchorFrom(rings, engine, ex, e).Ok?
    ensures RunFailure(prm, rings, engine, ex, e) == Some(ZeroDivision)
  {
  }
}
