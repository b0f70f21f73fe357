/** The bookkeeping the flight planner does on the terrain polygon before it
    asks the geometry engine for the survey lines: the extreme vertices and
    the extents they span, the northernmost edge that anchors the first
    line, how far that edge is extended, and how many offset lines follow. */
module Terrain {
  import opened Geometry

  /** All vertices of the polygon, ring after ring, as the vertex iterator
      visits them. */
  function Vertices(rings: seq<Polyline>): Polyline
  {
    if rings == [] then [] else rings[0] + Vertices(rings[1..])
  }

  // ---------------------------------------------------------------- extremes

  datatype Axis = X | Y

  function Coord(p: Point, axis: Axis): real
  {
    match axis
    case X => p.x
    case Y => p.y
  }

  /** `i` is the first vertex whose coordinate on `axis` is the largest. */
  ghost predicate IsFirstMax(vs: Polyline, i: nat, axis: Axis)
  {
    && i < |vs|
    && (forall j :: 0 <= j < |vs| ==> Coord(vs[j], axis) <= Coord(vs[i], axis))
    && (forall j :: 0 <= j < i ==> Coord(vs[j], axis) < Coord(vs[i], axis))
  }

  /** `i` is the first vertex whose coordinate on `axis` is the smallest. */
  ghost predicate IsFirstMin(vs: Polyline, i: nat, axis: Axis)
  {
    && i < |vs|
    && (forall j :: 0 <= j < |vs| ==> Coord(vs[i], axis) <= Coord(vs[j], axis))
    && (forall j :: 0 <= j < i ==> Coord(vs[i], axis) < Coord(vs[j], axis))
  }

  /** Positions of the northern, southern, western and eastern vertex. */
  datatype Extremes = Extremes(north: nat, south: nat, west: nat, east: nat)

  ghost predicate IsExtremes(vs: Polyline, ex: Extremes)
  {
    && IsFirstMax(vs, ex.north, Y)
    && IsFirstMin(vs, ex.south, Y)
    && IsFirstMin(vs, ex.west, X)
    && IsFirstMax(vs, ex.east, X)
  }

  /** The single pass over the vertices (lines 95-103). The strict
      comparisons keep the first vertex seen among equals; on a polygon
      without vertices the program fails reading `pontoN.y()`. */
  method FindExtremes(vs: Polyline) returns (r: Result<Extremes>)
    ensures r.Err? <==> vs == []
    ensures r.Err? ==> r.error == NoVertices
    ensures r.Ok? ==> IsExtremes(vs, r.value)
  {
    var n, s, w, e := 0, 0, 0, 0;
    var i := 0;
    while i < |vs|
      invariant 0 <= i <= |vs|
      invariant i > 0 ==> IsFirstMax(vs[..i], n, Y) && IsFirstMin(vs[..i], s, Y)
      invariant i > 0 ==> IsFirstMin(vs[..i], w, X) && IsFirstMax(vs[..i], e, X)
    {
      var p := vs[i];
      if i == 0 || p.y > vs[n].y { n := i; }
      if i == 0 || p.y < vs[s].y { s := i; }
      if i == 0 || p.x < vs[w].x { w := i; }
      if i == 0 || p.x > vs[e].x { e := i; }
      i := i + 1;
    }
    if i == 0 {
      return Err(NoVertices);
    }
    assert vs[..i] == vs;
    r := Ok(Extremes(n, s, w, e));
  }

  /** `dNS` (line 115): the north-south extent of the terrain. */
  function NorthSouth(vs: Polyline, ex: Extremes): (d: real)
    requires IsExtremes(vs, ex)
    ensures d >= 0.0
    ensures forall i, j :: 0 <= i < |vs| && 0 <= j < |vs| ==> vs[i].y - vs[j].y <= d
    ensures exists i, j :: 0 <= i < |vs| && 0 <= j < |vs| && vs[i].y - vs[j].y == d
  {
    assert Coord(vs[ex.north], Y) == vs[ex.north].y && Coord(vs[ex.south], Y) == vs[ex.south].y;
    assert forall i :: 0 <= i < |vs| ==> Coord(vs[i], Y) == vs[i].y;
    Abs(vs[ex.north].y - vs[ex.south].y)
  }

  /** `dWE` (line 116): the west-east extent of the terrain. */
  function WestEast(vs: Polyline, ex: Extremes): (d: real)
    requires IsExtremes(vs, ex)
    ensures d >= 0.0
    ensures forall i, j :: 0 <= i < |vs| && 0 <= j < |vs| ==> vs[i].x - vs[j].x <= d
    ensures exists i, j :: 0 <= i < |vs| && 0 <= j < |vs| && vs[i].x - vs[j].x == d
  {
    assert Coord(vs[ex.east], X) == vs[ex.east].x && Coord(vs[ex.west], X) == vs[ex.west].x;
    assert forall i :: 0 <= i < |vs| ==> Coord(vs[i], X) == vs[i].x;
    Abs(vs[ex.west].x - vs[ex.east].x)
  }

  /** The extremes are determined by the vertices: the tie rule leaves no
      choice. */
  lemma ExtremesUnique(vs: Polyline, a: Extremes, b: Extremes)
    requires IsExtremes(vs, a) && IsExtremes(vs, b)
    ensures a == b
  {
    FirstMaxUnique(vs, a.north, b.north, Y);
    FirstMinUnique(vs, a.south, b.south, Y);
    FirstMinUnique(vs, a.west, b.west, X);
    FirstMaxUnique(vs, a.east, b.east, X);
  }

  lemma FirstMaxUnique(vs: Polyline, i: nat, j: nat, axis: Axis)
    requires IsFirstMax(vs, i, axis) && IsFirstMax(vs, j, axis)
    ensures i == j
  {
    assert Coord(vs[i], axis) == Coord(vs[j], axis);
  }

  lemma FirstMinUnique(vs: Polyline, i: nat, j: nat, axis: Axis)
    requires IsFirstMin(vs, i, axis) && IsFirstMin(vs, j, axis)
    ensures i == j
  {
    assert Coord(vs[i], axis) == Coord(vs[j], axis);
  }

  /** Every polygon with a vertex has extremes, so the specification of the
      scan can always be met. */
  lemma ExtremesExist(vs: Polyline)
    requires vs != []
    ensures exists ex :: IsExtremes(vs, ex)
  {
    FirstMaxExists(vs, Y);
    FirstMinExists(vs, Y);
    FirstMinExists(vs, X);
    FirstMaxExists(vs, X);
    var n: nat :| IsFirstMax(vs, n, Y);
    var s: nat :| IsFirstMin(vs, s, Y);
    var w: nat :| IsFirstMin(vs, w, X);
    var e: nat :| IsFirstMax(vs, e, X);
    assert IsExtremes(vs, Extremes(n, s, w, e));
  }

  lemma {:induction false} FirstMaxExists(vs: Polyline, axis: Axis)
    requires vs != []
    ensures exists i :: IsFirstMax(vs, i, axis)
    decreases |vs|
  {
    var m := |vs| - 1;
    if m == 0 {
      assert IsFirstMax(vs, 0, axis);
    } else {
      var init := vs[..m];
      FirstMaxExists(init, axis);
      var i: nat :| IsFirstMax(init, i, axis);
      if Coord(vs[m], axis) > Coord(vs[i], axis) {
        assert IsFirstMax(vs, m, axis) by {
          forall j | 0 <= j < |vs| ensures Coord(vs[j], axis) <= Coord(vs[m], axis) {
            if j < m { assert vs[j] == init[j]; }
          }
          forall j | 0 <= j < m ensures Coord(vs[j], axis) < Coord(vs[m], axis) {
            assert vs[j] == init[j];
          }
        }
      } else {
        assert IsFirstMax(vs, i, axis) by {
          forall j | 0 <= j < |vs| ensures Coord(vs[j], axis) <= Coord(vs[i], axis) {
            if j < m { assert vs[j] == init[j]; }
          }
          forall j | 0 <= j < i ensures Coord(vs[j], axis) < Coord(vs[i], axis) {
            assert vs[j] == init[j];
          }
        }
      }
    }
  }

  lemma {:induction false} FirstMinExists(vs: Polyline, axis: Axis)
    requires vs != []
    ensures exists i :: IsFirstMin(vs, i, axis)
    decreases |vs|
  {
    var m := |vs| - 1;
    if m == 0 {
      assert IsFirstMin(vs, 0, axis);
    } else {
      var init := vs[..m];
      FirstMinExists(init, axis);
      var i: nat :| IsFirstMin(init, i, axis);
      if Coord(vs[m], axis) < Coord(vs[i], axis) {
        assert IsFirstMin(vs, m, axis) by {
          forall j | 0 <= j < |vs| ensures Coord(vs[m], axis) <= Coord(vs[j], axis) {
            if j < m { assert vs[j] == init[j]; }
          }
          forall j | 0 <= j < m ensures Coord(vs[m], axis) < Coord(vs[j], axis) {
            assert vs[j] == init[j];
          }
        }
      } else {
        assert IsFirstMin(vs, i, axis) by {
          forall j | 0 <= j < |vs| ensures Coord(vs[i], axis) <= Coord(vs[j], axis) {
            if j < m { assert vs[j] == init[j]; }
          }
          forall j | 0 <= j < i ensures Coord(vs[i], axis) < Coord(vs[j], axis) {
            assert vs[j] == init[j];
          }
        }
      }
    }
  }

  // ------------------------------------------------------- northernmost edge

  /** `(k, i)` names the edge from vertex `i` to vertex `i + 1` of ring `k`. */
  predicate IsEdge(rings: seq<Polyline>, k: int, i: int)
  {
    0 <= k < |rings| && 0 <= i && i + 1 < |rings[k]|
  }

  /** The y of the edge's midpoint (line 139). */
  function MidY(rings: seq<Polyline>, k: int, i: int): real
    requires IsEdge(rings, k, i)
  {
    (rings[k][i].y + rings[k][i + 1].y) / 2.0
  }

  /** The order in which the nested loops visit the edges. */
  predicate Precedes(k1: int, i1: int, k2: int, i2: int)
  {
    k1 < k2 || (k1 == k2 && i1 < i2)
  }

  ghost predicate HasEdge(rings: seq<Polyline>)
  {
    exists k :: 0 <= k < |rings| && |rings[k]| >= 2
  }

  datatype EdgeRef = EdgeRef(ring: nat, index: nat)

  /** `e` is the first visited edge whose midpoint lies furthest north. */
  ghost predicate IsNorthernmost(rings: seq<Polyline>, e: EdgeRef)
  {
    && IsEdge(rings, e.ring, e.index)
    && (forall k, i :: IsEdge(rings, k, i) ==> MidY(rings, k, i) <= MidY(rings, e.ring, e.index))
    && (forall k, i :: IsEdge(rings, k, i) && Precedes(k, i, e.ring, e.index) ==>
          MidY(rings, k, i) < MidY(rings, e.ring, e.index))
  }

  /** What the scan knows once it has visited every edge before `(k, i)`:
      `best` is the answer over those edges and `top` its midpoint y. */
  ghost predicate ScannedBefore(rings: seq<Polyline>, k: int, i: int, best: Option<EdgeRef>, top: real)
  {
    && (best.None? <==> forall k1, i1 :: IsEdge(rings, k1, i1) ==> !Precedes(k1, i1, k, i))
    && (best.Some? ==>
          && IsEdge(rings, best.value.ring, best.value.index)
          && Precedes(best.value.ring, best.value.index, k, i)
          && top == MidY(rings, best.value.ring, best.value.index)
          && (forall k1, i1 :: IsEdge(rings, k1, i1) && Precedes(k1, i1, k, i) ==> MidY(rings, k1, i1) <= top)
          && (forall k1, i1 :: IsEdge(rings, k1, i1) && Precedes(k1, i1, best.value.ring, best.value.index) ==>
                MidY(rings, k1, i1) < top))
  }

  /** The nested scan over the rings' consecutive vertex pairs (lines
      134-142). `maxNorte` starts at minus infinity, which `best == None`
      stands for; with no ring of two points the program fails unpacking
      `None` at line 144. */
  method FindNorthernEdge(rings: seq<Polyline>) returns (r: Result<EdgeRef>)
    ensures r.Err? <==> !HasEdge(rings)
    ensures r.Err? ==> r.error == NoEdge
    ensures r.Ok? ==> IsNorthernmost(rings, r.value)
  {
    var best: Option<EdgeRef> := None;
    var top := 0.0;
    var k := 0;
    while k < |rings|
      invariant 0 <= k <= |rings|
      invariant ScannedBefore(rings, k, 0, best, top)
    {
      var p := rings[k];
      var i := 0;
      while i < |p| - 1
        invariant 0 <= i && (|p| >= 1 ==> i <= |p| - 1)
        invariant ScannedBefore(rings, k, i, best, top)
      {
        assert IsEdge(rings, k, i);
        var midY := (p[i].y + p[i + 1].y) / 2.0;
        if best.None? || midY > top {
          top := midY;
          best := Some(EdgeRef(k, i));
        }
        i := i + 1;
      }
      k := k + 1;
    }
    if best.None? {
      assert !HasEdge(rings) by {
        forall k1 | 0 <= k1 < |rings| ensures |rings[k1]| < 2 {
          assert !IsEdge(rings, k1, 0);
        }
      }
      return Err(NoEdge);
    }
    assert IsEdge(rings, best.value.ring, best.value.index);
    r := Ok(best.value);
  }

  /** The scan's answer is determined by the rings. */
  lemma NorthernmostUnique(rings: seq<Polyline>, a: EdgeRef, b: EdgeRef)
    requires IsNorthernmost(rings, a) && IsNorthernmost(rings, b)
    ensures a == b
  {
  }

  /** Every polygon with an edge has a northernmost one, so the
      specification of the scan can always be met. */
  lemma {:induction false} NorthernmostExists(rings: seq<Polyline>)
    requires HasEdge(rings)
    ensures exists e :: IsNorthernmost(rings, e)
    decreases |rings|
  {
    var n := |rings| - 1;
    var init := rings[..n];
    var p := rings[n];
    assert forall k, i :: IsEdge(init, k, i) <==> IsEdge(rings, k, i) && k < n;
    assert forall k, i :: IsEdge(init, k, i) ==> MidY(init, k, i) == MidY(rings, k, i);
    if |p| >= 2 {
      var mids := seq(|p| - 1, (i: int) requires 0 <= i < |p| - 1 => Point(0.0, MidY(rings, n, i)));
      FirstMaxExists(mids, Y);
      var i: nat :| IsFirstMax(mids, i, Y);
      assert forall j :: 0 <= j < |p| - 1 ==> Coord(mids[j], Y) == MidY(rings, n, j);
      var last := EdgeRef(n, i);
      if HasEdge(init) {
        NorthernmostExists(init);
        var e :| IsNorthernmost(init, e);
        if MidY(rings, n, i) > MidY(rings, e.ring, e.index) {
          assert IsNorthernmost(rings, last);
        } else {
          assert IsNorthernmost(rings, e);
        }
      } else {
        assert IsNorthernmost(rings, last);
      }
    } else {
      var k :| 0 <= k < |rings| && |rings[k]| >= 2;
      assert init[k] == rings[k];
      NorthernmostExists(init);
      var e :| IsNorthernmost(init, e);
      assert IsNorthernmost(rings, e);
    }
  }

  // --------------------------------------------------- extension and count

  /** How far each end of the anchor line is extended (lines 179-180). When
      the line is already as long as the west-east extent, `estender` is
      never assigned and the program fails reading it at line 184. */
  function Extension(dWE: real, dLinha: real): (r: Result<real>)
    ensures r.Ok? <==> dWE > dLinha
    ensures r.Err? ==> r.error == ExtensionUnbound
    ensures r.Ok? ==> r.value > 0.0 && dLinha + 2.0 * r.value == dWE
  {
    if dWE > dLinha then Ok((dWE - dLinha) / 2.0) else Err(ExtensionUnbound)
  }

  /** Python's `int()` on a float: truncation toward zero. */
  function Trunc(q: real): (n: int)
    ensures q >= 0.0 ==> n >= 0 && n as real <= q < n as real + 1.0
    ensures q < 0.0 ==> n <= 0 && n as real - 1.0 < q <= n as real
  {
    if q >= 0.0 then q.Floor else -((-q).Floor)
  }

  /** `n = int(dNS / deltaLat) * -1` (line 198); a zero spacing divides by
      zero. */
  function LineCount(dNS: real, deltaLat: real): (r: Result<int>)
    ensures r.Ok? <==> deltaLat != 0.0
    ensures r.Err? ==> r.error == ZeroDivision
  {
    if deltaLat == 0.0 then Err(ZeroDivision) else Ok(Trunc(dNS / deltaLat) * -1)
  }

  /** With the north-to-south (negative) spacing and a non-negative extent,
      the count is the number of whole spacings that fit in the extent. */
  lemma LineCountFloor(dNS: real, deltaLat: real)
    requires deltaLat < 0.0 && dNS >= 0.0
    ensures LineCount(dNS, deltaLat).Ok?
    ensures LineCount(dNS, deltaLat).value >= 0
    ensures LineCount(dNS, deltaLat).value == (dNS / -deltaLat).Floor
    ensures LineCount(dNS, deltaLat).value as real * (-deltaLat) <= dNS
    ensures dNS < (LineCount(dNS, deltaLat).value as real + 1.0) * (-deltaLat)
  {
    var q := dNS / deltaLat;
    var s := -deltaLat;
    assert q == -(dNS / s);
    assert q <= 0.0;
    var n := LineCount(dNS, deltaLat).value;
    assert n == (dNS / s).Floor;
    var m := dNS / s;
    var k := n as real + 1.0;
    assert m * s == dNS;
    assert n as real <= m < k;
    assert n as real * s <= m * s;
    assert m * s < k * s;
    assert k * s == k * (-deltaLat);
    assert dNS < k * (-deltaLat);
    assert k == LineCount(dNS, deltaLat).value as real + 1.0;
  }
}
