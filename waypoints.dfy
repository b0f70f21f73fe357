/** Photo waypoints along the flight line: every feature of the flight-line
    layer is walked from offset 0 in steps of the frontal spacing while the
    offset is below the feature's length, and each visited offset becomes a
    numbered point. The layer has one feature, the combined geometry, whose
    `length` and `interpolate` (host parameters) span all its parts. */
module Waypoints {
  import opened Geometry

  /** One point feature: its `id`, `latitude` and `longitude` attributes. */
  datatype Waypoint = Waypoint(id: int, latitude: real, longitude: real)

  /** The attributes of the point interpolated at an offset (lines 344-346). */
  function WaypointAt(id: int, p: Point): Waypoint
  {
    Waypoint(id, p.y, p.x)
  }

  /** The offset of the `j`-th point of a feature: `x` after `j` steps. */
  function Offset(j: int, d: real): real
  {
    j as real * d
  }

  function Ceil(q: real): int
  {
    -((-q).Floor)
  }

  /** How many offsets `0, d, 2d, ...` lie below `len`: `ceil(len / d)` for a
      positive length, none otherwise. */
  function SampleCount(len: real, d: real): nat
    requires len > 0.0 ==> d > 0.0
  {
    if len <= 0.0 then 0
    else
      assert len / d > 0.0;
      Ceil(len / d)
  }

  /** Offset `j * d` is visited exactly when it is below the length. */
  lemma SampleCountExact(len: real, d: real, j: nat)
    requires d > 0.0
    ensures j < SampleCount(len, d) <==> Offset(j, d) < len
  {
    if len > 0.0 {
      var q := len / d;
      var c := SampleCount(len, d);
      assert q * d == len;
      assert c as real - 1.0 < q <= c as real;
      if j < c {
        assert j as real <= c as real - 1.0;
        assert j as real * d < q * d;
      } else {
        assert q <= j as real;
        assert q * d <= j as real * d;
      }
    } else {
      assert j as real * d >= 0.0;
    }
  }

  /** The `while x < distVoo` loop ends on every feature: the spacing is
      positive, or no feature has a positive length. */
  predicate Terminates<G>(features: seq<G>, length: G -> real, d: real)
  {
    d > 0.0 || forall k :: 0 <= k < |features| ==> length(features[k]) <= 0.0
  }

  /** The points of one feature, numbered from `start`: point `j` is at offset
      `j * d`. */
  function FeatureWaypoints<G>(g: G, len: real, d: real, interpolate: (G, real) -> Point, start: nat): seq<Waypoint>
    requires len > 0.0 ==> d > 0.0
  {
    seq(SampleCount(len, d), (j: int) => WaypointAt(start + j, interpolate(g, Offset(j, d))))
  }

  lemma FeatureAt<G>(g: G, len: real, d: real, interpolate: (G, real) -> Point, start: nat, j: nat)
    requires len > 0.0 ==> d > 0.0
    requires j < |FeatureWaypoints(g, len, d, interpolate, start)|
    ensures FeatureWaypoints(g, len, d, interpolate, start)[j] == WaypointAt(start + j, interpolate(g, Offset(j, d)))
  {
  }

  /** The points of all features in layer order, each feature numbered on from the
      points before it. */
  function AllWaypoints<G>(features: seq<G>, length: G -> real, interpolate: (G, real) -> Point, d: real): seq<Waypoint>
    requires Terminates(features, length, d)
    decreases |features|
  {
    if features == [] then []
    else
      var prev := AllWaypoints(features[..|features| - 1], length, interpolate, d);
      var last := features[|features| - 1];
      prev + FeatureWaypoints(last, length(last), d, interpolate, |prev|)
  }

  /** `pontoID` runs 0, 1, 2, ... over all features with neither gap nor repeat. */
  lemma {:induction false} IdsGapless<G>(features: seq<G>, length: G -> real, interpolate: (G, real) -> Point, d: real)
    requires Terminates(features, length, d)
    ensures forall i :: 0 <= i < |AllWaypoints(features, length, interpolate, d)| ==>
      AllWaypoints(features, length, interpolate, d)[i].id == i
    decreases |features|
  {
    if features != [] {
      var init := features[..|features| - 1];
      var last := features[|features| - 1];
      IdsGapless(init, length, interpolate, d);
      var prev := AllWaypoints(init, length, interpolate, d);
      var points := FeatureWaypoints(last, length(last), d, interpolate, |prev|);
      var all := AllWaypoints(features, length, interpolate, d);
      assert all == prev + points;
      forall i | 0 <= i < |all| ensures all[i].id == i {
        if i >= |prev| {
          assert all[i] == points[i - |prev|];
          FeatureAt(last, length(last), d, interpolate, |prev|, i - |prev|);
        } else {
          assert all[i] == prev[i];
          assert prev[i].id == i;
        }
      }
    }
  }

  /** Every point of a feature lies at a whole multiple of the spacing below
      the feature's length, and the next multiple would not. */
  lemma FeatureOffsets<G>(g: G, len: real, d: real, interpolate: (G, real) -> Point, start: nat)
    requires d > 0.0
    ensures var ws := FeatureWaypoints(g, len, d, interpolate, start);
      && (forall j :: 0 <= j < |ws| ==>
            && Offset(j, d) < len
            && ws[j] == WaypointAt(start + j, interpolate(g, Offset(j, d))))
      && Offset(|ws|, d) >= len
  {
    var ws := FeatureWaypoints(g, len, d, interpolate, start);
    forall j | 0 <= j < |ws|
      ensures Offset(j, d) < len && ws[j] == WaypointAt(start + j, interpolate(g, Offset(j, d)))
    {
      SampleCountExact(len, d, j);
    }
    SampleCountExact(len, d, |ws|);
  }

  /** Lines 331-353. On a feature of positive length with a spacing that is not
      positive, `x` never reaches the length and the program loops for ever;
      the model stops there with `Diverges`. */
  method SampleWaypoints<G>(features: seq<G>, length: G -> real, interpolate: (G, real) -> Point, deltaFront: real)
    returns (r: Result<seq<Waypoint>>)
    ensures r.Ok? <==> Terminates(features, length, deltaFront)
    ensures r.Err? ==> r.error == Diverges
    ensures r.Ok? ==> r.value == AllWaypoints(features, length, interpolate, deltaFront)
  {
    var dados: seq<Waypoint> := [];
    var pontoID: nat := 0;
    var k := 0;
    while k < |features|
      invariant 0 <= k <= |features|
      invariant Terminates(features[..k], length, deltaFront)
      invariant dados == AllWaypoints(features[..k], length, interpolate, deltaFront)
      invariant pontoID == |dados|
    {
      var g := features[k];
      var distVoo := length(g);
      if distVoo > 0.0 && deltaFront <= 0.0 {
        return Err(Diverges);
      }
      ghost var before := dados;
      ghost var points := FeatureWaypoints(g, distVoo, deltaFront, interpolate, |before|);
      var x := 0.0;
      ghost var j: nat := 0;
      while x < distVoo
        invariant distVoo <= 0.0 ==> j == 0
        invariant x == Offset(j, deltaFront)
        invariant j <= |points|
        invariant dados == before + points[..j]
        invariant pontoID == |before| + j
        decreases |points| - j
      {
        SampleCountExact(distVoo, deltaFront, j);
        assert j < |points|;
        var ponto := interpolate(g, x);
        assert points[j] == WaypointAt(pontoID, ponto);
        assert points[..j + 1] == points[..j] + [WaypointAt(pontoID, ponto)];
        dados := dados + [WaypointAt(pontoID, ponto)];
        pontoID := pontoID + 1;
        x := x + deltaFront;
        j := j + 1;
      }
      if distVoo > 0.0 {
        SampleCountExact(distVoo, deltaFront, j);
      }
      assert points[..j] == points;
      assert features[..k + 1][..k] == features[..k];
      k := k + 1;
    }
    assert features[..k] == features;
    r := Ok(dados);
  }
}
