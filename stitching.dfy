/** Stitching the parallel offset lines into one back-and-forth flight path:
    the two endpoints of every line are read, the lines are sorted from north
    to south, one endpoint of every line is chosen in alternation and a
    connector is added from each line to the next. The line layer is a
    sequence of polylines; adding a feature appends to it. */
module Stitching {
  import opened Geometry

  /** The pair `[p[0], p[1]]` the program keeps of each offset line. */
  datatype Segment = Segment(first: Point, second: Point)

  /** `pair[k]` for `k` in {0, 1}. */
  function Endpoint(s: Segment, k: nat): Point
  {
    if k == 0 then s.first else s.second
  }

  // ------------------------------------------------------------ reading pairs

  /** Lines 222-228: the first two vertices of every offset line. A line with
      fewer than two vertices makes `p[1]` raise. */
  method CollectPairs(lines: seq<Polyline>) returns (r: Result<seq<Segment>>)
    ensures r.Ok? <==> forall i :: 0 <= i < |lines| ==> |lines[i]| >= 2
    ensures r.Err? ==> r.error == ShortOffsetLine
    ensures r.Ok? ==> |r.value| == |lines|
    ensures r.Ok? ==> forall i :: 0 <= i < |lines| ==> r.value[i] == Segment(lines[i][0], lines[i][1])
  {
    var pairs: seq<Segment> := [];
    var i := 0;
    while i < |lines|
      invariant 0 <= i <= |lines|
      invariant forall j :: 0 <= j < i ==> |lines[j]| >= 2
      invariant |pairs| == i
      invariant forall j :: 0 <= j < i ==> pairs[j] == Segment(lines[j][0], lines[j][1])
    {
      var p := lines[i];
      if |p| < 2 {
        return Err(ShortOffsetLine);
      }
      pairs := pairs + [Segment(p[0], p[1])];
      i := i + 1;
    }
    r := Ok(pairs);
  }

  // ------------------------------------------------------------------ sorting

  /** The sort key: the latitude of the pair's first endpoint. */
  function Key(s: Segment): real
  {
    s.first.y
  }

  ghost predicate NorthToSouth(t: seq<Segment>)
  {
    forall i, j :: 0 <= i < j < |t| ==> Key(t[i]) >= Key(t[j])
  }

  /** The elements with key `v`, in their order. A sort is stable exactly
      when it leaves every such subsequence as it was. */
  function WithKey(s: seq<Segment>, v: real): seq<Segment>
  {
    if s == [] then []
    else (if Key(s[0]) == v then [s[0]] else []) + WithKey(s[1..], v)
  }

  /** Puts `x` in front of the first element whose key is not larger. */
  function Insert(x: Segment, t: seq<Segment>): seq<Segment>
  {
    if t == [] then [x]
    else if Key(x) >= Key(t[0]) then [x] + t
    else [t[0]] + Insert(x, t[1..])
  }

  /** `sorted(paresPontos, key=lambda s: s[0].y(), reverse=True)` (line
      232): a permutation of the pairs read, running from north to south by
      the first endpoint. Python's sort is stable also with `reverse=True`
      (`SortStable`, `SortIsTheStableOrder`). */
  function SortNorthToSouth(s: seq<Segment>): (r: seq<Segment>)
    ensures |r| == |s|
    ensures NorthToSouth(r)
    ensures multiset(r) == multiset(s)
  {
    if s == [] then []
    else
      var t := SortNorthToSouth(s[1..]);
      InsertOrdered(s[0], t);
      InsertPermutes(s[0], t);
      assert s == [s[0]] + s[1..];
      Insert(s[0], t)
  }

  lemma {:induction false} InsertPermutes(x: Segment, t: seq<Segment>)
    ensures multiset(Insert(x, t)) == multiset{x} + multiset(t)
  {
    if t != [] && Key(x) < Key(t[0]) {
      InsertPermutes(x, t[1..]);
      assert t == [t[0]] + t[1..];
    }
  }

  lemma {:induction false} InsertOrdered(x: Segment, t: seq<Segment>)
    requires NorthToSouth(t)
    ensures NorthToSouth(Insert(x, t))
    ensures |Insert(x, t)| == |t| + 1
    ensures forall i :: 0 <= i < |Insert(x, t)| ==> Insert(x, t)[i] == x || Insert(x, t)[i] in t
  {
    if t != [] && Key(x) < Key(t[0]) {
      InsertOrdered(x, t[1..]);
      var rest := Insert(x, t[1..]);
      forall i | 0 <= i < |rest| ensures Key(t[0]) >= Key(rest[i]) {
        if rest[i] != x {
          var m :| 0 <= m < |t[1..]| && t[1..][m] == rest[i];
          assert t[m + 1] == rest[i];
        }
      }
    }
  }

  lemma {:induction false} InsertStable(x: Segment, t: seq<Segment>, v: real)
    ensures WithKey(Insert(x, t), v) == WithKey([x], v) + WithKey(t, v)
  {
    assert WithKey([x], v) == (if Key(x) == v then [x] else []) + WithKey([], v);
    if t == [] {
    } else if Key(x) >= Key(t[0]) {
      assert ([x] + t)[1..] == t;
    } else {
      InsertStable(x, t[1..], v);
      assert ([t[0]] + Insert(x, t[1..]))[1..] == Insert(x, t[1..]);
    }
  }

  /** Pairs with equal keys keep the order in which they were read. */
  lemma {:induction false} SortStable(s: seq<Segment>, v: real)
    ensures WithKey(SortNorthToSouth(s), v) == WithKey(s, v)
  {
    if s != [] {
      SortStable(s[1..], v);
      InsertStable(s[0], SortNorthToSouth(s[1..]), v);
      assert WithKey([s[0]], v) == (if Key(s[0]) == v then [s[0]] else []) + WithKey([], v);
    }
  }

  /** In a north-to-south sequence no element is north of the first one. */
  lemma {:induction false} HeadIsNorthmost(t: seq<Segment>, v: real)
    requires NorthToSouth(t) && t != [] && v > Key(t[0])
    ensures WithKey(t, v) == []
    decreases |t|
  {
    if |t| > 1 {
      assert NorthToSouth(t[1..]);
      HeadIsNorthmost(t[1..], v);
    } else {
      assert t[1..] == [];
    }
  }

  lemma WithKeyOfHead(t: seq<Segment>)
    requires t != []
    ensures WithKey(t, Key(t[0])) == [t[0]] + WithKey(t[1..], Key(t[0]))
  {
  }

  /** Two north-to-south sequences with the same subsequence for every key
      start with the same element. */
  lemma HeadsAgree(t: seq<Segment>, u: seq<Segment>)
    requires NorthToSouth(t) && NorthToSouth(u) && t != [] && u != []
    requires WithKey(t, Key(t[0])) == WithKey(u, Key(t[0]))
    requires WithKey(t, Key(u[0])) == WithKey(u, Key(u[0]))
    ensures t[0] == u[0]
  {
    WithKeyOfHead(t);
    WithKeyOfHead(u);
    var vt, vu := Key(t[0]), Key(u[0]);
    assert vt >= vu by {
      if vu > vt {
        HeadIsNorthmost(t, vu);
      }
    }
    assert vu >= vt by {
      if vt > vu {
        HeadIsNorthmost(u, vt);
      }
    }
    assert WithKey(t, vt)[0] == t[0] && WithKey(u, vt)[0] == u[0];
  }

  lemma TailsAgree(t: seq<Segment>, u: seq<Segment>, w: real)
    requires t != [] && u != [] && t[0] == u[0]
    requires WithKey(t, w) == WithKey(u, w)
    ensures WithKey(t[1..], w) == WithKey(u[1..], w)
  {
    var head := if Key(t[0]) == w then [t[0]] else [];
    assert WithKey(t, w) == head + WithKey(t[1..], w);
    assert WithKey(u, w) == head + WithKey(u[1..], w);
    assert WithKey(t[1..], w) == WithKey(t, w)[|head|..];
    assert WithKey(u[1..], w) == WithKey(u, w)[|head|..];
  }

  /** Ordering and stability leave no freedom: two north-to-south sequences
      with the same subsequence for every key are equal. */
  lemma {:induction false} StableOrderUnique(t: seq<Segment>, u: seq<Segment>)
    requires NorthToSouth(t) && NorthToSouth(u)
    requires forall v :: WithKey(t, v) == WithKey(u, v)
    ensures t == u
    decreases |t|
  {
    if t != [] {
      WithKeyOfHead(t);
      assert WithKey(u, Key(t[0])) != [];
    }
    if u != [] {
      WithKeyOfHead(u);
      assert WithKey(t, Key(u[0])) != [];
    }
    if t != [] && u != [] {
      HeadsAgree(t, u);
      forall w ensures WithKey(t[1..], w) == WithKey(u[1..], w) {
        TailsAgree(t, u, w);
      }
      StableOrderUnique(t[1..], u[1..]);
      assert t == [t[0]] + t[1..];
      assert u == [u[0]] + u[1..];
    }
  }

  /** So the sort is the one stable north-to-south order of the pairs. */
  lemma SortIsTheStableOrder(s: seq<Segment>, t: seq<Segment>)
    requires NorthToSouth(t)
    requires forall v :: WithKey(t, v) == WithKey(s, v)
    ensures t == SortNorthToSouth(s)
  {
    forall v ensures WithKey(t, v) == WithKey(SortNorthToSouth(s), v) {
      SortStable(s, v);
    }
    StableOrderUnique(t, SortNorthToSouth(s));
  }

  // -------------------------------------------------------- choosing endpoints

  /** The endpoint index used at position `i`: 1 when `i` is even, else 0. */
  function Side(i: nat): nat
  {
    if i % 2 == 0 then 1 else 0
  }

  /** Lines 238-252: an explicit counter `i` picks `p[1]` on even and `p[0]`
      on odd positions. */
  method ChooseEndpoints(ordered: seq<Segment>) returns (pontos: seq<Point>)
    ensures |pontos| == |ordered|
    ensures forall i :: 0 <= i < |ordered| ==> pontos[i] == Endpoint(ordered[i], Side(i))
  {
    pontos := [];
    var i := 0;
    for n := 0 to |ordered|
      invariant i == n
      invariant |pontos| == n
      invariant forall j :: 0 <= j < n ==> pontos[j] == Endpoint(ordered[j], Side(j))
    {
      var pair := ordered[n];
      var p := if i % 2 == 0 then pair.second else pair.first;
      i := i + 1;
      pontos := pontos + [p];
    }
  }

  // ------------------------------------------------------------- connectors

  /** How many connectors the loop at line 259 adds before `pontosOrdenados[i + 1]`
      runs out or `pontos` ends. */
  function ConnectorCount(pontos: seq<Point>, ordered: seq<Segment>): nat
  {
    if |ordered| == 0 then 0
    else if |pontos| < |ordered| - 1 then |pontos|
    else |ordered| - 1
  }

  function Connector(pontos: seq<Point>, ordered: seq<Segment>, i: nat): Polyline
    requires i < ConnectorCount(pontos, ordered)
  {
    [pontos[i], Endpoint(ordered[i + 1], Side(i))]
  }

  function Connectors(pontos: seq<Point>, ordered: seq<Segment>): seq<Polyline>
  {
    seq(ConnectorCount(pontos, ordered), (i: int) requires 0 <= i < ConnectorCount(pontos, ordered) =>
      Connector(pontos, ordered, i))
  }

  /** Lines 257-278: one two-point line per position, from the chosen point
      to the same-index endpoint of the next line, appended to the layer; the
      `IndexError` on `pontosOrdenados[i + 1]` ends the loop. */
  method AppendConnectors(features: seq<Polyline>, pontos: seq<Point>, ordered: seq<Segment>)
    returns (layer: seq<Polyline>)
    ensures layer == features + Connectors(pontos, ordered)
    ensures layer[..|features|] == features
  {
    layer := features;
    var i := 0;
    while i < |pontos|
      invariant 0 <= i <= ConnectorCount(pontos, ordered)
      invariant |layer| == |features| + i
      invariant layer[..|features|] == features
      invariant forall j :: 0 <= j < i ==> layer[|features| + j] == Connector(pontos, ordered, j)
    {
      if i + 1 >= |ordered| {
        break;
      }
      var p2 := if i % 2 == 0 then ordered[i + 1].second else ordered[i + 1].first;
      layer := layer + [[pontos[i], p2]];
      i := i + 1;
    }
    assert i == ConnectorCount(pontos, ordered);
    assert layer == features + Connectors(pontos, ordered);
  }

  /** Position `i` of the sorted lines is entered at `Entry` and left at
      `Exit`: even lines run from their first to their second endpoint, odd
      lines back again. */
  function Entry(ordered: seq<Segment>, i: nat): Point
    requires i < |ordered|
  {
    if i % 2 == 0 then ordered[i].first else ordered[i].second
  }

  function Exit(ordered: seq<Segment>, i: nat): Point
    requires i < |ordered|
  {
    if i % 2 == 0 then ordered[i].second else ordered[i].first
  }

  /** With the endpoints chosen as the program chooses them, there is exactly
      one connector fewer than lines, and connector `i` leaves line `i` where
      the back-and-forth traversal leaves it and enters line `i + 1` where
      the traversal enters it. */
  lemma ConnectorsJoinLines(pontos: seq<Point>, ordered: seq<Segment>)
    requires |pontos| == |ordered|
    requires forall i :: 0 <= i < |ordered| ==> pontos[i] == Endpoint(ordered[i], Side(i))
    ensures |Connectors(pontos, ordered)| == if |ordered| == 0 then 0 else |ordered| - 1
    ensures forall i :: 0 <= i < |Connectors(pontos, ordered)| ==>
      Connectors(pontos, ordered)[i] == [Exit(ordered, i), Entry(ordered, i + 1)]
  {
  }

  // --------------------------------------------------------------- combining

  /** The left fold of `combine` over the layer's features (lines 286-294);
      `None` is the program's `geomTotal = None`. */
  function CombineAll<G>(features: seq<Polyline>, line: Polyline -> G, combine: (G, G) -> G): Option<G>
  {
    if features == [] then None
    else
      match CombineAll(features[..|features| - 1], line, combine)
      case None => Some(line(features[|features| - 1]))
      case Some(total) => Some(combine(total, line(features[|features| - 1])))
  }

  /** The loop at lines 289-294. */
  method CombineFeatures<G>(features: seq<Polyline>, line: Polyline -> G, combine: (G, G) -> G)
    returns (geomTotal: Option<G>)
    ensures geomTotal.None? <==> features == []
    ensures geomTotal == CombineAll(features, line, combine)
  {
    geomTotal := None;
    var i := 0;
    while i < |features|
      invariant 0 <= i <= |features|
      invariant geomTotal == CombineAll(features[..i], line, combine)
      invariant geomTotal.None? <==> i == 0
    {
      assert features[..i + 1][..i] == features[..i];
      var geom := line(features[i]);
      if geomTotal.None? {
        geomTotal := Some(geom);
      } else {
        geomTotal := Some(combine(geomTotal.value, geom));
      }
      i := i + 1;
    }
    assert features[..i] == features;
  }
}
