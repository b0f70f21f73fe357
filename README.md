# Drone flight plan: survey lines and photo waypoints

This project models the flight-planning algorithm of the topoGeoone
processing plugin (`PlanoVooAlgorithm.processAlgorithm` in
`algoritmos/Plano_de_Voo.py`) and proves properties of the model in Dafny.
The algorithm runs in the following order:

1. **Overlap spacing.** The camera's focal length `f`, a sensor dimension,
   the altitude `H` and an overlap fraction give the distance between
   flight lines (lateral) and the distance between photographs (frontal).
   The intermediate height `h1` is just `perc·H`, so each spacing is
   `(dim·H/f)·(1 − perc)`. The lateral spacing is negated when it is
   positive, so that the lines run from north to south.
2. **Terrain measures.** One pass over the polygon's vertices finds the
   northern, southern, western and eastern vertex. The strict comparisons
   keep the first vertex in a tie. These give the north-south extent `dNS`
   and the west-east extent `dWE`.
3. **Anchor line.** A nested scan over each ring's consecutive vertex pairs
   finds the edge whose midpoint lies furthest north, again keeping the
   first in a tie. When `dWE` exceeds that edge's length `dLinha`, each end
   is extended by `(dWE − dLinha)/2`. The number of offset lines is
   `n = −int(dNS / deltaLat)`, where `int` truncates toward zero.
4. **Stitching.** The engine returns the offset lines. The planner keeps the
   first two vertices of each line and sorts these pairs by the first
   endpoint's latitude, descending. Python's sort is stable. It picks the
   second endpoint on even positions and the first on odd ones. It then
   appends a connector from each line to the next, which gives a
   back-and-forth (boustrophedon) path. All features of the layer are
   folded into one geometry with `combine`.
5. **Waypoints.** Each feature of the flight-line layer is walked at
   offsets `0, d, 2d, …` while the offset is below the feature's length.
   That layer holds one feature, the combined geometry, whose `length` and
   `interpolate` span all its parts. Each offset becomes a point numbered by
   a global counter `pontoID`, with `latitude = y` and `longitude = x`.

The model uses `real` coordinates. The host geometry engine is passed in as
functions in `FlightPlan.Engine`: point distance, `native:extendlines`,
`native:arrayoffsetlines`, building a line geometry, `combine`, `length` and
`interpolate`. A feature layer is a sequence of polylines, and adding a
feature appends to it. Wherever the program raises an exception, the model
returns a `Failure` value (`Geometry.Failure`). The failures are:

- a float division by zero;
- a polygon with no vertex;
- no ring with two points, so `limiteMaisNorte` stays `None`;
- `estender` never assigned because `dWE <= dLinha`;
- an offset line with fewer than two vertices.

When the line layer is empty, `geomTotal` stays `None` and the program goes
on with a flight-line feature that has no geometry (lines 286-298). The model
stops there with `NoFlightLine`.

The waypoint loop never ends when a feature has positive length and the frontal
spacing is not positive. The model returns `Diverges` there instead of
looping. The parameter dialog accepts any `percF >= 0.60`, so this is
reachable at `percF >= 1` (`FlightPlan.FullFrontalOverlapStalls`).

The model follows the code, also where its behaviour is unexpected:

- The code rejects no overlap fraction of 1 or more, no polygon with fewer
  than three vertices and no spacing that is not positive.
- The line count uses `int()`, which truncates toward zero. For the
  negative lateral spacing and a non-negative extent this is the floor of
  `dNS/|deltaLat|` (`Terrain.LineCountFloor`).
- A frontal spacing that is not positive makes the waypoint loop run
  forever on a flight line of positive length.
- How a run ends is fixed by its inputs: given the unique extremes and
  anchor edge, `FlightPlan.RunFailure` names the failure that is due, in
  the order the program meets them, or none, in which case the run ends
  with its waypoints (`FlightPlan.PlanFlight`).

Files: `geometry.dfy` (points, results), `overlap.dfy`, `terrain.dfy`,
`stitching.dfy`, `waypoints.dfy`, `flightplan.dfy` (the whole run).

## Model

| member | source | states |
|---|---|---|
| Overlap.OverlapHeight | algoritmos/Plano_de_Voo.py:61-64 | `h1 = SD / (2·tan(α/2))` equals `perc·H` whenever `f` and the sensor dimension are non-zero |
| Overlap.SpacingSimplifies | algoritmos/Plano_de_Voo.py:65 | `SD·(H/h1 − 1)` with `h1 = perc·H` equals `D·(1 − perc)` |
| Overlap.RawSpacing | algoritmos/Plano_de_Voo.py:61-75 | one spacing block succeeds exactly when `f`, the sensor dimension, `perc` and `H` are all non-zero (else division by zero), and then equals `(dim·H/f)·(1 − perc)` |
| Overlap.FrontalSpacing | algoritmos/Plano_de_Voo.py:71-75 | the frontal spacing exists exactly when `f`, `dl`, `percF` and `H` are non-zero (else division by zero) and is `(dl·H/f)·(1 − percF)`, not re-signed |
| Overlap.LateralSpacing | algoritmos/Plano_de_Voo.py:61-68 | the lateral spacing is never positive and equals `−|(dc·H/f)·(1 − percL)|`; it fails exactly on a zero divisor |
| Overlap.FrontalPositiveIff | algoritmos/Plano_de_Voo.py:71-75 | with positive sensor, altitude, focal length and overlap, the frontal spacing exists and is positive exactly when `percF < 1` |
| Overlap.LateralNegativeIff | algoritmos/Plano_de_Voo.py:61-68 | with positive inputs the lateral spacing is strictly negative exactly when `percL ≠ 1` |
| Overlap.ComputeSpacings | algoritmos/Plano_de_Voo.py:61-75 | both spacings exist exactly when no divisor is zero; the lateral one is `≤ 0` and `−|D_lat·(1 − percL)|`, and the frontal one is `D_front·(1 − percF)` with no change of sign |
| Terrain.FindExtremes | algoritmos/Plano_de_Voo.py:95-103 | fails exactly on an empty vertex sequence; otherwise north/south are the first vertices of maximal/minimal y and west/east the first of minimal/maximal x |
| Terrain.NorthSouth | algoritmos/Plano_de_Voo.py:105-115 | `dNS ≥ 0`, no two vertices differ in y by more than `dNS`, and some two differ by exactly `dNS` |
| Terrain.WestEast | algoritmos/Plano_de_Voo.py:107-116 | `dWE ≥ 0`, no two vertices differ in x by more than `dWE`, and some two differ by exactly `dWE` |
| Terrain.ExtremesUnique | algoritmos/Plano_de_Voo.py:95-103 | the tie rule makes the four extremes a function of the vertex sequence |
| Terrain.ExtremesExist | algoritmos/Plano_de_Voo.py:95-103 | every non-empty vertex sequence has extremes meeting that definition |
| Terrain.FindNorthernEdge | algoritmos/Plano_de_Voo.py:134-144 | fails exactly when no ring has two points; otherwise returns a consecutive pair of some ring whose midpoint y is ≥ every pair's and > that of every pair visited before it |
| Terrain.NorthernmostExists | algoritmos/Plano_de_Voo.py:134-142 | every polygon with a ring of two points has a northernmost-and-first edge |
| Terrain.NorthernmostUnique | algoritmos/Plano_de_Voo.py:134-142 | at most one edge meets the northernmost-and-first condition |
| Terrain.Extension | algoritmos/Plano_de_Voo.py:179-185 | defined exactly when `dWE > dLinha`, and then positive with `dLinha + 2·estender = dWE`; otherwise the unassigned-variable failure |
| Terrain.Trunc | algoritmos/Plano_de_Voo.py:198 | Python's `int()` truncates toward zero: the result is `≥ 0` for `q ≥ 0` and `≤ 0` for `q < 0`, and lies within one of `q`, on the zero side |
| Terrain.LineCount | algoritmos/Plano_de_Voo.py:198 | `n = −int(dNS/deltaLat)` is defined exactly when `deltaLat ≠ 0` |
| Terrain.LineCountFloor | algoritmos/Plano_de_Voo.py:198 | for `deltaLat < 0` and `dNS ≥ 0`, `n ≥ 0`, `n = floor(dNS/|deltaLat|)` and `n·|deltaLat| ≤ dNS < (n+1)·|deltaLat|` |
| Stitching.CollectPairs | algoritmos/Plano_de_Voo.py:222-228 | fails exactly when some offset line has fewer than two vertices; otherwise pair `i` is the first two vertices of line `i`, for every line |
| Stitching.SortNorthToSouth | algoritmos/Plano_de_Voo.py:232 | the sorted pairs are a permutation (same multiset) of the pairs read, as many, with non-increasing first-endpoint latitude |
| Stitching.SortStable | algoritmos/Plano_de_Voo.py:232 | for every latitude value, the pairs with that key appear in the sorted output in their input order |
| Stitching.StableOrderUnique | algoritmos/Plano_de_Voo.py:232 | two north-to-south sequences with the same subsequence for every key are equal |
| Stitching.SortIsTheStableOrder | algoritmos/Plano_de_Voo.py:232 | any north-to-south sequence that keeps every key's subsequence of the input is exactly the sort's result |
| Stitching.ChooseEndpoints | algoritmos/Plano_de_Voo.py:238-252 | one point per sorted pair: its second endpoint at even positions and its first at odd ones |
| Stitching.AppendConnectors | algoritmos/Plano_de_Voo.py:257-278 | the layer afterwards is the old features unchanged followed by the connectors; connector `i` joins `pontos[i]` to endpoint `k` of pair `i+1` (k = 1 for even `i`, 0 for odd), and the loop stops when pair `i+1` is missing |
| Stitching.ConnectorsJoinLines | algoritmos/Plano_de_Voo.py:238-275 | with the endpoints chosen as the program chooses them there are `max(0, len−1)` connectors, and connector `i` runs from where the back-and-forth path leaves line `i` to where it enters line `i+1` |
| Stitching.CombineFeatures | algoritmos/Plano_de_Voo.py:286-294 | no geometry exactly when the layer is empty; otherwise the left fold of `combine` over the features in layer order |
| Waypoints.SampleCountExact | algoritmos/Plano_de_Voo.py:338-353 | for `d > 0`, offset `j·d` is visited exactly when `j < ceil(L/d)` (none when `L ≤ 0`), i.e. exactly when `j·d < L` |
| Waypoints.FeatureOffsets | algoritmos/Plano_de_Voo.py:336-353 | each point of a feature sits at offset `j·d < L`, carries `latitude = y`, `longitude = x` of the interpolated point and id `start + j`; the first offset not visited is `≥ L` |
| Waypoints.IdsGapless | algoritmos/Plano_de_Voo.py:332-352 | over all features the ids are `0, 1, 2, …`: the point at position `i` has id `i` |
| Waypoints.SampleWaypoints | algoritmos/Plano_de_Voo.py:331-353 | ends with points exactly when the spacing is positive or no feature has positive length (otherwise the loop diverges); the points are those of every feature in order, numbered on from the ones before |
| FlightPlan.FindAnchor | algoritmos/Plano_de_Voo.py:95-185 | no vertices or no edge fail as in the program; for the (unique) extremes and northernmost edge the result is the anchor built from them, with `dLinha + 2·estender = dWE`, exactly when `dWE > dLinha`, and the unassigned-`estender` failure otherwise |
| FlightPlan.UniqueAnchorInputs | algoritmos/Plano_de_Voo.py:95-144 | the extremes and the edge the scans find are the only ones that meet their definitions |
| FlightPlan.StitchLines | algoritmos/Plano_de_Voo.py:220-278 | fails exactly on a short offset line; otherwise the sorted pairs are north-to-south, as many as the lines, and the layer is the lines followed by one connector fewer than there are lines |
| FlightPlan.FlyFromAnchor | algoritmos/Plano_de_Voo.py:182-353 | from an anchor, a zero lateral spacing, a short offset line, an empty layer and a non-terminating waypoint loop fail in that order, and otherwise the run ends with the stitched layer, its combined geometry and the waypoints along it |
| FlightPlan.PlanFlight | algoritmos/Plano_de_Voo.py:44-353 | a zero divisor in the spacings, an empty polygon or a polygon without edge fail as in the program; for any polygon with extremes and an anchor edge the run fails exactly with the failure `RunFailure` names and otherwise succeeds; a finished run ties every stage's result to the previous ones and numbers the waypoints `0, 1, 2, …` |
| FlightPlan.NoFlightLineIff | algoritmos/Plano_de_Voo.py:286-298 | the stitched layer yields no flight line exactly when the offset engine returns no line |
| FlightPlan.FullFrontalOverlapStalls | algoritmos/Plano_de_Voo.py:339-353 | at a frontal overlap of one or more (which the dialog allows) and positive sensor, altitude and focal length, the waypoint loop on a line of positive length does not end |
| FlightPlan.FullLateralOverlapFails | algoritmos/Plano_de_Voo.py:198 | at a lateral overlap of exactly one (which the dialog allows) and positive inputs, a run whose anchor exists stops on the division by the zero lateral spacing |

## Left out

- Host geometry: point distance (a square root), `native:extendlines`, `native:arrayoffsetlines`, building a line geometry, `combine`, `length` and `interpolate` (algoritmos/Plano_de_Voo.py:154, 189, 209, 274, 294, 336, 340) are parameters of the model, not implementations.
- Floating point: all arithmetic is exact over `real`. The offset `x` of the waypoint loop is exactly `j·d`, and rounding in the repeated addition is not modelled.
- Layers, data providers, fields and edit sessions (`startEditing`/`commitChanges`) are modelled only as sequences that features are appended to. The coordinate reference system is not modelled (the flight-line layer at line 300 receives the literal text `crs`).
- Symbology, labelling, `print` calls, the parameter dialog (lines 23-42), and `name`, `icon`, `shortHelpString` and the other metadata methods are UI.
- Cancellation checks (`feedback.isCanceled()`) are not modelled. Each one would end the run with no result.
- The input layer: the model takes the polygon's rings directly. Reading the first feature with `next(...)` (an empty layer raises) is not modelled. The vertex sequence is the rings' vertices in order. A multi-polygon is not modelled.
- The waypoint point geometry is not kept separately, because it is the point `(longitude, latitude)` of its attributes.
- An empty stitched layer ends the run with `NoFlightLine`. What the host does with a feature whose geometry is `None` is not modelled.
- Dead code: the unused `extender` (line 158) and the `p1, p2 = p[0], p[1]` at line 247, which reads the coordinates of a point and has no effect.
- Waypoints.SampleWaypoints: returns `Diverges` instead of looping forever when the frontal spacing is not positive and a feature has positive length.
- `algoritmos/Angulos_Internos.py`, `algoritmos/Divide_Lote_Buffer.py`, `topoGeoone.py` and `topoGeoone_provider.py` are not part of this model: they hold other processing algorithms and the plugin registration.
