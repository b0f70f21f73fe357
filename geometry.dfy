/** Values shared by every stage of the flight planner: planar points, the
    polylines the host geometry engine hands back, and the ways one run of
    the planner can end without a result. */
module Geometry {

  /** A planar vertex; `x` is the longitude axis and `y` the latitude axis. */
  datatype Point = Point(x: real, y: real)

  /** The vertices of a line feature, in order. */
  type Polyline = seq<Point>

  datatype Option<T> = None | Some(value: T)

  /** Each case stands for the exception (or the endless loop) that ends a
      run of the planner in the program; `NoFlightLine` is where the model
      stops although the program goes on with a feature without geometry. */
  datatype Failure =
    | ZeroDivision      // a float division by zero
    | NoVertices        // the terrain polygon has no vertex: `None.y()`
    | NoEdge            // no ring has two points: unpacking `None`
    | ExtensionUnbound  // `estender` is read although it was never assigned
    | ShortOffsetLine   // an offset line has fewer than two vertices: `p[1]`
    | NoFlightLine      // the stitched layer has no feature to combine
    | Diverges          // the waypoint loop never reaches the feature's length

  datatype Result<T> = Ok(value: T) | Err(error: Failure) {
    predicate IsFailure() {
      Err?
    }

    function PropagateFailure<U>(): Result<U>
      requires Err?
    {
      Err(error)
    }

    function Extract(): T
      requires Ok?
    {
      value
    }
  }

  function Abs(r: real): (a: real)
    ensures a >= 0.0 && (a == r || a == -r)
  {
    if r < 0.0 then -r else r
  }
}
