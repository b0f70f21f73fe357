/** The overlap arithmetic of the flight planner: from the camera's focal
    length, one sensor dimension, the flight altitude and the wanted overlap
    fraction it derives the ground distance between two flight lines
    (lateral) or between two photographs on one line (frontal). */
module Overlap {
  import opened Geometry

  /** Ground footprint of one sensor dimension: `dim * H / f`. */
  function Footprint(dim: real, h: real, f: real): real
    requires f != 0.0
  {
    dim * h / f
  }

  /** The intermediate height `h1 = SD / (2 tan(alpha/2))` is just `perc * H`. */
  lemma OverlapHeight(dim: real, h: real, f: real, perc: real)
    requires f != 0.0 && dim != 0.0
    ensures (perc * Footprint(dim, h, f)) / (2.0 * (dim / (2.0 * f))) == perc * h
  {
  }

  /** `D (1 - perc)` written through `h1`: `SD (H / h1 - 1) == D - SD`. */
  lemma SpacingSimplifies(d: real, h: real, perc: real)
    requires perc != 0.0 && h != 0.0
    ensures (perc * d) * (h / (perc * h) - 1.0) == d * (1.0 - perc)
  {
  }

  /** One spacing computed the way the program does it (the lateral block and
      the frontal block are the same five assignments); it fails on the first
      division by zero Python would raise. */
  function RawSpacing(dim: real, h: real, f: real, perc: real): (r: Result<real>)
    ensures r.Ok? <==> f != 0.0 && dim != 0.0 && perc != 0.0 && h != 0.0
    ensures r.Err? ==> r.error == ZeroDivision
    ensures r.Ok? ==> r.value == Footprint(dim, h, f) * (1.0 - perc)
  {
    if f == 0.0 then Err(ZeroDivision)
    else
      var tgHalf := dim / (2.0 * f);
      var footprint := dim * h / f;
      var overlapDistance := perc * footprint;
      if 2.0 * tgHalf == 0.0 then
        assert dim == tgHalf * (2.0 * f);
        Err(ZeroDivision)
      else
        var h1 := overlapDistance / (2.0 * tgHalf);
        OverlapHeight(dim, h, f, perc);
        if h1 == 0.0 then Err(ZeroDivision)
        else
          SpacingSimplifies(footprint, h, perc);
          Ok(overlapDistance * (h / h1 - 1.0))
  }

  /** The lateral spacing: the raw value, negated when positive so that the
      flight lines are laid out from north to south. */
  function LateralSpacing(dc: real, h: real, f: real, percL: real): (r: Result<real>)
    ensures r.Ok? <==> f != 0.0 && dc != 0.0 && percL != 0.0 && h != 0.0
    ensures r.Err? ==> r.error == ZeroDivision
    ensures r.Ok? ==> r.value <= 0.0
    ensures r.Ok? ==> r.value == -Abs(Footprint(dc, h, f) * (1.0 - percL))
  {
    match RawSpacing(dc, h, f, percL)
    case Err(e) => Err(e)
    case Ok(delta) => if delta > 0.0 then Ok(delta * -1.0) else Ok(delta)
  }

  /** The frontal spacing (lines 71-75) is the raw value, never re-signed:
      at an overlap of one or more it is not positive. */
  function FrontalSpacing(dl: real, h: real, f: real, percF: real): (r: Result<real>)
    ensures r.Ok? <==> f != 0.0 && dl != 0.0 && percF != 0.0 && h != 0.0
    ensures r.Err? ==> r.error == ZeroDivision
    ensures r.Ok? ==> r.value == Footprint(dl, h, f) * (1.0 - percF)
  {
    RawSpacing(dl, h, f, percF)
  }

  /** With a positive sensor, altitude and focal length, the frontal spacing
      is positive exactly when the overlap is below one; the parameter dialog
      puts no upper bound on `percF`, so a zero or negative spacing is
      reachable. */
  lemma FrontalPositiveIff(dl: real, h: real, f: real, percF: real)
    requires dl > 0.0 && h > 0.0 && f > 0.0 && percF > 0.0
    ensures FrontalSpacing(dl, h, f, percF).Ok?
    ensures FrontalSpacing(dl, h, f, percF).value > 0.0 <==> percF < 1.0
  {
    assert dl * h > 0.0;
    assert Footprint(dl, h, f) > 0.0;
  }

  /** With positive inputs the lateral spacing is strictly negative unless the
      overlap is exactly one, where it is zero. */
  lemma LateralNegativeIff(dc: real, h: real, f: real, percL: real)
    requires dc > 0.0 && h > 0.0 && f > 0.0 && percL > 0.0
    ensures LateralSpacing(dc, h, f, percL).Ok?
    ensures LateralSpacing(dc, h, f, percL).value < 0.0 <==> percL != 1.0
  {
  }

  datatype Spacings = Spacings(lateral: real, frontal: real)

  /** Both spacings, lateral first (lines 61-75); the first division by zero
      ends the computation. */
  function ComputeSpacings(dc: real, dl: real, h: real, f: real, percL: real, percF: real): (r: Result<Spacings>)
    ensures r.Ok? <==> f != 0.0 && h != 0.0 && dc != 0.0 && dl != 0.0 && percL != 0.0 && percF != 0.0
    ensures r.Err? ==> r.error == ZeroDivision
    ensures r.Ok? ==> r.value.lateral <= 0.0
    ensures r.Ok? ==> r.value.lateral == -Abs(Footprint(dc, h, f) * (1.0 - percL))
    ensures r.Ok? ==> r.value.frontal == Footprint(dl, h, f) * (1.0 - percF)
  {
    match LateralSpacing(dc, h, f, percL)
    case Err(e) => Err(e)
    case Ok(lateral) =>
      match FrontalSpacing(dl, h, f, percF)
      case Err(e) => Err(e)
      case Ok(frontal) => Ok(Spacings(lateral, frontal))
  }
}
