/**
 * The wind travel direction computed from eastward (u) and northward (v) velocity, as an angle
 * from due south: 0 due south, 90 due west, 180 due north, 270 due east. Three scripts carry the
 * same code: a zeros array is assigned through six boolean masks, one after another.
 */
module WindDirection {
  import opened Numerics
  import opened MerraData

  /** The six masks, in the order the scripts assign through them. */
  datatype Mask = Westward | Eastward | PureNorthward | PureSouthward | PureEastward | PureWestward

  predicate InMask(k: Mask, u: real, v: real)
  {
    match k
    case Eastward => u > 0.0 && v != 0.0
    case Westward => u < 0.0 && v != 0.0
    case PureNorthward => u == 0.0 && v > 0.0
    case PureSouthward => u == 0.0 && v < 0.0
    case PureEastward => u > 0.0 && v == 0.0
    case PureWestward => u < 0.0 && v == 0.0
  }

  /** The value assigned through mask k. */
  function MaskValue(m: MathLib, k: Mask, u: real, v: real): real
    requires InMask(k, u, v)
  {
    match k
    case Westward => 90.0 - Div(m, m.atan(v / u), m.pi) * 180.0
    case Eastward => 270.0 - Div(m, m.atan(v / u), m.pi) * 180.0
    case PureNorthward => 180.0
    case PureSouthward => 0.0
    case PureEastward => 270.0
    case PureWestward => 90.0
  }

  /** One masked assignment seen from one cell: the cell takes the mask's value where it is selected. */
  function Step(m: MathLib, k: Mask, u: real, v: real, x: real): real
  {
    if InMask(k, u, v) then MaskValue(m, k, u, v) else x
  }

  /**
   * Reference definition of the direction, by compass quadrant: calm air keeps the 0 the array
   * starts from, an axis-aligned wind takes its compass angle, any other wind is measured through
   * the arctangent of v / u on the side it blows to.
   */
  function Direction(m: MathLib, u: real, v: real): (d: real)
    ensures u == 0.0 ==> d == if v > 0.0 then 180.0 else 0.0
    ensures AtanBounded(m) ==> 0.0 <= d < 360.0
    ensures AtanBounded(m) && u > 0.0 ==> 180.0 < d < 360.0
    ensures AtanBounded(m) && u < 0.0 ==> 0.0 < d < 180.0
  {
    if u == 0.0 && v == 0.0 then 0.0
    else if v == 0.0 then (if u > 0.0 then 270.0 else 90.0)
    else if u == 0.0 then (if v > 0.0 then 180.0 else 0.0)
    else
      ArctanDegrees(m, v / u);
      (if u > 0.0 then 270.0 else 90.0) - Div(m, m.atan(v / u), m.pi) * 180.0
  }

  /** Under np.arctan's range, the arctangent in degrees lies strictly between -90 and 90. */
  lemma ArctanDegrees(m: MathLib, x: real)
    ensures AtanBounded(m) ==> -90.0 < Div(m, m.atan(x), m.pi) * 180.0 < 90.0
  {
    if AtanBounded(m) {
      var a, p := m.atan(x), m.pi;
      assert -p / 2.0 < a < p / 2.0;
      assert -0.5 < a / p < 0.5 by {
        assert a / p * p == a;
      }
    }
  }

  /**
   * The masks are pairwise disjoint and leave out exactly calm air, and the value assigned through
   * the one selecting a cell is the reference direction.
   */
  lemma MasksPartition(m: MathLib, u: real, v: real)
    ensures forall k1: Mask, k2: Mask :: InMask(k1, u, v) && InMask(k2, u, v) ==> k1 == k2
    ensures (exists k: Mask :: InMask(k, u, v)) <==> !(u == 0.0 && v == 0.0)
    ensures forall k: Mask :: InMask(k, u, v) ==> MaskValue(m, k, u, v) == Direction(m, u, v)
  {
    if u < 0.0 && v != 0.0 { assert InMask(Westward, u, v); }
    else if u > 0.0 && v != 0.0 { assert InMask(Eastward, u, v); }
    else if u == 0.0 && v > 0.0 { assert InMask(PureNorthward, u, v); }
    else if u == 0.0 && v < 0.0 { assert InMask(PureSouthward, u, v); }
    else if u > 0.0 && v == 0.0 { assert InMask(PureEastward, u, v); }
    else if u < 0.0 && v == 0.0 { assert InMask(PureWestward, u, v); }
  }

  /** The six assignments in the scripts' order, starting from 0, leave every cell at its direction. */
  lemma SixAssignments(m: MathLib, u: real, v: real)
    ensures Step(m, PureWestward, u, v, Step(m, PureEastward, u, v, Step(m, PureSouthward, u, v,
              Step(m, PureNorthward, u, v, Step(m, Eastward, u, v, Step(m, Westward, u, v, 0.0))))))
            == Direction(m, u, v)
  {
    MasksPartition(m, u, v);
  }

  /** direction[mask] = value on a one-dimensional array: only the selected cells change. */
  method AssignMask(m: MathLib, direction: array<real>, u: seq<real>, v: seq<real>, k: Mask)
    requires direction.Length == |u| == |v|
    modifies direction
    ensures forall i :: 0 <= i < |u| ==> direction[i] == Step(m, k, u[i], v[i], old(direction[i]))
  {
    for i := 0 to |u|
      invariant forall j :: 0 <= j < i ==> direction[j] == Step(m, k, u[j], v[j], old(direction[j]))
      invariant forall j :: i <= j < |u| ==> direction[j] == old(direction[j])
    {
      if InMask(k, u[i], v[i]) {
        direction[i] := MaskValue(m, k, u[i], v[i]);
      }
    }
  }

  /** get_windDirection(u50m, v50m) of the per-cell drivers, on one cell's hourly series. */
  method GetWindDirection(m: MathLib, u: seq<real>, v: seq<real>) returns (direction: seq<real>)
    requires |u| == |v|
    ensures |direction| == |u|
    ensures forall i :: 0 <= i < |u| ==> direction[i] == Direction(m, u[i], v[i])
  {
    var a := new real[|u|](_ => 0.0);
    AssignMask(m, a, u, v, Westward);
    AssignMask(m, a, u, v, Eastward);
    AssignMask(m, a, u, v, PureNorthward);
    AssignMask(m, a, u, v, PureSouthward);
    AssignMask(m, a, u, v, PureEastward);
    AssignMask(m, a, u, v, PureWestward);
    forall i | 0 <= i < |u| ensures a[i] == Direction(m, u[i], v[i]) {
      SixAssignments(m, u[i], v[i]);
    }
    direction := a[..];
  }

  /** The direction series of one cell: what get_windDirection returns, stated as a value. */
  function DirectionSeries(m: MathLib, u: seq<real>, v: seq<real>): (d: seq<real>)
    requires |u| == |v|
    ensures |d| == |u| && forall i :: 0 <= i < |u| ==> d[i] == Direction(m, u[i], v[i])
  {
    seq(|u|, i requires 0 <= i < |u| => Direction(m, u[i], v[i]))
  }

  // ----- the same code on a whole (lat, lon, time) grid -----

  /** The cells of a three-dimensional array, read back as a value. */
  function Contents3(d: array3<real>): (x: Var3)
    reads d
    ensures HasShape(x, d.Length0, d.Length1, d.Length2)
  {
    Var3(d.Length0, d.Length1, d.Length2,
         seq(d.Length0, a requires 0 <= a < d.Length0 reads d =>
           seq(d.Length1, b requires 0 <= b < d.Length1 reads d =>
             seq(d.Length2, c requires 0 <= c < d.Length2 reads d => d[a, b, c]))))
  }

  predicate SameShape(u: Var3, v: Var3)
  {
    WellFormed(u) && WellFormed(v) && u.n0 == v.n0 && u.n1 == v.n1 && u.n2 == v.n2
  }

  /** direction[mask] = value on a (lat, lon, time) array: only the selected cells change. */
  method AssignMask3(m: MathLib, d: array3<real>, u: Var3, v: Var3, k: Mask)
    requires SameShape(u, v) && d.Length0 == u.n0 && d.Length1 == u.n1 && d.Length2 == u.n2
    modifies d
    ensures forall a, b, c :: 0 <= a < u.n0 && 0 <= b < u.n1 && 0 <= c < u.n2 ==>
              d[a, b, c] == Step(m, k, At(u, a, b, c), At(v, a, b, c), old(d[a, b, c]))
  {
    for i := 0 to u.n0
      invariant forall a, b, c :: 0 <= a < u.n0 && 0 <= b < u.n1 && 0 <= c < u.n2 ==>
                  d[a, b, c] == if a < i then Step(m, k, At(u, a, b, c), At(v, a, b, c), old(d[a, b, c]))
                                else old(d[a, b, c])
    {
      for j := 0 to u.n1
        invariant forall a, b, c :: 0 <= a < u.n0 && 0 <= b < u.n1 && 0 <= c < u.n2 ==>
                    d[a, b, c] == if a < i || (a == i && b < j)
                                  then Step(m, k, At(u, a, b, c), At(v, a, b, c), old(d[a, b, c]))
                                  else old(d[a, b, c])
      {
        for l := 0 to u.n2
          invariant forall a, b, c :: 0 <= a < u.n0 && 0 <= b < u.n1 && 0 <= c < u.n2 ==>
                      d[a, b, c] == if a < i || (a == i && (b < j || (b == j && c < l)))
                                    then Step(m, k, At(u, a, b, c), At(v, a, b, c), old(d[a, b, c]))
                                    else old(d[a, b, c])
        {
          if InMask(k, At(u, i, j, l), At(v, i, j, l)) {
            d[i, j, l] := MaskValue(m, k, At(u, i, j, l), At(v, i, j, l));
          }
        }
      }
    }
  }

  /** The direction grid: one reference direction per cell, in the shape of the inputs. */
  function DirectionGrid(m: MathLib, u: Var3, v: Var3): (d: Var3)
    requires SameShape(u, v)
    ensures HasShape(d, u.n0, u.n1, u.n2)
    ensures forall a, b, c :: 0 <= a < u.n0 && 0 <= b < u.n1 && 0 <= c < u.n2 ==>
              At(d, a, b, c) == Direction(m, At(u, a, b, c), At(v, a, b, c))
  {
    Var3(u.n0, u.n1, u.n2,
         seq(u.n0, a requires 0 <= a < u.n0 =>
           seq(u.n1, b requires 0 <= b < u.n1 =>
             seq(u.n2, c requires 0 <= c < u.n2 => Direction(m, At(u, a, b, c), At(v, a, b, c))))))
  }

  /** _get_wind_direction(eastward_velocity, northward_velocity) on whole grids. */
  method GetWindDirectionGrid(m: MathLib, u: Var3, v: Var3) returns (direction: Var3)
    requires SameShape(u, v)
    ensures direction == DirectionGrid(m, u, v)
  {
    var d := new real[u.n0, u.n1, u.n2]((a, b, c) => 0.0);
    AssignMask3(m, d, u, v, Westward);
    AssignMask3(m, d, u, v, Eastward);
    AssignMask3(m, d, u, v, PureNorthward);
    AssignMask3(m, d, u, v, PureSouthward);
    AssignMask3(m, d, u, v, PureEastward);
    AssignMask3(m, d, u, v, PureWestward);
    direction := Contents3(d);
    forall a, b, c | 0 <= a < u.n0 && 0 <= b < u.n1 && 0 <= c < u.n2
      ensures At(direction, a, b, c) == At(DirectionGrid(m, u, v), a, b, c)
    {
      SixAssignments(m, At(u, a, b, c), At(v, a, b, c));
    }
    Var3Equal(direction, DirectionGrid(m, u, v));
  }
}
