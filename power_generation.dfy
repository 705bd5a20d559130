/**
 * src/power_generation.py: the MerraPowerGeneration object. It loads a combined MERRA file
 * (one (lat, lon, time) array per variable, plus the lat and lon axes) into a dictionary of
 * arrays and derives the resource variables the simulators need: pressure in atmospheres,
 * temperature in Celsius, wind speed at 2, 10 and 50 m, wind direction, an IEC turbine class
 * per cell, and global horizontal irradiance. It then reads the wind power curve file into one
 * list of strings per column.
 */
module PowerGeneration {
  import opened Wrappers
  import opened Numerics
  import opened MerraData
  import opened Text
  import opened WindDirection

  /** One entry of the variables dictionary: a 1-D axis, the 2-D class grid, or a 3-D array. */
  datatype NdArray = Axis(xs: seq<real>) | Grid(g: seq<seq<int>>) | Cube(x: Var3)

  /**
   * Why deriving the variables stops: the exception Python raises, or, for NotAnArray3 and
   * NotAnAxis, an entry of the wrong shape, which Python reads without complaint.
   */
  datatype ProcessError =
    | KeyError(key: string)          // the variables dictionary has no such entry
    | NotAnArray3(key: string)       // the entry exists but is not a (lat, lon, time) array (no exception)
    | NotAnAxis(key: string)         // the entry exists but is not a one-dimensional axis (no exception)
    | IndexError(key: string)        // [lat_idx, lon_idx, :] is outside the array
    | MathDomainError                // math.log of a height that is not positive
    | ZeroDivisionError              // math.log with a base whose logarithm is zero

  const AtmPerPascal: real := 1.0 / 101325.0
  const KelvCelsiusOffset: real := 273.15

  /** Every three-dimensional entry has the combined file's shape (lat, lon, time). */
  predicate Shaped(vars: map<string, NdArray>, n0: nat, n1: nat, n2: nat)
  {
    forall k :: k in vars && vars[k].Cube? ==> HasShape(vars[k].x, n0, n1, n2)
  }

  /** self.variables[key] where an array is expected. */
  function CubeOf(vars: map<string, NdArray>, key: string): (r: Result<Var3, ProcessError>)
    ensures r.Ok? <==> key in vars && vars[key].Cube?
    ensures r.Ok? ==> r.value == vars[key].x
    ensures r.Err? ==> r.error == if key in vars then NotAnArray3(key) else KeyError(key)
  {
    if key !in vars then Err(KeyError(key))
    else if !vars[key].Cube? then Err(NotAnArray3(key))
    else Ok(vars[key].x)
  }

  // ----- whole-array arithmetic -----

  /** A numpy expression applied to every cell of one array. */
  function Map3(x: Var3, f: real -> real): (y: Var3)
    requires WellFormed(x)
    ensures HasShape(y, x.n0, x.n1, x.n2)
    ensures forall a, b, c :: 0 <= a < x.n0 && 0 <= b < x.n1 && 0 <= c < x.n2 ==> At(y, a, b, c) == f(At(x, a, b, c))
  {
    Var3(x.n0, x.n1, x.n2,
         seq(x.n0, a requires 0 <= a < x.n0 =>
           seq(x.n1, b requires 0 <= b < x.n1 =>
             seq(x.n2, c requires 0 <= c < x.n2 => f(At(x, a, b, c))))))
  }

  /** A numpy expression applied cell by cell to two arrays of one shape. */
  function Zip3(x: Var3, y: Var3, f: (real, real) -> real): (z: Var3)
    requires SameShape(x, y)
    ensures HasShape(z, x.n0, x.n1, x.n2)
    ensures forall a, b, c :: 0 <= a < x.n0 && 0 <= b < x.n1 && 0 <= c < x.n2 ==>
              At(z, a, b, c) == f(At(x, a, b, c), At(y, a, b, c))
  {
    Var3(x.n0, x.n1, x.n2,
         seq(x.n0, a requires 0 <= a < x.n0 =>
           seq(x.n1, b requires 0 <= b < x.n1 =>
             seq(x.n2, c requires 0 <= c < x.n2 => f(At(x, a, b, c), At(y, a, b, c))))))
  }

  /** PS * ATM_PER_PASCAL. */
  function PressureAtm(ps: Var3): (r: Var3)
    requires WellFormed(ps)
    ensures HasShape(r, ps.n0, ps.n1, ps.n2)
    ensures forall a, b, c :: 0 <= a < ps.n0 && 0 <= b < ps.n1 && 0 <= c < ps.n2 ==>
              At(r, a, b, c) == At(ps, a, b, c) * AtmPerPascal
  {
    Map3(ps, p => p * AtmPerPascal)
  }

  /** T2M - KELV_CELSIUS_OFFSET. */
  function TemperatureC(t: Var3): (r: Var3)
    requires WellFormed(t)
    ensures HasShape(r, t.n0, t.n1, t.n2)
    ensures forall a, b, c :: 0 <= a < t.n0 && 0 <= b < t.n1 && 0 <= c < t.n2 ==>
              At(r, a, b, c) == At(t, a, b, c) - KelvCelsiusOffset
  {
    Map3(t, k => k - KelvCelsiusOffset)
  }

  function Hypot(m: MathLib, a: real, b: real): real { m.sqrt(a * a + b * b) }

  /** np.sqrt(V**2 + U**2), the speed of the wind from its northward and eastward components. */
  function WindSpeed(m: MathLib, v: Var3, u: Var3): (r: Var3)
    requires SameShape(v, u)
    ensures HasShape(r, v.n0, v.n1, v.n2)
    ensures forall a, b, c :: 0 <= a < v.n0 && 0 <= b < v.n1 && 0 <= c < v.n2 ==>
              At(r, a, b, c) == Hypot(m, At(v, a, b, c), At(u, a, b, c))
  {
    Zip3(v, u, (a, b) => Hypot(m, a, b))
  }

  // ----- scale_wind_height and _get_wind_turbine_class -----

  /**
   * The shear step of one cell: v2 * 2 ** (ln(v2 / v1) / scale), with numpy's division. On reals
   * a calm second height stays calm (in floating point only when v1 is non-zero and the scale
   * positive; otherwise the result is NaN), and equal non-zero speeds at both heights give that
   * speed again.
   */
  function Shear(m: MathLib, scale: real, v1: real, v2: real): (v3: real)
    ensures v2 == 0.0 ==> v3 == 0.0
    ensures Lawful(m) && scale != 0.0 && v1 == v2 && v1 != 0.0 ==> v3 == v2
  {
    if v1 == v2 && v1 != 0.0 then
      SelfRatio(v1);
      v2 * m.exp2(Div(m, m.ln(Div(m, v2, v1)), scale))
    else
      v2 * m.exp2(Div(m, m.ln(Div(m, v2, v1)), scale))
  }

  lemma SelfRatio(x: real)
    requires x != 0.0
    ensures x / x == 1.0
  {
  }

  /**
   * scale_wind_height(height_1, speed_1, height_2, speed_2, height_3): the scale is
   * math.log(height_2, height_1), which fails for a height that is not positive and for a base
   * whose logarithm is zero; every cell then takes the shear step. height_3 is never used.
   */
  function ScaleWindHeight(m: MathLib, h1: real, x1: Var3, h2: real, x2: Var3, h3: real): (r: Result<Var3, ProcessError>)
    requires SameShape(x1, x2)
    ensures r.Err? <==> h1 <= 0.0 || h2 <= 0.0 || m.ln(h1) == 0.0
    ensures r.Err? ==> r.error == if h1 <= 0.0 || h2 <= 0.0 then MathDomainError else ZeroDivisionError
    ensures r.Ok? ==> HasShape(r.value, x1.n0, x1.n1, x1.n2)
    ensures r.Ok? ==> forall a, b, c :: 0 <= a < x1.n0 && 0 <= b < x1.n1 && 0 <= c < x1.n2 ==>
              At(r.value, a, b, c) == Shear(m, m.ln(h2) / m.ln(h1), At(x1, a, b, c), At(x2, a, b, c))
  {
    if h1 <= 0.0 || h2 <= 0.0 then Err(MathDomainError)
    else if m.ln(h1) == 0.0 then Err(ZeroDivisionError)
    else
      var scale := m.ln(h2) / m.ln(h1);
      Ok(Zip3(x1, x2, (v1, v2) => Shear(m, scale, v1, v2)))
  }

  /** The result does not depend on height_3. */
  lemma ScaleWindHeightIgnoresHeight3(m: MathLib, h1: real, x1: Var3, h2: real, x2: Var3, h3: real, h3': real)
    requires SameShape(x1, x2)
    ensures ScaleWindHeight(m, h1, x1, h2, x2, h3) == ScaleWindHeight(m, h1, x1, h2, x2, h3')
  {
  }

  /**
   * Where the speeds at both heights are equal and non-zero, the speed comes back unchanged:
   * the ratio is 1, its logarithm 0 and 2 ** 0 is 1.
   */
  lemma ScaleWindHeightOfEqualSpeeds(m: MathLib, h1: real, h2: real, h3: real, x: Var3)
    requires Lawful(m) && h1 > 0.0 && h2 > 0.0 && m.ln(h1) != 0.0 && m.ln(h2) != 0.0
    requires WellFormed(x)
    requires forall a, b, c :: 0 <= a < x.n0 && 0 <= b < x.n1 && 0 <= c < x.n2 ==> At(x, a, b, c) != 0.0
    ensures ScaleWindHeight(m, h1, x, h2, x, h3) == Ok(x)
  {
    var r := ScaleWindHeight(m, h1, x, h2, x, h3).value;
    var scale := m.ln(h2) / m.ln(h1);
    assert scale != 0.0 by { assert scale * m.ln(h1) == m.ln(h2); }
    forall a, b, c | 0 <= a < x.n0 && 0 <= b < x.n1 && 0 <= c < x.n2
      ensures r.cells[a][b][c] == x.cells[a][b][c]
    {
      var v := At(x, a, b, c);
      assert r.cells[a][b][c] == Shear(m, scale, v, v);
    }
    Var3Equal(r, x);
  }

  /**
   * There is no guard for a zero speed at the first height: the ratio is numpy's division by
   * zero, and the cell reads whatever that stand-in value gives.
   */
  lemma ScaleWindHeightAtZeroSpeed(m: MathLib, h1: real, x1: Var3, h2: real, x2: Var3, h3: real,
                                   a: nat, b: nat, c: nat)
    requires SameShape(x1, x2) && a < x1.n0 && b < x1.n1 && c < x1.n2 && At(x1, a, b, c) == 0.0
    requires h1 > 0.0 && h2 > 0.0 && m.ln(h1) != 0.0
    ensures ScaleWindHeight(m, h1, x1, h2, x2, h3).Ok?
    ensures At(ScaleWindHeight(m, h1, x1, h2, x2, h3).value, a, b, c)
         == At(x2, a, b, c) * m.exp2(Div(m, m.ln(m.divByZero(At(x2, a, b, c))), m.ln(h2) / m.ln(h1)))
  {
  }

  /** np.where(cond, x, y) on one cell. */
  function Where(cond: bool, x: int, y: int): int
  {
    if cond then x else y
  }

  /**
   * The two np.where calls on one median: 2 from 8 up, else 3; then 1 from 9 up. The three
   * classes are the bands [9, inf), [8, 9) and below 8.
   */
  function TurbineClass(median: real): (c: int)
    ensures c == 1 <==> median >= 9.0
    ensures c == 2 <==> 8.0 <= median < 9.0
    ensures c == 3 <==> median < 8.0
  {
    var c := Where(median >= 8.0, 2, 3);
    Where(median >= 9.0, 1, c)
  }

  /** The hourly series of one (lat, lon) cell: the array read along axis 2. */
  function Series(x: Var3, a: nat, b: nat): (s: seq<real>)
    requires WellFormed(x) && a < x.n0 && b < x.n1
    ensures |s| == x.n2 && forall c :: 0 <= c < x.n2 ==> s[c] == At(x, a, b, c)
  {
    x.cells[a][b]
  }

  /**
   * _get_wind_turbine_class(wind_speed_10, wind_speed_50): the speed at 100 m from the shear
   * between 10 m and 50 m, its median over the hours of each cell, and the class of that median.
   * The grid has one class per (lat, lon).
   */
  function TurbineClasses(m: MathLib, w10: Var3, w50: Var3): (r: Result<seq<seq<int>>, ProcessError>)
    requires SameShape(w10, w50)
    ensures r.Err? <==> m.ln(10.0) == 0.0
    ensures r.Err? ==> r.error == ZeroDivisionError
    ensures r.Ok? ==> |r.value| == w10.n0 && forall a :: 0 <= a < w10.n0 ==> |r.value[a]| == w10.n1
    ensures r.Ok? ==> forall a, b :: 0 <= a < w10.n0 && 0 <= b < w10.n1 ==>
              r.value[a][b] == TurbineClass(m.median(Series(ScaleWindHeight(m, 10.0, w10, 50.0, w50, 100.0).value, a, b)))
  {
    var w100 :- ScaleWindHeight(m, 10.0, w10, 50.0, w50, 100.0);
    Ok(seq(w10.n0, a requires 0 <= a < w10.n0 =>
         seq(w10.n1, b requires 0 <= b < w10.n1 => TurbineClass(m.median(Series(w100, a, b))))))
  }

  // ----- _process_merra_data -----

  const Heights: seq<nat> := [2, 10, 50]

  function SpeedKey(h: nat): string { "wind_speed_" + NatToString(h) + "_m_per_s" }
  function NorthKey(h: nat): string { "V" + NatToString(h) + "M" }
  function EastKey(h: nat): string { "U" + NatToString(h) + "M" }

  /** The f-strings of each height, written out. */
  lemma HeightKeys2()
    ensures SpeedKey(2) == "wind_speed_2_m_per_s" && NorthKey(2) == "V2M" && EastKey(2) == "U2M"
  {
    assert NatToString(2) == "2";
  }

  lemma HeightKeys10()
    ensures SpeedKey(10) == "wind_speed_10_m_per_s" && NorthKey(10) == "V10M" && EastKey(10) == "U10M"
  {
    assert NatToString(1) == "1";
    assert NatToString(10) == NatToString(1) + [DigitChar(0)] == "10";
  }

  lemma HeightKeys50()
    ensures SpeedKey(50) == "wind_speed_50_m_per_s" && NorthKey(50) == "V50M" && EastKey(50) == "U50M"
  {
    assert NatToString(5) == "5";
    assert NatToString(50) == NatToString(5) + [DigitChar(0)] == "50";
  }

  /** One turn of the heights loop: wind_speed_{h}_m_per_s from V{h}M and U{h}M. */
  function HeightStep(m: MathLib, vars: map<string, NdArray>, h: nat, n0: nat, n1: nat, n2: nat)
    : (r: Result<map<string, NdArray>, ProcessError>)
    requires Shaped(vars, n0, n1, n2)
    ensures r.Ok? ==> Shaped(r.value, n0, n1, n2)
  {
    var v :- CubeOf(vars, NorthKey(h));
    var u :- CubeOf(vars, EastKey(h));
    Ok(vars[SpeedKey(h) := Cube(WindSpeed(m, v, u))])
  }

  /** The heights loop over heights hs, one turn after another. */
  function HeightsLoop(m: MathLib, vars: map<string, NdArray>, hs: seq<nat>, n0: nat, n1: nat, n2: nat)
    : (r: Result<map<string, NdArray>, ProcessError>)
    requires Shaped(vars, n0, n1, n2)
    ensures r.Ok? ==> Shaped(r.value, n0, n1, n2)
    decreases |hs|
  {
    if hs == [] then Ok(vars)
    else
      var w :- HeightsLoop(m, vars, hs[..|hs| - 1], n0, n1, n2);
      HeightStep(m, w, hs[|hs| - 1], n0, n1, n2)
  }

  /** The loop over the first i + 1 heights is the loop over the first i, then turn i. */
  lemma HeightsLoopSnoc(m: MathLib, vars: map<string, NdArray>, hs: seq<nat>, i: nat, n0: nat, n1: nat, n2: nat)
    requires Shaped(vars, n0, n1, n2) && i < |hs| && HeightsLoop(m, vars, hs[..i], n0, n1, n2).Ok?
    ensures HeightsLoop(m, vars, hs[..i + 1], n0, n1, n2)
         == HeightStep(m, HeightsLoop(m, vars, hs[..i], n0, n1, n2).value, hs[i], n0, n1, n2)
  {
    assert hs[..i + 1][..i] == hs[..i];
  }

  /** Once a turn of the loop fails, the whole loop fails with that error. */
  lemma {:induction false} HeightsLoopStops(m: MathLib, vars: map<string, NdArray>, hs: seq<nat>, i: nat,
                                            n0: nat, n1: nat, n2: nat)
    requires Shaped(vars, n0, n1, n2) && i <= |hs| && HeightsLoop(m, vars, hs[..i], n0, n1, n2).Err?
    ensures HeightsLoop(m, vars, hs, n0, n1, n2) == HeightsLoop(m, vars, hs[..i], n0, n1, n2)
    decreases |hs| - i
  {
    if i < |hs| {
      assert hs[..i + 1][..i] == hs[..i];
      HeightsLoopStops(m, vars, hs, i + 1, n0, n1, n2);
    } else {
      assert hs[..i] == hs;
    }
  }

  /** The keys _process_merra_data adds. */
  const DerivedKeys: set<string> :=
    {"pressure_atm", "temperature_c", SpeedKey(2), SpeedKey(10), SpeedKey(50),
     "wind_direction_deg", "wind_turbine_iec_class", "ghi_w_per_m_2"}

  /** The first two assignments: pressure_atm from PS, then temperature_c from T2M. */
  function Conversions(vars: map<string, NdArray>, n0: nat, n1: nat, n2: nat)
    : (r: Result<map<string, NdArray>, ProcessError>)
    requires Shaped(vars, n0, n1, n2)
    ensures r.Ok? ==> Shaped(r.value, n0, n1, n2)
  {
    var ps :- CubeOf(vars, "PS");
    var v1 := vars["pressure_atm" := Cube(PressureAtm(ps))];
    var t :- CubeOf(v1, "T2M");
    Ok(v1["temperature_c" := Cube(TemperatureC(t))])
  }

  /** The last three assignments: wind direction at 50 m, the turbine class grid, then ghi from SWGDN. */
  function WindAndSun(m: MathLib, vars: map<string, NdArray>, n0: nat, n1: nat, n2: nat)
    : (r: Result<map<string, NdArray>, ProcessError>)
    requires Shaped(vars, n0, n1, n2)
    ensures r.Ok? ==> Shaped(r.value, n0, n1, n2)
  {
    var u50 :- CubeOf(vars, "U50M");
    var v50 :- CubeOf(vars, "V50M");
    var v4 := vars["wind_direction_deg" := Cube(DirectionGrid(m, u50, v50))];
    var w10 :- CubeOf(v4, "wind_speed_10_m_per_s");
    var w50 :- CubeOf(v4, "wind_speed_50_m_per_s");
    var classes :- TurbineClasses(m, w10, w50);
    var v5 := v4["wind_turbine_iec_class" := Grid(classes)];
    var ghi :- CubeOf(v5, "SWGDN");
    Ok(v5["ghi_w_per_m_2" := Cube(ghi)])
  }

  /**
   * _process_merra_data on a dictionary of variables: each assignment in turn, each reading the
   * dictionary as the assignments before it left it.
   */
  function Process(m: MathLib, vars: map<string, NdArray>, n0: nat, n1: nat, n2: nat)
    : (r: Result<map<string, NdArray>, ProcessError>)
    requires Shaped(vars, n0, n1, n2)
    ensures r.Ok? ==> Shaped(r.value, n0, n1, n2)
  {
    var v2 :- Conversions(vars, n0, n1, n2);
    WindStages(m, v2, n0, n1, n2)
  }

  /** Everything after the conversions: the heights loop, then the last three assignments. */
  function WindStages(m: MathLib, vars: map<string, NdArray>, n0: nat, n1: nat, n2: nat)
    : (r: Result<map<string, NdArray>, ProcessError>)
    requires Shaped(vars, n0, n1, n2)
    ensures r.Ok? ==> Shaped(r.value, n0, n1, n2)
  {
    var v3 :- HeightsLoop(m, vars, Heights, n0, n1, n2);
    WindAndSun(m, v3, n0, n1, n2)
  }

  // ----- what _process_merra_data computes -----

  /** The first of keys whose entry is not an array, in reading order. */
  function FirstBad(vars: map<string, NdArray>, keys: seq<string>): (r: Option<string>)
    ensures r.Some? ==> CubeOf(vars, r.value).Err?
  {
    if keys == [] then None
    else if CubeOf(vars, keys[0]).Err? then Some(keys[0])
    else FirstBad(vars, keys[1..])
  }

  /** None when every key holds an array; otherwise a key that does not, with all keys before it fine. */
  lemma {:induction false} FirstBadMeaning(vars: map<string, NdArray>, keys: seq<string>)
    ensures var r := FirstBad(vars, keys);
            && (r.None? <==> forall i :: 0 <= i < |keys| ==> CubeOf(vars, keys[i]).Ok?)
            && (r.Some? ==> exists i :: 0 <= i < |keys| && keys[i] == r.value && CubeOf(vars, keys[i]).Err?
                                          && forall j :: 0 <= j < i ==> CubeOf(vars, keys[j]).Ok?)
  {
    if keys != [] && CubeOf(vars, keys[0]).Ok? {
      FirstBadMeaning(vars, keys[1..]);
      assert forall i :: 0 < i < |keys| ==> keys[i] == keys[1..][i - 1];
      var r := FirstBad(vars, keys[1..]);
      if r.Some? {
        var i :| 0 <= i < |keys[1..]| && keys[1..][i] == r.value && CubeOf(vars, keys[1..][i]).Err?
                 && forall j :: 0 <= j < i ==> CubeOf(vars, keys[1..][j]).Ok?;
        assert keys[i + 1] == r.value && forall j :: 0 <= j < i + 1 ==> CubeOf(vars, keys[j]).Ok?;
      }
    } else if keys != [] {
      assert keys[0] == FirstBad(vars, keys).value;
    }
  }

  /** FirstBad on two keys, written out. */
  lemma FirstBadPair(vars: map<string, NdArray>, a: string, b: string)
    ensures FirstBad(vars, [a, b])
         == if CubeOf(vars, a).Err? then Some(a) else if CubeOf(vars, b).Err? then Some(b) else None
  {
    assert [a, b][1..] == [b] && [b][1..] == [];
    assert FirstBad(vars, [b]) == if CubeOf(vars, b).Err? then Some(b) else FirstBad(vars, []);
  }

  lemma {:induction false} FirstBadAppend(vars: map<string, NdArray>, a: seq<string>, b: seq<string>)
    ensures FirstBad(vars, a + b) == if FirstBad(vars, a).Some? then FirstBad(vars, a) else FirstBad(vars, b)
  {
    if a != [] {
      assert (a + b)[0] == a[0] && (a + b)[1..] == a[1..] + b;
      FirstBadAppend(vars, a[1..], b);
    } else {
      assert a + b == b;
    }
  }

  /** The two conversions: they need PS and T2M, and add pressure_atm and temperature_c. */
  lemma ConversionsMeaning(vars: map<string, NdArray>, n0: nat, n1: nat, n2: nat)
    requires Shaped(vars, n0, n1, n2)
    ensures var r := Conversions(vars, n0, n1, n2);
            && (r.Ok? <==> FirstBad(vars, ["PS", "T2M"]).None?)
            && (r.Err? ==> r.error == CubeOf(vars, FirstBad(vars, ["PS", "T2M"]).value).error)
            && (r.Ok? ==> r.value == vars["pressure_atm" := Cube(PressureAtm(vars["PS"].x))]
                                         ["temperature_c" := Cube(TemperatureC(vars["T2M"].x))])
  {
    FirstBadPair(vars, "PS", "T2M");
  }

  /** The six wind components the heights loop reads, in its order: V2M, U2M, V10M, U10M, V50M, U50M. */
  const WindKeys: seq<string> :=
    [NorthKey(2), EastKey(2), NorthKey(10), EastKey(10), NorthKey(50), EastKey(50)]

  /** One turn of the loop needs V{h}M, then U{h}M. */
  lemma HeightStepOk(m: MathLib, vars: map<string, NdArray>, h: nat, n0: nat, n1: nat, n2: nat)
    requires Shaped(vars, n0, n1, n2)
    ensures var r := HeightStep(m, vars, h, n0, n1, n2);
            && (r.Ok? <==> FirstBad(vars, [NorthKey(h), EastKey(h)]).None?)
            && (r.Err? ==> r.error == CubeOf(vars, FirstBad(vars, [NorthKey(h), EastKey(h)]).value).error)
  {
    FirstBadPair(vars, NorthKey(h), EastKey(h));
  }

  /** A turn of the loop changes no entry whose name does not start with 'w'. */
  lemma HeightStepFrame(m: MathLib, vars: map<string, NdArray>, k: nat, n0: nat, n1: nat, n2: nat, h: nat)
    requires Shaped(vars, n0, n1, n2) && HeightStep(m, vars, k, n0, n1, n2).Ok?
    ensures FirstBad(HeightStep(m, vars, k, n0, n1, n2).value, [NorthKey(h), EastKey(h)])
         == FirstBad(vars, [NorthKey(h), EastKey(h)])
  {
    assert SpeedKey(k)[0] == 'w' && NorthKey(h)[0] == 'V' && EastKey(h)[0] == 'U';
    FirstBadPair(vars, NorthKey(h), EastKey(h));
    FirstBadPair(HeightStep(m, vars, k, n0, n1, n2).value, NorthKey(h), EastKey(h));
  }

  /** The loop over [2, 10, 50], turn by turn. */
  lemma HeightsUnrolled(m: MathLib, vars: map<string, NdArray>, n0: nat, n1: nat, n2: nat)
    requires Shaped(vars, n0, n1, n2)
    ensures HeightsLoop(m, vars, Heights, n0, n1, n2)
         == match HeightStep(m, vars, 2, n0, n1, n2)
            case Err(e) => Err(e)
            case Ok(w2) =>
              match HeightStep(m, w2, 10, n0, n1, n2)
              case Err(e) => Err(e)
              case Ok(w10) => HeightStep(m, w10, 50, n0, n1, n2)
  {
    assert Heights[..2] == [2, 10] && [2, 10][..1] == [2] && [2][..0] == [];
  }

  /** The last three assignments need U50M, V50M, a logarithm of 10 that is not zero, and SWGDN. */
  lemma WindAndSunOk(m: MathLib, vars: map<string, NdArray>, n0: nat, n1: nat, n2: nat)
    requires Shaped(vars, n0, n1, n2)
    requires CubeOf(vars, "wind_speed_10_m_per_s").Ok? && CubeOf(vars, "wind_speed_50_m_per_s").Ok?
    ensures var r := WindAndSun(m, vars, n0, n1, n2);
            var bad := FirstBad(vars, ["U50M", "V50M"]);
            && (r.Ok? <==> bad.None? && m.ln(10.0) != 0.0 && CubeOf(vars, "SWGDN").Ok?)
            && (r.Err? ==> r.error == if bad.Some? then CubeOf(vars, bad.value).error
                                      else if m.ln(10.0) == 0.0 then ZeroDivisionError
                                      else CubeOf(vars, "SWGDN").error)
  {
    FirstBadPair(vars, "U50M", "V50M");
  }

  /** What the last three assignments add, each read from the dictionary they start from. */
  lemma WindAndSunValue(m: MathLib, vars: map<string, NdArray>, n0: nat, n1: nat, n2: nat)
    requires Shaped(vars, n0, n1, n2) && WindAndSun(m, vars, n0, n1, n2).Ok?
    requires CubeOf(vars, "wind_speed_10_m_per_s").Ok? && CubeOf(vars, "wind_speed_50_m_per_s").Ok?
    ensures CubeOf(vars, "U50M").Ok? && CubeOf(vars, "V50M").Ok? && CubeOf(vars, "SWGDN").Ok?
    ensures WindAndSun(m, vars, n0, n1, n2).value
         == vars["wind_direction_deg" := Cube(DirectionGrid(m, vars["U50M"].x, vars["V50M"].x))]
                ["wind_turbine_iec_class" := Grid(TurbineClasses(m, vars["wind_speed_10_m_per_s"].x,
                                                                 vars["wind_speed_50_m_per_s"].x).value)]
                ["ghi_w_per_m_2" := Cube(vars["SWGDN"].x)]
  {
  }

  /** The heights loop fails at the first of the six components that is not an array. */
  lemma HeightsOk(m: MathLib, vars: map<string, NdArray>, n0: nat, n1: nat, n2: nat)
    requires Shaped(vars, n0, n1, n2)
    ensures var r := HeightsLoop(m, vars, Heights, n0, n1, n2);
            && (r.Ok? <==> FirstBad(vars, WindKeys).None?)
            && (r.Err? ==> r.error == CubeOf(vars, FirstBad(vars, WindKeys).value).error)
  {
    var k2, k10, k50 := [NorthKey(2), EastKey(2)], [NorthKey(10), EastKey(10)], [NorthKey(50), EastKey(50)];
    assert WindKeys == k2 + (k10 + k50);
    FirstBadAppend(vars, k2, k10 + k50);
    FirstBadAppend(vars, k10, k50);
    HeightsUnrolled(m, vars, n0, n1, n2);
    HeightStepOk(m, vars, 2, n0, n1, n2);
    var r2 := HeightStep(m, vars, 2, n0, n1, n2);
    if r2.Ok? {
      var w2 := r2.value;
      HeightStepOk(m, w2, 10, n0, n1, n2);
      HeightStepFrame(m, vars, 2, n0, n1, n2, 10);
      HeightStepFrame(m, vars, 2, n0, n1, n2, 50);
      var r10 := HeightStep(m, w2, 10, n0, n1, n2);
      if r10.Ok? {
        HeightStepOk(m, r10.value, 50, n0, n1, n2);
        HeightStepFrame(m, w2, 10, n0, n1, n2, 50);
      }
    }
  }

  /** What one turn of the loop adds. */
  lemma HeightStepValue(m: MathLib, vars: map<string, NdArray>, h: nat, n0: nat, n1: nat, n2: nat)
    requires Shaped(vars, n0, n1, n2) && HeightStep(m, vars, h, n0, n1, n2).Ok?
    ensures CubeOf(vars, NorthKey(h)).Ok? && CubeOf(vars, EastKey(h)).Ok?
    ensures HeightStep(m, vars, h, n0, n1, n2).value
         == vars[SpeedKey(h) := Cube(WindSpeed(m, vars[NorthKey(h)].x, vars[EastKey(h)].x))]
  {
  }

  /** The loop adds the three speeds, each from the components as the file holds them. */
  lemma HeightsValue(m: MathLib, vars: map<string, NdArray>, n0: nat, n1: nat, n2: nat)
    requires Shaped(vars, n0, n1, n2) && HeightsLoop(m, vars, Heights, n0, n1, n2).Ok?
    ensures CubeOf(vars, NorthKey(2)).Ok? && CubeOf(vars, EastKey(2)).Ok?
    ensures CubeOf(vars, NorthKey(10)).Ok? && CubeOf(vars, EastKey(10)).Ok?
    ensures CubeOf(vars, NorthKey(50)).Ok? && CubeOf(vars, EastKey(50)).Ok?
    ensures HeightsLoop(m, vars, Heights, n0, n1, n2).value
         == vars[SpeedKey(2) := Cube(WindSpeed(m, vars[NorthKey(2)].x, vars[EastKey(2)].x))]
                [SpeedKey(10) := Cube(WindSpeed(m, vars[NorthKey(10)].x, vars[EastKey(10)].x))]
                [SpeedKey(50) := Cube(WindSpeed(m, vars[NorthKey(50)].x, vars[EastKey(50)].x))]
  {
    HeightsUnrolled(m, vars, n0, n1, n2);
    HeightStepValue(m, vars, 2, n0, n1, n2);
    var w2 := HeightStep(m, vars, 2, n0, n1, n2).value;
    HeightStepValue(m, w2, 10, n0, n1, n2);
    var w10 := HeightStep(m, w2, 10, n0, n1, n2).value;
    HeightStepValue(m, w10, 50, n0, n1, n2);
    assert SpeedKey(2)[0] == 'w' && SpeedKey(10)[0] == 'w';
    assert NorthKey(10)[0] == 'V' && EastKey(10)[0] == 'U' && NorthKey(50)[0] == 'V' && EastKey(50)[0] == 'U';
  }

  /** Adding an entry whose name starts with neither 'V' nor 'U' leaves the six components as they were. */
  lemma WindKeysFrame(vars: map<string, NdArray>, k: string, x: NdArray)
    requires |k| > 0 && k[0] != 'V' && k[0] != 'U'
    ensures FirstBad(vars[k := x], WindKeys) == FirstBad(vars, WindKeys)
  {
    var k2, k10, k50 := [NorthKey(2), EastKey(2)], [NorthKey(10), EastKey(10)], [NorthKey(50), EastKey(50)];
    assert WindKeys == k2 + (k10 + k50);
    assert NorthKey(2)[0] == 'V' && EastKey(2)[0] == 'U' && NorthKey(10)[0] == 'V' && EastKey(10)[0] == 'U';
    assert NorthKey(50)[0] == 'V' && EastKey(50)[0] == 'U';
    FirstBadAppend(vars, k2, k10 + k50);
    FirstBadAppend(vars, k10, k50);
    FirstBadAppend(vars[k := x], k2, k10 + k50);
    FirstBadAppend(vars[k := x], k10, k50);
    FirstBadPair(vars, NorthKey(2), EastKey(2));
    FirstBadPair(vars, NorthKey(10), EastKey(10));
    FirstBadPair(vars, NorthKey(50), EastKey(50));
    FirstBadPair(vars[k := x], NorthKey(2), EastKey(2));
    FirstBadPair(vars[k := x], NorthKey(10), EastKey(10));
    FirstBadPair(vars[k := x], NorthKey(50), EastKey(50));
  }

  /** The stages after the conversions need the six components, the logarithm of 10 and SWGDN. */
  lemma WindStagesOutcome(m: MathLib, vars: map<string, NdArray>, n0: nat, n1: nat, n2: nat)
    requires Shaped(vars, n0, n1, n2)
    ensures var r := WindStages(m, vars, n0, n1, n2);
            var bad := FirstBad(vars, WindKeys);
            && (r.Ok? <==> bad.None? && m.ln(10.0) != 0.0 && CubeOf(vars, "SWGDN").Ok?)
            && (r.Err? ==> r.error == if bad.Some? then CubeOf(vars, bad.value).error
                                      else if m.ln(10.0) == 0.0 then ZeroDivisionError
                                      else CubeOf(vars, "SWGDN").error)
  {
    HeightsOk(m, vars, n0, n1, n2);
    var h := HeightsLoop(m, vars, Heights, n0, n1, n2);
    if h.Ok? {
      HeightsValue(m, vars, n0, n1, n2);
      HeightKeys10();
      HeightKeys50();
      WindAndSunOk(m, h.value, n0, n1, n2);
      FirstBadPair(h.value, "U50M", "V50M");
    }
  }

  /**
   * _process_merra_data succeeds exactly when PS, T2M, the six wind components and SWGDN are
   * arrays and the logarithm of 10 is not zero; otherwise it raises at the first of them that
   * is missing, in the order the assignments read them, with the logarithm checked before SWGDN.
   */
  lemma ProcessOutcome(m: MathLib, vars: map<string, NdArray>, n0: nat, n1: nat, n2: nat)
    requires Shaped(vars, n0, n1, n2)
    ensures var r := Process(m, vars, n0, n1, n2);
            var bad := FirstBad(vars, ["PS", "T2M"] + WindKeys);
            && (r.Ok? <==> bad.None? && m.ln(10.0) != 0.0 && CubeOf(vars, "SWGDN").Ok?)
            && (r.Err? ==> r.error == if bad.Some? then CubeOf(vars, bad.value).error
                                      else if m.ln(10.0) == 0.0 then ZeroDivisionError
                                      else CubeOf(vars, "SWGDN").error)
  {
    ConversionsMeaning(vars, n0, n1, n2);
    FirstBadAppend(vars, ["PS", "T2M"], WindKeys);
    var c := Conversions(vars, n0, n1, n2);
    if c.Ok? {
      var v1 := vars["pressure_atm" := Cube(PressureAtm(vars["PS"].x))];
      WindKeysFrame(vars, "pressure_atm", Cube(PressureAtm(vars["PS"].x)));
      WindKeysFrame(v1, "temperature_c", Cube(TemperatureC(vars["T2M"].x)));
      WindStagesOutcome(m, c.value, n0, n1, n2);
    }
  }

  /** What the stages after the conversions add. */
  lemma WindStagesValue(m: MathLib, vars: map<string, NdArray>, n0: nat, n1: nat, n2: nat)
    requires Shaped(vars, n0, n1, n2) && WindStages(m, vars, n0, n1, n2).Ok?
    ensures CubeOf(vars, "SWGDN").Ok?
    ensures CubeOf(vars, NorthKey(2)).Ok? && CubeOf(vars, EastKey(2)).Ok?
    ensures CubeOf(vars, NorthKey(10)).Ok? && CubeOf(vars, EastKey(10)).Ok?
    ensures CubeOf(vars, NorthKey(50)).Ok? && CubeOf(vars, EastKey(50)).Ok?
    ensures var s10 := WindSpeed(m, vars[NorthKey(10)].x, vars[EastKey(10)].x);
            var s50 := WindSpeed(m, vars[NorthKey(50)].x, vars[EastKey(50)].x);
            && TurbineClasses(m, s10, s50).Ok?
            && WindStages(m, vars, n0, n1, n2).value
               == vars[SpeedKey(2) := Cube(WindSpeed(m, vars[NorthKey(2)].x, vars[EastKey(2)].x))]
                      [SpeedKey(10) := Cube(s10)]
                      [SpeedKey(50) := Cube(s50)]
                      ["wind_direction_deg" := Cube(DirectionGrid(m, vars[EastKey(50)].x, vars[NorthKey(50)].x))]
                      ["wind_turbine_iec_class" := Grid(TurbineClasses(m, s10, s50).value)]
                      ["ghi_w_per_m_2" := vars["SWGDN"]]
  {
    HeightsValue(m, vars, n0, n1, n2);
    HeightsLookups(m, vars, n0, n1, n2);
    WindAndSunValue(m, HeightsLoop(m, vars, Heights, n0, n1, n2).value, n0, n1, n2);
  }

  /** After the loop, the entries the last assignments read: the 50 m components, SWGDN, and the new speeds. */
  lemma HeightsLookups(m: MathLib, vars: map<string, NdArray>, n0: nat, n1: nat, n2: nat)
    requires Shaped(vars, n0, n1, n2) && HeightsLoop(m, vars, Heights, n0, n1, n2).Ok?
    ensures CubeOf(vars, NorthKey(10)).Ok? && CubeOf(vars, EastKey(10)).Ok?
    ensures CubeOf(vars, NorthKey(50)).Ok? && CubeOf(vars, EastKey(50)).Ok?
    ensures var v3 := HeightsLoop(m, vars, Heights, n0, n1, n2).value;
            && CubeOf(v3, "U50M") == CubeOf(vars, EastKey(50))
            && CubeOf(v3, "V50M") == CubeOf(vars, NorthKey(50))
            && CubeOf(v3, "SWGDN") == CubeOf(vars, "SWGDN")
            && CubeOf(v3, "wind_speed_10_m_per_s") == Ok(WindSpeed(m, vars[NorthKey(10)].x, vars[EastKey(10)].x))
            && CubeOf(v3, "wind_speed_50_m_per_s") == Ok(WindSpeed(m, vars[NorthKey(50)].x, vars[EastKey(50)].x))
  {
    HeightsValue(m, vars, n0, n1, n2);
    HeightKeys10();
    HeightKeys50();
    SpeedKeyFacts(2, 10);
    SpeedKeyFacts(2, 50);
    SpeedKeyFacts(10, 50);
  }

  /** The nine variables _process_merra_data reads are all arrays. */
  predicate HasInputs(vars: map<string, NdArray>)
  {
    && CubeOf(vars, "PS").Ok? && CubeOf(vars, "T2M").Ok? && CubeOf(vars, "SWGDN").Ok?
    && CubeOf(vars, NorthKey(2)).Ok? && CubeOf(vars, EastKey(2)).Ok?
    && CubeOf(vars, NorthKey(10)).Ok? && CubeOf(vars, EastKey(10)).Ok?
    && CubeOf(vars, NorthKey(50)).Ok? && CubeOf(vars, EastKey(50)).Ok?
  }

  /**
   * Reference definition of the dictionary _process_merra_data leaves: the file's variables
   * with every derived entry computed directly from them.
   */
  function Derived(m: MathLib, vars: map<string, NdArray>, n0: nat, n1: nat, n2: nat): map<string, NdArray>
    requires Shaped(vars, n0, n1, n2) && HasInputs(vars) && m.ln(10.0) != 0.0
  {
    var s10 := WindSpeed(m, vars[NorthKey(10)].x, vars[EastKey(10)].x);
    var s50 := WindSpeed(m, vars[NorthKey(50)].x, vars[EastKey(50)].x);
    Entries(vars, PressureAtm(vars["PS"].x), TemperatureC(vars["T2M"].x),
            WindSpeed(m, vars[NorthKey(2)].x, vars[EastKey(2)].x), s10, s50,
            DirectionGrid(m, vars[EastKey(50)].x, vars[NorthKey(50)].x), TurbineClasses(m, s10, s50).value)
  }

  /** The eight entries _process_merra_data adds, in the order it adds them, given their values. */
  function Entries(vars: map<string, NdArray>, p: Var3, t: Var3, s2: Var3, s10: Var3, s50: Var3,
                   dir: Var3, classes: seq<seq<int>>): (r: map<string, NdArray>)
    requires "SWGDN" in vars
    ensures r.Keys == vars.Keys + DerivedKeys
    ensures forall k :: k in vars && k !in DerivedKeys ==> r[k] == vars[k]
    ensures r["pressure_atm"] == Cube(p) && r["temperature_c"] == Cube(t)
    ensures r[SpeedKey(2)] == Cube(s2) && r[SpeedKey(10)] == Cube(s10) && r[SpeedKey(50)] == Cube(s50)
    ensures r["wind_direction_deg"] == Cube(dir) && r["wind_turbine_iec_class"] == Grid(classes)
    ensures r["ghi_w_per_m_2"] == vars["SWGDN"]
  {
    SpeedKeyFacts(2, 10);
    SpeedKeyFacts(2, 50);
    SpeedKeyFacts(10, 50);
    vars["pressure_atm" := Cube(p)]
        ["temperature_c" := Cube(t)]
        [SpeedKey(2) := Cube(s2)]
        [SpeedKey(10) := Cube(s10)]
        [SpeedKey(50) := Cube(s50)]
        ["wind_direction_deg" := Cube(dir)]
        ["wind_turbine_iec_class" := Grid(classes)]
        ["ghi_w_per_m_2" := vars["SWGDN"]]
  }

  /** What _process_merra_data leaves in the dictionary, when it succeeds, is the reference one. */
  lemma ProcessClosedForm(m: MathLib, vars: map<string, NdArray>, n0: nat, n1: nat, n2: nat)
    requires Shaped(vars, n0, n1, n2) && Process(m, vars, n0, n1, n2).Ok?
    ensures HasInputs(vars) && m.ln(10.0) != 0.0
    ensures Process(m, vars, n0, n1, n2).value == Derived(m, vars, n0, n1, n2)
  {
    ConversionsMeaning(vars, n0, n1, n2);
    var v2 := Conversions(vars, n0, n1, n2).value;
    WindStagesValue(m, v2, n0, n1, n2);
    assert NorthKey(2)[0] == 'V' && EastKey(2)[0] == 'U' && NorthKey(10)[0] == 'V' && EastKey(10)[0] == 'U';
    assert NorthKey(50)[0] == 'V' && EastKey(50)[0] == 'U';
  }

  /** Processing succeeds exactly when the nine inputs are arrays and the logarithm of 10 is not zero. */
  lemma ProcessOkIff(m: MathLib, vars: map<string, NdArray>, n0: nat, n1: nat, n2: nat)
    requires Shaped(vars, n0, n1, n2)
    ensures Process(m, vars, n0, n1, n2).Ok? <==> HasInputs(vars) && m.ln(10.0) != 0.0
  {
    if HasInputs(vars) && m.ln(10.0) != 0.0 {
      ProcessOutcome(m, vars, n0, n1, n2);
      FirstBadAppend(vars, ["PS", "T2M"], WindKeys);
      FirstBadPair(vars, "PS", "T2M");
      WindKeysAllArrays(vars);
    } else if Process(m, vars, n0, n1, n2).Ok? {
      ProcessClosedForm(m, vars, n0, n1, n2);
    }
  }

  /** The six components are all arrays, FirstBad finds none of them. */
  lemma WindKeysAllArrays(vars: map<string, NdArray>)
    requires HasInputs(vars)
    ensures FirstBad(vars, WindKeys).None?
  {
    var k2, k10, k50 := [NorthKey(2), EastKey(2)], [NorthKey(10), EastKey(10)], [NorthKey(50), EastKey(50)];
    assert WindKeys == k2 + (k10 + k50);
    FirstBadAppend(vars, k2, k10 + k50);
    FirstBadAppend(vars, k10, k50);
    FirstBadPair(vars, NorthKey(2), EastKey(2));
    FirstBadPair(vars, NorthKey(10), EastKey(10));
    FirstBadPair(vars, NorthKey(50), EastKey(50));
  }

  /** The name of each speed starts with "wind_speed_", and different heights give different names. */
  lemma SpeedKeyFacts(h: nat, h': nat)
    ensures |SpeedKey(h)| > 11 && SpeedKey(h)[0] == 'w' && SpeedKey(h)[5] == 's'
    ensures SpeedKey(h) == SpeedKey(h') ==> h == h'
  {
    if SpeedKey(h) == SpeedKey(h') {
      var a, b := NatToString(h), NatToString(h');
      assert |a| == |b|;
      assert a == SpeedKey(h)[11..11 + |a|] == SpeedKey(h')[11..11 + |b|] == b;
      NatToStringRoundTrip(h);
      NatToStringRoundTrip(h');
    }
  }

  /** The reference dictionary holds pressure in atmospheres and temperature in Celsius. */
  lemma DerivedConversions(m: MathLib, vars: map<string, NdArray>, n0: nat, n1: nat, n2: nat)
    requires Shaped(vars, n0, n1, n2) && HasInputs(vars) && m.ln(10.0) != 0.0
    ensures var r := Derived(m, vars, n0, n1, n2);
            && CubeOf(r, "pressure_atm") == Ok(PressureAtm(vars["PS"].x))
            && CubeOf(r, "temperature_c") == Ok(TemperatureC(vars["T2M"].x))
  {
  }

  /**
   * The reference dictionary holds the speed of each of the three heights, from that height's
   * own components. HeightKeys2, HeightKeys10 and HeightKeys50 spell out the names.
   */
  lemma DerivedSpeed(m: MathLib, vars: map<string, NdArray>, n0: nat, n1: nat, n2: nat, h: nat)
    requires Shaped(vars, n0, n1, n2) && HasInputs(vars) && m.ln(10.0) != 0.0
    requires h == 2 || h == 10 || h == 50
    ensures CubeOf(vars, NorthKey(h)).Ok? && CubeOf(vars, EastKey(h)).Ok?
    ensures CubeOf(Derived(m, vars, n0, n1, n2), SpeedKey(h)) == Ok(WindSpeed(m, vars[NorthKey(h)].x, vars[EastKey(h)].x))
  {
    var r := Derived(m, vars, n0, n1, n2);
    var v, u := vars[NorthKey(h)].x, vars[EastKey(h)].x;
    assert r[SpeedKey(h)] == Cube(WindSpeed(m, v, u));
  }

  /**
   * The reference dictionary holds the direction at 50 m, the class grid from the 10 m and 50 m
   * speeds, and ghi as SWGDN itself.
   */
  lemma DerivedWind(m: MathLib, vars: map<string, NdArray>, n0: nat, n1: nat, n2: nat)
    requires Shaped(vars, n0, n1, n2) && HasInputs(vars) && m.ln(10.0) != 0.0
    ensures var r := Derived(m, vars, n0, n1, n2);
            && CubeOf(r, "wind_direction_deg") == Ok(DirectionGrid(m, vars[EastKey(50)].x, vars[NorthKey(50)].x))
            && "wind_turbine_iec_class" in r
            && r["wind_turbine_iec_class"]
               == Grid(TurbineClasses(m, WindSpeed(m, vars[NorthKey(10)].x, vars[EastKey(10)].x),
                                         WindSpeed(m, vars[NorthKey(50)].x, vars[EastKey(50)].x)).value)
            && CubeOf(r, "ghi_w_per_m_2") == CubeOf(vars, "SWGDN")
  {
  }

  /** The keys afterwards are the file's and the derived ones; no entry of the file under another name changes. */
  lemma DerivedKeepsRaw(m: MathLib, vars: map<string, NdArray>, n0: nat, n1: nat, n2: nat)
    requires Shaped(vars, n0, n1, n2) && HasInputs(vars) && m.ln(10.0) != 0.0
    ensures var r := Derived(m, vars, n0, n1, n2);
            && r.Keys == vars.Keys + DerivedKeys
            && forall k :: k in vars && k !in DerivedKeys ==> r[k] == vars[k]
  {
  }

  // ----- _load_power_curves -----

  /** One row of csv.DictReader: its (column name, field) pairs, in header order. */
  type CsvRow = seq<(string, string)>

  /** self.wind_power_curves[key] on the defaultdict(list): the empty list for a key not yet seen. */
  function Lookup(curves: map<string, seq<string>>, key: string): seq<string>
  {
    if key in curves then curves[key] else []
  }

  /** The inner loop: for key in row, append row[key] to the list of key. */
  function AppendRow(curves: map<string, seq<string>>, row: CsvRow): map<string, seq<string>>
    decreases |row|
  {
    if row == [] then curves
    else
      var c := AppendRow(curves, row[..|row| - 1]);
      var (key, value) := row[|row| - 1];
      c[key := Lookup(c, key) + [value]]
  }

  /** The outer loop over the rows of the file. */
  function CurvesOf(rows: seq<CsvRow>): map<string, seq<string>>
    decreases |rows|
  {
    if rows == [] then map[] else AppendRow(CurvesOf(rows[..|rows| - 1]), rows[|rows| - 1])
  }

  /** The fields of row under column key, in order. */
  function Values(row: CsvRow, key: string): seq<string>
    decreases |row|
  {
    if row == [] then []
    else Values(row[..|row| - 1], key) + (if row[|row| - 1].0 == key then [row[|row| - 1].1] else [])
  }

  /** Reference definition of a column: the fields under key, row after row. */
  function Column(rows: seq<CsvRow>, key: string): seq<string>
    decreases |rows|
  {
    if rows == [] then [] else Column(rows[..|rows| - 1], key) + Values(rows[|rows| - 1], key)
  }

  predicate HasKey(row: CsvRow, key: string)
  {
    exists i :: 0 <= i < |row| && row[i].0 == key
  }

  /** Appending a row adds each of its fields to the end of its column's list, and nothing else. */
  lemma {:induction false} AppendRowEffect(curves: map<string, seq<string>>, row: CsvRow, key: string)
    ensures Lookup(AppendRow(curves, row), key) == Lookup(curves, key) + Values(row, key)
    ensures key in AppendRow(curves, row) <==> key in curves || HasKey(row, key)
    decreases |row|
  {
    if row != [] {
      var p := row[..|row| - 1];
      AppendRowEffect(curves, p, key);
      assert forall i :: 0 <= i < |p| ==> p[i] == row[i];
      if HasKey(row, key) && !HasKey(p, key) {
        assert row[|row| - 1].0 == key;
      }
    }
  }

  /** After the loops, the list of every key is its column. */
  lemma {:induction false} CurvesAreColumns(rows: seq<CsvRow>, key: string)
    ensures Lookup(CurvesOf(rows), key) == Column(rows, key)
    ensures key in CurvesOf(rows) <==> exists i :: 0 <= i < |rows| && HasKey(rows[i], key)
    decreases |rows|
  {
    if rows != [] {
      var p := rows[..|rows| - 1];
      CurvesAreColumns(p, key);
      AppendRowEffect(CurvesOf(p), rows[|rows| - 1], key);
      assert forall i :: 0 <= i < |p| ==> p[i] == rows[i];
      if exists i :: 0 <= i < |rows| && HasKey(rows[i], key) {
        var i :| 0 <= i < |rows| && HasKey(rows[i], key);
        if i < |p| {
          assert HasKey(p[i], key);
        }
      }
    }
  }

  /** Every row of a CSV file under a header: the header's names, in order, each once. */
  predicate UnderHeader(rows: seq<CsvRow>, header: seq<string>)
  {
    && (forall a, b :: 0 <= a < b < |header| ==> header[a] != header[b])
    && (forall i :: 0 <= i < |rows| ==> |rows[i]| == |header|)
    && (forall i, k :: 0 <= i < |rows| && 0 <= k < |header| ==> rows[i][k].0 == header[k])
  }

  /** In a row with distinct names, the fields under the name of position k are that one field. */
  lemma {:induction false} ValuesOfDistinct(row: CsvRow, k: nat)
    requires k < |row| && forall a, b :: 0 <= a < b < |row| ==> row[a].0 != row[b].0
    ensures Values(row, row[k].0) == [row[k].1]
    decreases |row|
  {
    var p := row[..|row| - 1];
    if k < |p| {
      ValuesOfDistinct(p, k);
      assert row[|row| - 1].0 != row[k].0;
    } else {
      ValuesAbsent(p, row[k].0);
    }
  }

  lemma {:induction false} ValuesAbsent(row: CsvRow, key: string)
    requires forall i :: 0 <= i < |row| ==> row[i].0 != key
    ensures Values(row, key) == []
    decreases |row|
  {
    if row != [] {
      ValuesAbsent(row[..|row| - 1], key);
    }
  }

  /**
   * For a file under a header, each name of the header gets one string per row, in row order:
   * the field of row i under that name is entry i of its list.
   */
  lemma {:induction false} CurvesOfTable(rows: seq<CsvRow>, header: seq<string>, k: nat)
    requires UnderHeader(rows, header) && k < |header|
    ensures |Lookup(CurvesOf(rows), header[k])| == |rows|
    ensures forall i :: 0 <= i < |rows| ==> Lookup(CurvesOf(rows), header[k])[i] == rows[i][k].1
    ensures header[k] in CurvesOf(rows) <==> |rows| > 0
    decreases |rows|
  {
    CurvesAreColumns(rows, header[k]);
    if rows != [] {
      var p := rows[..|rows| - 1];
      assert UnderHeader(p, header);
      CurvesOfTable(p, header, k);
      CurvesAreColumns(p, header[k]);
      var last := rows[|rows| - 1];
      assert forall a :: 0 <= a < |last| ==> last[a].0 == header[a];
      assert forall a, b :: 0 <= a < b < |last| ==> last[a].0 != last[b].0;
      ValuesOfDistinct(last, k);
      assert HasKey(rows[0], header[k]) by { assert rows[0][k].0 == header[k]; }
    }
  }

  // ----- the output dataset and the solar resource record -----

  const HoursPerYear: nat := 8760

  /** The output netCDF file as _initialize_dataset leaves it. */
  datatype OutputDataset = OutputDataset(
    dims: map<string, nat>, year: int, lat: seq<real>, lon: seq<real>, solarCf: Var3, windCf: Var3)

  /** len(self.variables[key]) where a coordinate axis is expected. */
  function AxisOf(vars: map<string, NdArray>, key: string): (r: Result<seq<real>, ProcessError>)
    ensures r.Ok? <==> key in vars && vars[key].Axis?
    ensures r.Ok? ==> r.value == vars[key].xs
    ensures r.Err? ==> r.error == if key in vars then NotAnAxis(key) else KeyError(key)
  {
    if key !in vars then Err(KeyError(key))
    else if !vars[key].Axis? then Err(NotAnAxis(key))
    else Ok(vars[key].xs)
  }

  /** The inputs for PVWatts at one cell: location, zone, elevation, irradiance and weather series. */
  datatype SolarResource = SolarResource(
    lat: real, lon: real, tz: int, elev: int, dn: seq<real>, df: seq<real>, tdry: seq<real>, wspd: seq<real>)

  /** self.variables[key][lat_idx, lon_idx, :]: the hourly series of one cell. */
  function CellSeries(vars: map<string, NdArray>, key: string, a: nat, b: nat, n0: nat, n1: nat, n2: nat)
    : (r: Result<seq<real>, ProcessError>)
    requires Shaped(vars, n0, n1, n2)
    ensures r.Ok? <==> CubeOf(vars, key).Ok? && a < n0 && b < n1
    ensures r.Err? ==> r.error == if CubeOf(vars, key).Err? then CubeOf(vars, key).error else IndexError(key)
    ensures r.Ok? ==> |r.value| == n2 && forall c :: 0 <= c < n2 ==> r.value[c] == At(vars[key].x, a, b, c)
  {
    var x :- CubeOf(vars, key);
    if a < x.n0 && b < x.n1 then Ok(Series(x, a, b)) else Err(IndexError(key))
  }

  /** The object: the year and variables of the combined file, and the power curves once read. */
  class MerraPowerGeneration {
    var year: int
    var variables: map<string, NdArray>
    var windPowerCurves: map<string, seq<string>>

    /** _load_merra_data: the file's year attribute and every variable, read into arrays. */
    constructor Load(year: int, variables: map<string, NdArray>)
      ensures this.year == year && this.variables == variables && windPowerCurves == map[]
    {
      this.year := year;
      this.variables := variables;
      windPowerCurves := map[];
    }

    /** The first two assignments of _process_merra_data: pressure in atmospheres, temperature in Celsius. */
    method ConvertUnits(ghost n0: nat, ghost n1: nat, ghost n2: nat) returns (r: Result<(), ProcessError>)
      requires Shaped(variables, n0, n1, n2)
      modifies this
      ensures year == old(year) && windPowerCurves == old(windPowerCurves)
      ensures r.Ok? <==> Conversions(old(variables), n0, n1, n2).Ok?
      ensures r.Err? ==> r.error == Conversions(old(variables), n0, n1, n2).error
      ensures r.Ok? ==> variables == Conversions(old(variables), n0, n1, n2).value
    {
      var ps := CubeOf(variables, "PS");
      if ps.Err? {
        return Err(ps.error);
      }
      variables := variables["pressure_atm" := Cube(PressureAtm(ps.value))];
      var t := CubeOf(variables, "T2M");
      if t.Err? {
        return Err(t.error);
      }
      variables := variables["temperature_c" := Cube(TemperatureC(t.value))];
      return Ok(());
    }

    /** One turn of the heights loop: wind_speed_{h}_m_per_s from V{h}M and U{h}M. */
    method AddWindSpeed(m: MathLib, h: nat, ghost n0: nat, ghost n1: nat, ghost n2: nat) returns (r: Result<(), ProcessError>)
      requires Shaped(variables, n0, n1, n2)
      modifies this
      ensures year == old(year) && windPowerCurves == old(windPowerCurves)
      ensures r.Ok? <==> HeightStep(m, old(variables), h, n0, n1, n2).Ok?
      ensures r.Err? ==> r.error == HeightStep(m, old(variables), h, n0, n1, n2).error
      ensures r.Ok? ==> variables == HeightStep(m, old(variables), h, n0, n1, n2).value
    {
      var v := CubeOf(variables, NorthKey(h));
      if v.Err? {
        return Err(v.error);
      }
      var u := CubeOf(variables, EastKey(h));
      if u.Err? {
        return Err(u.error);
      }
      variables := variables[SpeedKey(h) := Cube(WindSpeed(m, v.value, u.value))];
      return Ok(());
    }

    /** The loop of _process_merra_data over the heights 2, 10 and 50 m: one wind speed per height. */
    method AddWindSpeeds(m: MathLib, ghost n0: nat, ghost n1: nat, ghost n2: nat) returns (r: Result<(), ProcessError>)
      requires Shaped(variables, n0, n1, n2)
      modifies this
      ensures year == old(year) && windPowerCurves == old(windPowerCurves)
      ensures r.Ok? <==> HeightsLoop(m, old(variables), Heights, n0, n1, n2).Ok?
      ensures r.Err? ==> r.error == HeightsLoop(m, old(variables), Heights, n0, n1, n2).error
      ensures r.Ok? ==> variables == HeightsLoop(m, old(variables), Heights, n0, n1, n2).value
    {
      ghost var v0 := variables;
      for i := 0 to |Heights|
        invariant Shaped(variables, n0, n1, n2)
        invariant HeightsLoop(m, v0, Heights[..i], n0, n1, n2) == Ok(variables)
        invariant year == old(year) && windPowerCurves == old(windPowerCurves)
      {
        HeightsLoopSnoc(m, v0, Heights, i, n0, n1, n2);
        r := AddWindSpeed(m, Heights[i], n0, n1, n2);
        if r.Err? {
          HeightsLoopStops(m, v0, Heights, i + 1, n0, n1, n2);
          return;
        }
      }
      assert Heights[..|Heights|] == Heights;
      return Ok(());
    }

    /** The last assignments of _process_merra_data: direction, turbine class, irradiance. */
    method AddWindAndSun(m: MathLib, ghost n0: nat, ghost n1: nat, ghost n2: nat) returns (r: Result<(), ProcessError>)
      requires Shaped(variables, n0, n1, n2)
      modifies this
      ensures year == old(year) && windPowerCurves == old(windPowerCurves)
      ensures r.Ok? <==> WindAndSun(m, old(variables), n0, n1, n2).Ok?
      ensures r.Err? ==> r.error == WindAndSun(m, old(variables), n0, n1, n2).error
      ensures r.Ok? ==> variables == WindAndSun(m, old(variables), n0, n1, n2).value
    {
      var u50 := CubeOf(variables, "U50M");
      if u50.Err? {
        return Err(u50.error);
      }
      var v50 := CubeOf(variables, "V50M");
      if v50.Err? {
        return Err(v50.error);
      }
      var direction := GetWindDirectionGrid(m, u50.value, v50.value);
      variables := variables["wind_direction_deg" := Cube(direction)];
      var w10 := CubeOf(variables, "wind_speed_10_m_per_s");
      if w10.Err? {
        return Err(w10.error);
      }
      var w50 := CubeOf(variables, "wind_speed_50_m_per_s");
      if w50.Err? {
        return Err(w50.error);
      }
      var classes := TurbineClasses(m, w10.value, w50.value);
      if classes.Err? {
        return Err(classes.error);
      }
      variables := variables["wind_turbine_iec_class" := Grid(classes.value)];
      var ghi := CubeOf(variables, "SWGDN");
      if ghi.Err? {
        return Err(ghi.error);
      }
      variables := variables["ghi_w_per_m_2" := Cube(ghi.value)];
      return Ok(());
    }

    /**
     * _process_merra_data: adds the derived entries one assignment after another. It succeeds or
     * fails as Process does, and on success leaves the dictionary Process computes.
     */
    method ProcessMerraData(m: MathLib, ghost n0: nat, ghost n1: nat, ghost n2: nat) returns (r: Result<(), ProcessError>)
      requires Shaped(variables, n0, n1, n2)
      modifies this
      ensures year == old(year) && windPowerCurves == old(windPowerCurves)
      ensures r.Ok? <==> Process(m, old(variables), n0, n1, n2).Ok?
      ensures r.Err? ==> r.error == Process(m, old(variables), n0, n1, n2).error
      ensures r.Ok? ==> variables == Process(m, old(variables), n0, n1, n2).value
    {
      r := ConvertUnits(n0, n1, n2);
      if r.Err? {
        return;
      }
      r := AddWindSpeeds(m, n0, n1, n2);
      if r.Err? {
        return;
      }
      r := AddWindAndSun(m, n0, n1, n2);
    }

    /** _load_power_curves: the curves are the columns of the file's rows, read row after row. */
    method LoadPowerCurves(rows: seq<CsvRow>)
      modifies this
      ensures year == old(year) && variables == old(variables)
      ensures windPowerCurves == CurvesOf(rows)
    {
      windPowerCurves := map[];
      for i := 0 to |rows|
        invariant year == old(year) && variables == old(variables)
        invariant windPowerCurves == CurvesOf(rows[..i])
      {
        assert rows[..i + 1][..i] == rows[..i];
        var row := rows[i];
        for j := 0 to |row|
          invariant year == old(year) && variables == old(variables)
          invariant windPowerCurves == AppendRow(CurvesOf(rows[..i]), row[..j])
        {
          assert row[..j + 1][..j] == row[..j];
          var (key, value) := row[j];
          windPowerCurves := windPowerCurves[key := Lookup(windPowerCurves, key) + [value]];
        }
        assert row[..|row|] == row;
      }
      assert rows[..|rows|] == rows;
    }

    /**
     * _initialize_dataset: dimensions lat and lon as long as the coordinate axes and time of 8760
     * hours, the year, the axes copied, and the two capacity-factor variables over (lat, lon,
     * time), not yet written.
     */
    function InitializeDataset(): (r: Result<OutputDataset, ProcessError>)
      reads this
      ensures r.Err? <==> AxisOf(variables, "lat").Err? || AxisOf(variables, "lon").Err?
      ensures r.Err? ==> r.error == if AxisOf(variables, "lat").Err? then AxisOf(variables, "lat").error
                                    else AxisOf(variables, "lon").error
      ensures r.Ok? ==> var d := r.value;
                        && d.dims.Keys == {"lat", "lon", "time"}
                        && d.dims["lat"] == |d.lat| && d.dims["lon"] == |d.lon| && d.dims["time"] == HoursPerYear
                        && d.year == year && d.lat == variables["lat"].xs && d.lon == variables["lon"].xs
                        && HasShape(d.solarCf, |d.lat|, |d.lon|, HoursPerYear)
                        && HasShape(d.windCf, |d.lat|, |d.lon|, HoursPerYear)
    {
      var lat :- AxisOf(variables, "lat");
      var lon :- AxisOf(variables, "lon");
      Ok(OutputDataset(map["lat" := |lat|, "lon" := |lon|, "time" := HoursPerYear], year, lat, lon,
                       Unwritten(|lat|, |lon|, HoursPerYear), Unwritten(|lat|, |lon|, HoursPerYear)))
    }

    /**
     * _get_solar_resource_data(lat_idx, lat, lon_idx, lon): zone and elevation 0, direct and
     * diffuse irradiance from the ghi series of the cell, and the temperature and 2 m wind speed
     * series of the cell. dniDhi stands for _get_dni_dhi.
     */
    function SolarResourceData(dniDhi: (real, real, int, seq<real>) -> (seq<real>, seq<real>),
                               a: nat, lat: real, b: nat, lon: real, n0: nat, n1: nat, n2: nat)
      : (r: Result<SolarResource, ProcessError>)
      reads this
      requires Shaped(variables, n0, n1, n2)
      ensures r.Ok? <==> CubeOf(variables, "ghi_w_per_m_2").Ok? && CubeOf(variables, "temperature_c").Ok?
                         && CubeOf(variables, SpeedKey(2)).Ok? && a < n0 && b < n1
      ensures r.Ok? ==> var s := r.value;
                        && s.lat == lat && s.lon == lon && s.tz == 0 && s.elev == 0
                        && (s.dn, s.df) == dniDhi(lat, lon, year, Series(variables["ghi_w_per_m_2"].x, a, b))
                        && s.tdry == Series(variables["temperature_c"].x, a, b)
                        && s.wspd == Series(variables[SpeedKey(2)].x, a, b)
    {
      var ghi :- CellSeries(variables, "ghi_w_per_m_2", a, b, n0, n1, n2);
      var irradiance := dniDhi(lat, lon, year, ghi);
      var tdry :- CellSeries(variables, "temperature_c", a, b, n0, n1, n2);
      var wspd :- CellSeries(variables, SpeedKey(2), a, b, n0, n1, n2);
      Ok(SolarResource(lat, lon, 0, 0, irradiance.0, irradiance.1, tdry, wspd))
    }
  }

  /**
   * MerraPowerGeneration(...): load the file, derive the variables, read the power curves; the
   * mask files are never read (_add_mask does nothing). The object exists only when the
   * derivation succeeds, and then holds the reference dictionary.
   */
  method Create(m: MathLib, year: int, vars: map<string, NdArray>, curveRows: seq<CsvRow>,
                ghost n0: nat, ghost n1: nat, ghost n2: nat)
    returns (r: Result<MerraPowerGeneration, ProcessError>)
    requires Shaped(vars, n0, n1, n2)
    ensures r.Ok? <==> Process(m, vars, n0, n1, n2).Ok?
    ensures r.Err? ==> r.error == Process(m, vars, n0, n1, n2).error
    ensures r.Ok? <==> HasInputs(vars) && m.ln(10.0) != 0.0
    ensures r.Ok? ==> && fresh(r.value) && r.value.year == year
                      && r.value.variables == Derived(m, vars, n0, n1, n2)
                      && r.value.windPowerCurves == CurvesOf(curveRows)
  {
    ProcessOkIff(m, vars, n0, n1, n2);
    var g := new MerraPowerGeneration.Load(year, vars);
    var p := g.ProcessMerraData(m, n0, n1, n2);
    if p.Err? {
      return Err(p.error);
    }
    ProcessClosedForm(m, vars, n0, n1, n2);
    g.LoadPowerCurves(curveRows);
    return Ok(g);
  }
}
