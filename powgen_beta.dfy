/**
 * beta/powGen_impl_beta.py: the capacity-factor driver. It takes its grid from the processed
 * annual file (at most three latitudes and three longitudes), runs every cell, longitude by
 * longitude and latitude by latitude, and stores capacity factors rather than raw generation.
 * Its get_date, get_data, get_windDirection, get_date_time_index and resource-file writers
 * behave as those of powGen_impl.py do and are modelled once, in PowGenImpl.
 */
module PowGenBeta {
  import opened Wrappers
  import opened MerraData
  import opened Numerics
  import opened Grids
  import opened ResourceRows
  import opened PowGenImpl

  /** The processed annual file with its coordinate variables 'lat' and 'lon'. */
  datatype BetaFile = BetaFile(lat: seq<real>, lon: seq<real>, data: ProcessedFile)

  /** np.array(xs[:3]): the first three entries, or all of them when there are fewer. */
  function FirstThree(xs: seq<real>): (ys: seq<real>)
    ensures |ys| == if |xs| < 3 then |xs| else 3
    ensures ys == xs[..|ys|]
  {
    if |xs| <= 3 then xs else xs[..3]
  }

  /** get_lat_lon: the two truncated axes and their sizes, which main uses as num_lats and num_lons. */
  function GetLatLon(f: BetaFile): (r: (seq<real>, seq<real>, nat, nat))
    ensures r.2 == |r.0| <= 3 && r.3 == |r.1| <= 3
    ensures r.2 == |f.lat| || (r.2 == 3 && |f.lat| > 3)
    ensures r.3 == |f.lon| || (r.3 == 3 && |f.lon| > 3)
    ensures r.0 == f.lat[..r.2] && r.1 == f.lon[..r.3]
  {
    var lats, lons := FirstThree(f.lat), FirstThree(f.lon);
    (lats, lons, |lats|, |lons|)
  }

  /**
   * The processed file lays the grid out row-major, as rewrite.py writes it: cell k is latitude
   * k / |lon| and longitude k % |lon| of the file's full axes.
   */
  predicate RowMajor(f: BetaFile)
  {
    f.data.latLongs == |f.lat| * |f.lon|
  }

  /** The grid cell the flat index k denotes in the file's layout. */
  function CellAt(f: BetaFile, k: nat): (nat, nat)
    requires |f.lon| > 0
  {
    (k / |f.lon|, k % |f.lon|)
  }

  // ----- the flat index, as written and as intended -----

  /** get_data's index as main computes it: num_lons is the length of the truncated axis. */
  function CellIndexAsWritten(f: BetaFile, latitude: nat, longitude: nat): nat
  {
    CellIndex(latitude, longitude, GetLatLon(f).3)
  }

  /**
   * The index is right only on the first latitude or when the file has at most three
   * longitudes: elsewhere it lands on another cell.
   */
  lemma CellIndexAsWrittenRight(f: BetaFile, latitude: nat, longitude: nat)
    requires longitude < GetLatLon(f).3
    ensures CellIndexAsWritten(f, latitude, longitude) == FlatIndex(latitude, longitude, |f.lon|)
            <==> latitude == 0 || |f.lon| <= 3
  {
    var n := GetLatLon(f).3;
    if latitude > 0 && |f.lon| > 3 {
      assert n == 3;
      MerraData.MulMonotone(latitude, latitude, 3);
      assert latitude * |f.lon| >= latitude * 4 by { MulAtLeast(latitude, 4, |f.lon|); }
    }
  }

  lemma MulAtLeast(a: nat, b: nat, c: nat)
    requires b <= c
    ensures a * b <= a * c
  {
  }

  /**
   * On a file with five longitudes the run of latitude 1, longitude 0 reads flat cell 3, which
   * the file holds for latitude 0, longitude 3.
   */
  lemma CellIndexAsWrittenCounterexample(lat: seq<real>, lon: seq<real>, data: ProcessedFile)
    requires |lat| >= 2 && |lon| == 5
    ensures var f := BetaFile(lat, lon, data);
            && CellIndexAsWritten(f, 1, 0) == 3
            && CellAt(f, CellIndexAsWritten(f, 1, 0)) == (0, 3)
            && CellAt(f, CellIndexAsWritten(f, 1, 0)) != (1, 0)
  {
  }

  /** The intended index: num_lons is the file's full longitude count. */
  function CellIndexIntended(f: BetaFile, latitude: nat, longitude: nat): nat
  {
    CellIndex(latitude, longitude, |f.lon|)
  }

  /** With the file's longitude count every cell of the run reads its own flat cell of the file. */
  lemma CellIndexIntendedRight(f: BetaFile, latitude: nat, longitude: nat)
    requires RowMajor(f) && latitude < |f.lat| && longitude < |f.lon|
    ensures CellIndexIntended(f, latitude, longitude) < f.data.latLongs
    ensures CellAt(f, CellIndexIntended(f, latitude, longitude)) == (latitude, longitude)
  {
    FlatIndexRange(latitude, longitude, |f.lat|, |f.lon|);
    FlatIndexInverse(latitude, longitude, |f.lon|);
  }

  // ----- run_solar and run_wp -----

  /** nameplate_capacity of both simulations, in kW. */
  const Nameplate: real := 1000.0

  /** run_solar's capacity factor: AC generation in W over the nameplate capacity in W. */
  function SolarCf(ac: seq<real>): (cf: seq<real>)
    ensures |cf| == |ac| && forall i :: 0 <= i < |ac| ==> cf[i] == ac[i] / (Nameplate * 1000.0)
  {
    Over(ac, Nameplate * 1000.0)
  }

  /** run_wp's capacity factor: generation in kW over the nameplate capacity in kW. */
  function WindCf(gen: seq<real>): (cf: seq<real>)
    ensures |cf| == |gen| && forall i :: 0 <= i < |gen| ==> cf[i] == gen[i] / Nameplate
  {
    Over(gen, Nameplate)
  }

  /**
   * Scaling the capacity factors back by the nameplate capacity gives the generation, and the
   * factors are the per-cell driver's outputs: the beta driver divides by the same amounts.
   */
  lemma CapacityFactorInverse(sim: Simulators, rows: seq<Row>, latitude: real, curve: PowerCurve)
    ensures var ac := sim.pvWatts(rows, Abs(latitude));
            forall i :: 0 <= i < |ac| ==> SolarCf(ac)[i] * (Nameplate * 1000.0) == ac[i]
    ensures var gen := sim.windPower(rows, curve);
            forall i :: 0 <= i < |gen| ==> WindCf(gen)[i] * Nameplate == gen[i]
    ensures SolarCf(sim.pvWatts(rows, Abs(latitude))) == RunSolar(sim, rows, latitude)
    ensures WindCf(sim.windPower(rows, curve)) == RunWp(sim, rows, curve)
  {
  }

  // ----- main -----

  /**
   * grid(b) gives, for each latitude, the outputs of its cell at longitude b, with indexLons the
   * num_lons handed to get_data.
   */
  ghost predicate GridCells(m: MathLib, split: SolarSplit, sim: Simulators, curve: PowerCurve, year: int,
                            f: BetaFile, indexLons: nat, grid: nat -> nat -> Result<(seq<real>, seq<real>), CellError>)
    requires SharedShape(f.data) && Hourly(split)
  {
    var (lats, lons, numLats, numLons) := GetLatLon(f);
    forall b :: 0 <= b < numLons ==> Cells(m, split, sim, curve, year, lats, lons, b, indexLons, f.data, grid(b))
  }

  /** The table of every cell's outputs, with indexLons the num_lons handed to get_data. */
  ghost function GridTable(m: MathLib, split: SolarSplit, sim: Simulators, curve: PowerCurve, year: int,
                           f: BetaFile, indexLons: nat): (grid: nat -> nat -> Result<(seq<real>, seq<real>), CellError>)
    requires SharedShape(f.data) && Hourly(split)
    ensures GridCells(m, split, sim, curve, year, f, indexLons, grid)
  {
    var (lats, lons, numLats, numLons) := GetLatLon(f);
    (b: nat) => if b < numLons then CellTable(m, split, sim, curve, year, lats, lons, b, indexLons, f.data)
                else (a: nat) => Err(DataUnreadable(MissingVariable("")))
  }

  /**
   * As written, main hands get_data the truncated num_lons: cell (latitude, longitude) of the
   * run reads file row CellIndexAsWritten, which CellIndexAsWrittenCounterexample shows can hold
   * another cell.
   */
  lemma GridRowAsWritten(f: BetaFile, latitude: nat, longitude: nat)
    requires RowMajor(f) && latitude < GetLatLon(f).2 && longitude < GetLatLon(f).3
    ensures DataRow(f.data, latitude, longitude, GetLatLon(f).3) == Some(CellIndexAsWritten(f, latitude, longitude))
  {
    var n := GetLatLon(f).3;
    FlatIndexRange(latitude, longitude, |f.lat|, n);
    MulAtLeast(|f.lat|, n, |f.lon|);
    DataRowOfCell(f.data, latitude, longitude, n);
  }

  /** With the file's longitude count, cell (latitude, longitude) of the run reads its own row. */
  lemma GridRowIntended(f: BetaFile, latitude: nat, longitude: nat)
    requires RowMajor(f) && latitude < GetLatLon(f).2 && longitude < GetLatLon(f).3
    ensures DataRow(f.data, latitude, longitude, |f.lon|) == Some(CellIndexIntended(f, latitude, longitude))
    ensures CellAt(f, CellIndexIntended(f, latitude, longitude)) == (latitude, longitude)
  {
    CellIndexIntendedRight(f, latitude, longitude);
    DataRowOfCell(f.data, latitude, longitude, |f.lon|);
  }

  /**
   * The nested loop of main: every longitude of the truncated grid, and within it every
   * latitude, each cell's capacity factors stored in its slot, stopping at the first cell that
   * raises, in its own code or in write_cord. With grid the table of the cells' outputs,
   * outs[b][a] is the output of latitude a at longitude b, for the cells visited in that order.
   * Every longitude but the last visited finishes all its latitudes; the last finishes windDone
   * of them, and its row holds one more when write_cord stored that cell's solar series and then
   * rejected its wind series. Every other slot keeps its value. indexLons is the num_lons main
   * hands get_data: as written, the truncated count GetLatLon(f).3 (GridRowAsWritten);
   * corrected, the file's |f.lon| (GridRowIntended).
   */
  method RunGrid(m: MathLib, split: SolarSplit, sim: Simulators, curve: PowerCurve, year: int, f: BetaFile,
                 indexLons: nat, solarCf: array3<real>, windCf: array3<real>,
                 ghost grid: nat -> nat -> Result<(seq<real>, seq<real>), CellError>)
    returns (r: Result<(), CellError>, ghost windDone: nat, ghost outs: seq<seq<(seq<real>, seq<real>)>>)
    requires SharedShape(f.data) && Hourly(split) && GridCells(m, split, sim, curve, year, f, indexLons, grid)
    requires solarCf != windCf
    requires solarCf.Length0 == GetLatLon(f).2 && solarCf.Length1 == GetLatLon(f).3
    requires windCf.Length0 == GetLatLon(f).2 && windCf.Length1 == GetLatLon(f).3
    modifies solarCf, windCf
    ensures |outs| <= solarCf.Length1 && windDone <= solarCf.Length0
    ensures forall b :: 0 <= b < |outs| - 1 ==> |outs[b]| == solarCf.Length0
    ensures outs != [] ==> windDone <= |outs[|outs| - 1]| <= windDone + 1
    ensures r.Ok? <==> |outs| == solarCf.Length1 && (outs == [] || windDone == solarCf.Length0)
    ensures forall b, a :: 0 <= b < |outs| && 0 <= a < |outs[b]| ==> |outs[b][a].0| == solarCf.Length2
    ensures forall b, a :: 0 <= b < |outs| && 0 <= a < |outs[b]| && (b < |outs| - 1 || a < windDone) ==>
              |outs[b][a].1| == windCf.Length2
    ensures forall b, a :: 0 <= b < |outs| && 0 <= a < |outs[b]| ==> grid(b)(a) == Ok(outs[b][a])
    ensures r.Err? ==> outs != [] && windDone < solarCf.Length0
                       && r == CellStep(grid(|outs| - 1)(windDone), solarCf.Length2, windCf.Length2)
    ensures forall a, b, c :: 0 <= a < solarCf.Length0 && 0 <= b < solarCf.Length1 && 0 <= c < solarCf.Length2 ==>
              solarCf[a, b, c] == if b < |outs| && a < |outs[b]| then outs[b][a].0[c] else old(solarCf[a, b, c])
    ensures forall a, b, c :: 0 <= a < windCf.Length0 && 0 <= b < windCf.Length1 && 0 <= c < windCf.Length2 ==>
              windCf[a, b, c] == if b < |outs| && a < |outs[b]| && (b < |outs| - 1 || a < windDone)
                                 then outs[b][a].1[c] else old(windCf[a, b, c])
  {
    var (lats, lons, numLats, numLons) := GetLatLon(f);
    outs, windDone := [], numLats;
    var longitude := 0;
    while longitude < numLons
      invariant longitude <= numLons && |outs| == longitude
      invariant forall b :: 0 <= b < longitude ==> |outs[b]| == numLats
      invariant forall b, a :: 0 <= b < longitude && 0 <= a < numLats ==>
                  |outs[b][a].0| == solarCf.Length2 && |outs[b][a].1| == windCf.Length2
      invariant forall b, a :: 0 <= b < longitude && 0 <= a < numLats ==> grid(b)(a) == Ok(outs[b][a])
      invariant forall a, b, c :: 0 <= a < solarCf.Length0 && 0 <= b < solarCf.Length1 && 0 <= c < solarCf.Length2 ==>
                  solarCf[a, b, c] == if b < longitude then outs[b][a].0[c] else old(solarCf[a, b, c])
      invariant forall a, b, c :: 0 <= a < windCf.Length0 && 0 <= b < windCf.Length1 && 0 <= c < windCf.Length2 ==>
                  windCf[a, b, c] == if b < longitude then outs[b][a].1[c] else old(windCf[a, b, c])
    {
      var done, finished, row := RunLatitudes(m, split, sim, curve, year, lats, lons, longitude, longitude, indexLons,
                                            f.data, solarCf, windCf, grid(longitude));
      outs := outs + [row];
      if finished.Err? {
        return finished, done, outs;
      }
      longitude := longitude + 1;
    }
    r := Ok(());
  }
}
