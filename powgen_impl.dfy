/**
 * powGen_impl.py: the per-cell driver. For one longitude of a small west-coast grid it reads each
 * latitude's hourly series from the processed annual file, writes the two SAM resource files,
 * runs the solar and wind simulations and stores their output in that cell's slot of the two
 * annual output arrays; then it logs the longitude, so that the next run resumes at the one
 * after it.
 */
module PowGenImpl {
  import opened Wrappers
  import opened Text
  import opened Calendar
  import opened MerraData
  import opened Numerics
  import opened Grids
  import opened WindDirection
  import opened ResourceRows
  import CheckForFinish

  // ----- get_lat_lon -----

  /** get_lat_lon: num_lats latitudes half a degree apart, num_lons longitudes 0.625 degrees apart. */
  function GetLatLon(numLats: nat, numLons: nat, startLat: real, startLon: real): (r: (seq<real>, seq<real>))
    ensures |r.0| == numLats && |r.1| == numLons
  {
    (Spaced(numLats, startLat, 0.5), Spaced(numLons, startLon, 0.625))
  }

  /**
   * Both axes start at the given corner and rise by their step, so their values are distinct and
   * looking a coordinate up on its axis gives back its position.
   */
  lemma GetLatLonAxes(numLats: nat, numLons: nat, startLat: real, startLon: real)
    ensures var (lats, lons) := GetLatLon(numLats, numLons, startLat, startLon);
            && (forall i :: 0 <= i < numLats ==> lats[i] == startLat + 0.5 * (i as real))
            && (forall j :: 0 <= j < numLons ==> lons[j] == startLon + 0.625 * (j as real))
            && StrictlyIncreasing(lats) && StrictlyIncreasing(lons)
            && (forall i :: 0 <= i < numLats ==> FirstIndex(lats, lats[i]) == i)
            && (forall j :: 0 <= j < numLons ==> FirstIndex(lons, lons[j]) == j)
  {
    var (lats, lons) := GetLatLon(numLats, numLons, startLat, startLon);
    SpacedIncreasing(numLats, startLat, 0.5);
    SpacedIncreasing(numLons, startLon, 0.625);
    forall i | 0 <= i < numLats ensures FirstIndex(lats, lats[i]) == i {
      FirstIndexOfDistinct(lats, i);
    }
    forall j | 0 <= j < numLons ensures FirstIndex(lons, lons[j]) == j {
      FirstIndexOfDistinct(lons, j);
    }
  }

  // ----- get_date -----

  /**
   * What get_date(jd) returns: on a day of a year without 29 February, its month and day; past
   * the end, December with day jd % 334 (there is no upper check). None where the loop never
   * assigns month (jd <= 0) and the return raises UnboundLocalError.
   */
  function DayOfYear(jd: int): (r: Option<(int, int)>)
    ensures r.None? <==> jd <= 0
    ensures 1 <= jd <= DaysPerNoLeapYear ==>
              var (m, d) := r.value;
              1 <= m <= 12 && 1 <= d <= NoLeapMonthLength(m) && CumulativeDays[m - 1] + d == jd
    ensures jd > DaysPerNoLeapYear ==> r.value.0 == 12
  {
    if jd <= 0 then None
    else if jd <= DaysPerNoLeapYear then
      NoLeapMonthDayValid(jd);
      Some(NoLeapMonthDay(jd))
    else Some((12, jd % CumulativeDays[11]))
  }

  /** The month get_date's loop holds after its first i rounds: the last round whose entry jd exceeded. */
  ghost function MonthAssigned(jd: int, i: nat): Option<int>
    requires i <= 12
  {
    if i == 0 then None
    else if jd > CumulativeDays[i - 1] then Some(i)
    else MonthAssigned(jd, i - 1)
  }

  /** The table rises, so the month the loop settles on is the one whose entry is the last below jd. */
  lemma {:induction false} MonthAssignedIsLast(jd: int, i: nat)
    requires i <= 12
    ensures MonthAssigned(jd, i).None? <==> i == 0 || jd <= 0
    ensures MonthAssigned(jd, i).Some? ==>
              var m := MonthAssigned(jd, i).value;
              1 <= m <= i && CumulativeDays[m - 1] < jd && (m == i || jd <= CumulativeDays[m])
  {
    if i > 0 && jd <= CumulativeDays[i - 1] {
      MonthAssignedIsLast(jd, i - 1);
      assert i >= 2 ==> CumulativeDays[i - 2] < CumulativeDays[i - 1];
    }
  }

  lemma ModBelowTwice(x: int, c: int)
    requires 0 < c <= x < 2 * c
    ensures x % c == x - c
  {
    assert x == 1 * c + (x - c);
  }

  /** Past January the remainder jd % entry is the subtraction jd - entry: jd is below twice the entry. */
  lemma GetDateArithmetic(jd: int)
    requires jd > 0
    ensures MonthAssigned(jd, 12).Some?
    ensures 1 <= MonthAssigned(jd, 12).value <= 12
    ensures jd > 31 ==> MonthAssigned(jd, 12).value >= 2
    ensures var m := MonthAssigned(jd, 12).value;
            Some((m, if jd > 31 then jd % CumulativeDays[m - 1] else jd)) == DayOfYear(jd)
  {
    MonthAssignedIsLast(jd, 12);
    var m := MonthAssigned(jd, 12).value;
    if jd <= 31 {
      assert m == 1;
      if jd <= DaysPerNoLeapYear {
        NoLeapMonthDayValid(jd);
        MonthOfPositionUnique(NoLeapMonthDay(jd).0, NoLeapMonthDay(jd).1, 1, jd);
      }
    } else if jd <= DaysPerNoLeapYear {
      assert 2 <= m;
      CumulativeDaysAreSums(m);
      ModBelowTwice(jd, CumulativeDays[m - 1]);
      NoLeapMonthDayValid(jd);
      MonthOfPositionUnique(NoLeapMonthDay(jd).0, NoLeapMonthDay(jd).1, m, jd - CumulativeDays[m - 1]);
    } else {
      assert m == 12;
    }
  }

  /** get_date(jd): the loop over the cumulative-days table, then the day within the month. */
  method GetDate(jd: int) returns (r: Option<(int, int)>)
    ensures r == DayOfYear(jd)
  {
    var month: Option<int> := None;
    for i := 0 to 12
      invariant month == MonthAssigned(jd, i)
    {
      if jd > CumulativeDays[i] {
        month := Some(i + 1);
      }
    }
    if month.None? {
      MonthAssignedIsLast(jd, 12);
      return None;
    }
    MonthAssignedIsLast(jd, 12);
    var m := month.value;
    var day;
    if jd > 31 {
      day := jd % CumulativeDays[m - 1];
    } else {
      day := jd;
    }
    GetDateArithmetic(jd);
    r := Some((m, day));
  }

  /**
   * On every day of the year get_date gives a real month and day, jd days into the year: the
   * date of slot jd - 1 of the annual cube.
   */
  lemma DayOfYearValid(year: int, jd: int)
    requires 1 <= jd <= DaysPerNoLeapYear
    ensures DayOfYear(jd).Some?
    ensures var (m, d) := DayOfYear(jd).value;
            && 1 <= m <= 12 && 1 <= d <= NoLeapMonthLength(m) && CumulativeDays[m - 1] + d == jd
            && Date(year, m, d) == NoLeapDate(year, jd - 1)
  {
    NoLeapMonthDayValid(jd);
  }

  /** Without an upper check day 366 comes out as 32 December. */
  lemma DayOfYearPastEnd()
    ensures DayOfYear(366) == Some((12, 32))
  {
  }

  // ----- get_date_time_index -----

  const TwoDigitTable: seq<string> := ["00", "01", "02", "03", "04", "05", "06", "07", "08", "09"]

  /**
   * The padding of get_date_time_index: below 10 the table entry (a negative n indexes from the
   * end of the table, below -10 it raises IndexError), otherwise str(n).
   */
  function Padded(n: int): Option<string>
  {
    if n < 10 then
      match PyIndex(n, |TwoDigitTable|)
      case None => None
      case Some(k) => Some(TwoDigitTable[k])
    else Some(IntToString(n))
  }

  /** The start of the pd.date_range of a day: "year-month-day" with padded month and day. */
  function DateRangeStart(year: int, month: int, day: int): Option<string>
  {
    match (Padded(month), Padded(day))
    case (Some(sm), Some(sd)) => Some(IntToString(year) + "-" + sm + "-" + sd)
    case _ => None
  }

  /** Every number below 100 is padded to its two decimal digits. */
  lemma PaddedTwoDigits(n: int)
    requires 0 <= n < 100
    ensures Padded(n) == Some(TwoDigits(n))
  {
    if n < 10 {
      assert PyIndex(n, |TwoDigitTable|) == Some(n);
      assert TwoDigits(n) == [DigitChar(0), DigitChar(n)];
      assert TwoDigitTable[n] == ['0', DigitChar(n)];
    } else {
      var a, b := n / 10, n % 10;
      assert 1 <= a < 10;
      assert NatToString(a) == [DigitChar(a)];
      assert IntToString(n) == NatToString(a) + [DigitChar(b)];
      assert TwoDigits(n) == [DigitChar(a), DigitChar(b)];
      assert [DigitChar(a)] + [DigitChar(b)] == [DigitChar(a), DigitChar(b)];
    }
  }

  /**
   * A day of the year starts its date range at the ten-character "YYYY-MM-DD" whose three digit
   * fields read back as the year, the month and the day.
   */
  lemma DateRangeStartOfDay(year: int, jd: int)
    requires 1000 <= year <= 9999 && 1 <= jd <= DaysPerNoLeapYear
    ensures var (m, d) := DayOfYear(jd).value;
            && DateRangeStart(year, m, d).Some?
            && var s := DateRangeStart(year, m, d).value;
            && |s| == 10 && s[4] == '-' && s[7] == '-'
            && AllDigits(s[..4]) && AllDigits(s[5..7]) && AllDigits(s[8..])
            && DigitsValue(s[..4]) == year && DigitsValue(s[5..7]) == m && DigitsValue(s[8..]) == d
  {
    DayOfYearValid(year, jd);
    var (m, d) := DayOfYear(jd).value;
    PaddedTwoDigits(m);
    PaddedTwoDigits(d);
    FourDigitYear(year);
    NatToStringRoundTrip(year);
    var s := DateRangeStart(year, m, d).value;
    assert s == IntToString(year) + "-" + TwoDigits(m) + "-" + TwoDigits(d);
    assert s[..4] == IntToString(year);
    assert s[5..7] == TwoDigits(m);
    assert s[8..] == TwoDigits(d);
  }

  /**
   * pd.date_range(start, periods=24, freq='H') reads the start as a calendar date and raises
   * ValueError when it is none (32 December, or day 0 of a month) and OutOfBoundsDatetime when
   * its 24 hours leave pandas' nanosecond timestamps, 1677-09-21 00:12:43 to 2262-04-11 23:47:16.
   */
  predicate DateRangeParses(year: int, month: int, day: int)
  {
    && ValidDate(Date(year, month, day))
    && 16770922 <= year * 10000 + month * 100 + day <= 22620411
  }

  /** Day jd (counted from 0) of main's day loop: get_date(jd + 1) names a start pd.date_range accepts. */
  predicate DayDated(year: int, jd: nat)
  {
    var (month, day) := DayOfYear(jd + 1).value;
    DateRangeParses(year, month, day)
  }

  /** The first of the first n days whose get_dni_dhi raises in pd.date_range, if any. */
  function FirstUndated(year: int, n: nat): (r: Option<nat>)
    ensures r.None? <==> forall jd :: 0 <= jd < n ==> DayDated(year, jd)
    ensures r.Some? ==> r.value < n && !DayDated(year, r.value)
    ensures r.Some? ==> forall jd :: 0 <= jd < r.value ==> DayDated(year, jd)
  {
    if n == 0 then None
    else
      match FirstUndated(year, n - 1)
      case Some(jd) => Some(jd)
      case None => if DayDated(year, n - 1) then None else Some(n - 1)
  }

  /** Once a day fails, every longer run of the loop fails at that same day. */
  lemma FirstUndatedStays(year: int, k: nat, n: nat)
    requires k <= n && FirstUndated(year, k).Some?
    ensures FirstUndated(year, n) == FirstUndated(year, k)
  {
    var j := FirstUndated(year, k).value;
    assert !DayDated(year, j);
    var v := FirstUndated(year, n).value;
    assert !DayDated(year, v);
  }

  /**
   * In every year pandas can represent in full, days 1 to 365 have a date range and day 366,
   * get_date's 32 December, is the first that does not: a series of more than 365 days stops the
   * loop at day index 365.
   */
  lemma UndatedPastYearEnd(year: int, n: nat)
    requires 1678 <= year <= 2261
    ensures FirstUndated(year, n) == if n <= DaysPerNoLeapYear then None else Some(DaysPerNoLeapYear)
  {
    forall jd | 0 <= jd < DaysPerNoLeapYear
      ensures DayDated(year, jd)
    {
      DayOfYearValid(year, jd + 1);
      NoLeapDateOfSlot(year, jd);
    }
    assert DayOfYear(DaysPerNoLeapYear + 1) == Some((12, 32));
    assert !DayDated(year, DaysPerNoLeapYear);
    if n > DaysPerNoLeapYear {
      var v := FirstUndated(year, n).value;
      assert !DayDated(year, v);
    }
  }

  // ----- get_data -----

  /** The variables get_data reads, in its order (V10M is read twice). */
  const DataReads: seq<string> := ["SWGDN", "V10M", "U2M", "V2M", "U10M", "V10M", "U50M", "V50M", "T2M", "PS"]

  /** What a read of merra_data.variables[name][latLon, :, :] raises: KeyError, or IndexError past the end. */
  datatype DataError = MissingVariable(name: string) | CellOutOfRange(name: string, latLon: int)

  /**
   * What one cell of main raises: get_data's read error; pd.date_range on get_date(jd)'s month
   * and day; or write_cord's slice assignment of a solar or wind series whose length is not the
   * slot's.
   */
  datatype CellError =
    | DataUnreadable(error: DataError)
    | NoDateRange(jd: int, month: int, day: int)
    | SolarSlotMismatch(length: nat)
    | WindSlotMismatch(length: nat)

  /**
   * The processed annual file as the driver opens it: its dimensions (latLong, day, hour) and its
   * variables by name.
   */
  datatype ProcessedFile = ProcessedFile(latLongs: nat, days: nat, hours: nat, variables: map<string, Var3>)

  /** Every variable of the file is a cube on the file's three dimensions. */
  predicate SharedShape(merra: ProcessedFile)
  {
    forall name :: name in merra.variables ==> HasShape(merra.variables[name], merra.latLongs, merra.days, merra.hours)
  }

  /** The flat cell index of get_data: latitude * num_lons + longitude. */
  function CellIndex(latitude: nat, longitude: nat, numLons: nat): nat
  {
    FlatIndex(latitude, longitude, numLons)
  }

  /** get_data's latLon for a longitude that may be negative, as a resumed run can pass. */
  function LatLon(latitude: nat, longitude: int, numLons: nat): int
  {
    latitude * numLons + longitude
  }

  /**
   * The file row variables[name][latLon, :, :] reads: every variable has the file's latLong
   * rows, and a negative latLon counts from the end, as Python's indexing does.
   */
  function DataRow(merra: ProcessedFile, latitude: nat, longitude: int, numLons: nat): Option<nat>
  {
    PyIndex(LatLon(latitude, longitude, numLons), merra.latLongs)
  }

  /** A longitude of 0 or more gives the row-major cell index, when that is a row of the file. */
  lemma DataRowOfCell(merra: ProcessedFile, latitude: nat, longitude: nat, numLons: nat)
    ensures CellIndex(latitude, longitude, numLons) < merra.latLongs
            ==> DataRow(merra, latitude, longitude, numLons) == Some(CellIndex(latitude, longitude, numLons))
    ensures CellIndex(latitude, longitude, numLons) >= merra.latLongs ==> DataRow(merra, latitude, longitude, numLons).None?
  {
  }

  /**
   * variables[name][latLon, :, :], squeezed and reshaped to its size: the cell's days laid end to
   * end, hour by hour.
   */
  function CellSeries(x: Var3, k: nat): (s: seq<real>)
    requires WellFormed(x) && k < x.n0
    ensures |s| == x.n1 * x.n2
  {
    seq(x.n1 * x.n2, i requires 0 <= i < x.n1 * x.n2 =>
      FlatIndexSplit(i, x.n1, x.n2);
      x.cells[k][i / x.n2][i % x.n2])
  }

  /** Hour t of day d of a cell sits at position d * hours + t of its series. */
  lemma CellSeriesAt(x: Var3, k: nat, d: nat, t: nat)
    requires WellFormed(x) && k < x.n0 && d < x.n1 && t < x.n2
    ensures FlatIndex(d, t, x.n2) < |CellSeries(x, k)|
    ensures CellSeries(x, k)[FlatIndex(d, t, x.n2)] == At(x, k, d, t)
  {
    FlatIndexRange(d, t, x.n1, x.n2);
    FlatIndexInverse(d, t, x.n2);
  }

  predicate Readable(merra: ProcessedFile, name: string, k: nat)
  {
    name in merra.variables && k < merra.variables[name].n0
  }

  function ReadError(merra: ProcessedFile, name: string, k: int): DataError
  {
    if name !in merra.variables then MissingVariable(name) else CellOutOfRange(name, k)
  }

  /**
   * The reads of get_data in their order, all of cell k: each variable's series, or the error of
   * the first read that fails.
   */
  function ReadSeries(merra: ProcessedFile, names: seq<string>, k: nat): (r: Result<seq<seq<real>>, DataError>)
    requires SharedShape(merra)
    ensures r.Ok? <==> forall i :: 0 <= i < |names| ==> Readable(merra, names[i], k)
    ensures r.Ok? ==> |r.value| == |names|
                      && forall i :: 0 <= i < |names| ==> r.value[i] == CellSeries(merra.variables[names[i]], k)
    ensures r.Err? ==> exists i :: 0 <= i < |names| && !Readable(merra, names[i], k)
                                   && (forall j :: 0 <= j < i ==> Readable(merra, names[j], k))
                                   && r.error == ReadError(merra, names[i], k)
  {
    if names == [] then Ok([])
    else if !Readable(merra, names[0], k) then Err(ReadError(merra, names[0], k))
    else
      var rest := ReadSeries(merra, names[1..], k);
      assert forall i :: 0 < i < |names| ==> names[i] == names[1..][i - 1];
      match rest
      case Err(e) =>
        FirstFailureShift(merra, names, k, e);
        Err(e)
      case Ok(series) => Ok([CellSeries(merra.variables[names[0]], k)] + series)
  }

  /** A first failing read among names[1..] is the first failing read of names when names[0] succeeds. */
  lemma FirstFailureShift(merra: ProcessedFile, names: seq<string>, k: nat, e: DataError)
    requires names != [] && Readable(merra, names[0], k)
    requires exists i :: 0 <= i < |names[1..]| && !Readable(merra, names[1..][i], k)
                         && (forall j :: 0 <= j < i ==> Readable(merra, names[1..][j], k))
                         && e == ReadError(merra, names[1..][i], k)
    ensures exists i :: 0 <= i < |names| && !Readable(merra, names[i], k)
                        && (forall j :: 0 <= j < i ==> Readable(merra, names[j], k))
                        && e == ReadError(merra, names[i], k)
  {
    var i :| 0 <= i < |names[1..]| && !Readable(merra, names[1..][i], k)
             && (forall j :: 0 <= j < i ==> Readable(merra, names[1..][j], k))
             && e == ReadError(merra, names[1..][i], k);
    assert forall j :: 0 < j <= i ==> names[j] == names[1..][j - 1];
    assert names[i + 1] == names[1..][i];
  }

  /** The seven series get_data returns for one cell. */
  datatype CellData = CellData(ghi: seq<real>, temperature: seq<real>, pressure: seq<real>,
                               windSpeed2: seq<real>, windSpeed10: seq<real>, windSpeed50: seq<real>,
                               windDirection: seq<real>)

  const PascalPerAtmosphere: real := 101325.0
  const ZeroCelsiusInKelvin: real := 273.15

  function Minus(xs: seq<real>, c: real): (ys: seq<real>)
    ensures |ys| == |xs| && forall i :: 0 <= i < |xs| ==> ys[i] == xs[i] - c
  {
    seq(|xs|, i requires 0 <= i < |xs| => xs[i] - c)
  }

  function Over(xs: seq<real>, c: real): (ys: seq<real>)
    requires c != 0.0
    ensures |ys| == |xs| && forall i :: 0 <= i < |xs| ==> ys[i] == xs[i] / c
  {
    seq(|xs|, i requires 0 <= i < |xs| => xs[i] / c)
  }

  /** (v ** 2 + u ** 2) ** .5, entry by entry. */
  function Speed(m: MathLib, v: seq<real>, u: seq<real>): (ys: seq<real>)
    requires |v| == |u|
    ensures |ys| == |v| && forall i :: 0 <= i < |v| ==> ys[i] == m.sqrt(Sq(v[i]) + Sq(u[i]))
  {
    seq(|v|, i requires 0 <= i < |v| => m.sqrt(Sq(v[i]) + Sq(u[i])))
  }

  /**
   * get_data(latitude, longitude, num_lons, merra_data): the ten reads, then the unit conversions.
   * It succeeds exactly when latLon names a row of the file and all ten variables are there, and
   * then gives the series of those variables at that row; a latLon outside the file fails on the
   * first read.
   */
  function GetData(m: MathLib, latitude: nat, longitude: int, numLons: nat, merra: ProcessedFile)
    : (r: Result<CellData, DataError>)
    requires SharedShape(merra)
    ensures var row := DataRow(merra, latitude, longitude, numLons);
            && (r.Ok? <==> row.Some? && AllReadable(merra, row.value))
            && (r.Ok? ==> r.value == CellDataOf(m, merra, row.value))
            && (row.None? ==> r == Err(ReadError(merra, DataReads[0], LatLon(latitude, longitude, numLons))))
  {
    DataReadsNames();
    var k :- RowOf(merra, latitude, longitude, numLons);
    var s :- ReadSeries(merra, DataReads, k);
    assert forall i :: 0 <= i < |DataReads| ==> |s[i]| == |s[0]|;
    Ok(CellData(s[0], Minus(s[8], ZeroCelsiusInKelvin), Over(s[9], PascalPerAtmosphere),
                Speed(m, s[3], s[2]), Speed(m, s[5], s[4]), Speed(m, s[7], s[6]),
                DirectionSeries(m, s[6], s[7])))
  }

  /** The row of latLon, or the error of get_data's first read when latLon is outside the file. */
  function RowOf(merra: ProcessedFile, latitude: nat, longitude: int, numLons: nat): Result<nat, DataError>
  {
    match DataRow(merra, latitude, longitude, numLons)
    case Some(k) => Ok(k)
    case None => Err(ReadError(merra, DataReads[0], LatLon(latitude, longitude, numLons)))
  }

  /** All ten reads of get_data succeed on cell k. */
  predicate AllReadable(merra: ProcessedFile, k: nat)
  {
    && Readable(merra, "SWGDN", k) && Readable(merra, "V10M", k) && Readable(merra, "U2M", k)
    && Readable(merra, "V2M", k) && Readable(merra, "U10M", k) && Readable(merra, "U50M", k)
    && Readable(merra, "V50M", k) && Readable(merra, "T2M", k) && Readable(merra, "PS", k)
  }

  /** What get_data computes from the variables looked up by name rather than by read position. */
  function CellDataOf(m: MathLib, merra: ProcessedFile, k: nat): CellData
    requires SharedShape(merra) && AllReadable(merra, k)
  {
    CellData(CellSeries(merra.variables["SWGDN"], k),
             Minus(CellSeries(merra.variables["T2M"], k), ZeroCelsiusInKelvin),
             Over(CellSeries(merra.variables["PS"], k), PascalPerAtmosphere),
             Speed(m, CellSeries(merra.variables["V2M"], k), CellSeries(merra.variables["U2M"], k)),
             Speed(m, CellSeries(merra.variables["V10M"], k), CellSeries(merra.variables["U10M"], k)),
             Speed(m, CellSeries(merra.variables["V50M"], k), CellSeries(merra.variables["U50M"], k)),
             DirectionSeries(m, CellSeries(merra.variables["U50M"], k), CellSeries(merra.variables["V50M"], k)))
  }

  lemma DataReadsNames()
    ensures DataReads[0] == "SWGDN" && DataReads[1] == "V10M" && DataReads[2] == "U2M"
    ensures DataReads[3] == "V2M" && DataReads[4] == "U10M" && DataReads[5] == "V10M"
    ensures DataReads[6] == "U50M" && DataReads[7] == "V50M" && DataReads[8] == "T2M" && DataReads[9] == "PS"
  {
  }

  /**
   * get_data succeeds exactly when latLon names a row of the file and the file has all ten
   * variables, and then computes its series from the variables of those names at that row;
   * otherwise the error is that of the first read in get_data's order that fails: the first
   * read when latLon is outside the file, else the first variable missing.
   */
  lemma GetDataResult(m: MathLib, latitude: nat, longitude: int, numLons: nat, merra: ProcessedFile)
    requires SharedShape(merra)
    ensures var row := DataRow(merra, latitude, longitude, numLons);
            var r := GetData(m, latitude, longitude, numLons, merra);
            && (r.Ok? <==> row.Some? && AllReadable(merra, row.value))
            && (r.Ok? ==> r.value == CellDataOf(m, merra, row.value))
            && (row.None? ==> r == Err(ReadError(merra, DataReads[0], LatLon(latitude, longitude, numLons))))
            && (row.Some? && r.Err? ==>
                  exists i :: 0 <= i < |DataReads| && !Readable(merra, DataReads[i], row.value)
                              && (forall j :: 0 <= j < i ==> Readable(merra, DataReads[j], row.value))
                              && r.error == ReadError(merra, DataReads[i], row.value))
  {
    var row := DataRow(merra, latitude, longitude, numLons);
    if row.Some? {
      var series := ReadSeries(merra, DataReads, row.value);
    }
  }

  /**
   * Hour by hour, get_data gives the shortwave flux, the temperature in degrees Celsius, the
   * pressure in atmospheres, the wind speed at each height and the direction at 50 m.
   */
  lemma CellDataMeaning(m: MathLib, merra: ProcessedFile, k: nat)
    requires SharedShape(merra) && AllReadable(merra, k)
    ensures var c := CellDataOf(m, merra, k);
            var hours := merra.variables["SWGDN"].n1 * merra.variables["SWGDN"].n2;
            && |c.ghi| == |c.temperature| == |c.pressure| == hours
            && |c.windSpeed2| == |c.windSpeed10| == |c.windSpeed50| == |c.windDirection| == hours
            && forall i :: 0 <= i < hours ==>
                 && c.ghi[i] == CellSeries(merra.variables["SWGDN"], k)[i]
                 && c.temperature[i] == CellSeries(merra.variables["T2M"], k)[i] - 273.15
                 && c.pressure[i] == CellSeries(merra.variables["PS"], k)[i] / 101325.0
                 && c.windSpeed2[i] == m.sqrt(Sq(CellSeries(merra.variables["V2M"], k)[i]) + Sq(CellSeries(merra.variables["U2M"], k)[i]))
                 && c.windSpeed10[i] == m.sqrt(Sq(CellSeries(merra.variables["V10M"], k)[i]) + Sq(CellSeries(merra.variables["U10M"], k)[i]))
                 && c.windSpeed50[i] == m.sqrt(Sq(CellSeries(merra.variables["V50M"], k)[i]) + Sq(CellSeries(merra.variables["U50M"], k)[i]))
                 && c.windDirection[i] == Direction(m, CellSeries(merra.variables["U50M"], k)[i], CellSeries(merra.variables["V50M"], k)[i])
  {
  }

  function Sq(x: real): real { x * x }

  // ----- the day loop of main -----

  /** Python's xs[lo:hi] for 0 <= lo: both ends are cut back to the sequence. */
  function Slice(xs: seq<real>, lo: nat, hi: nat): (ys: seq<real>)
    ensures lo <= hi <= |xs| ==> ys == xs[lo..hi]
    ensures |ys| <= |xs|
  {
    var h := if hi <= |xs| then hi else |xs|;
    if lo >= h then [] else xs[lo..h]
  }

  /** The hours of day jd (counted from 0): xs[jd*24:(jd+1)*24]. */
  function DaySlice(xs: seq<real>, jd: nat): seq<real>
  {
    Slice(xs, jd * HoursPerDay, (jd + 1) * HoursPerDay)
  }

  /** A day that lies within the series gets its 24 hours. */
  lemma DaySliceHours(xs: seq<real>, jd: nat)
    requires (jd + 1) * HoursPerDay <= |xs|
    ensures |DaySlice(xs, jd)| == HoursPerDay
    ensures forall h :: 0 <= h < HoursPerDay ==> DaySlice(xs, jd)[h] == xs[jd * HoursPerDay + h]
  {
  }

  /**
   * get_dni_dhi(year, jd, month, day, latitude, longitude, ghi): the solar position of pvlib and
   * its DIRINT model, taken as given; a day's DNI and DHI series.
   */
  type SolarSplit = (int, int, int, int, real, real, seq<real>) -> (seq<real>, seq<real>)

  /** The split yields at least one value per hour of the day. */
  ghost predicate Hourly(split: SolarSplit)
  {
    forall year, jd, month, day, lat, lon, ghi ::
      |split(year, jd, month, day, lat, lon, ghi).0| >= HoursPerDay
      && |split(year, jd, month, day, lat, lon, ghi).1| >= HoursPerDay
  }

  /** The 24 rows of day jd (counted from 0): dated by get_date(jd + 1), DNI and DHI from the split. */
  function SolarDay(split: SolarSplit, year: int, lat: real, lon: real, ghi: seq<real>,
                    windSpeed: seq<real>, temperature: seq<real>, jd: nat): seq<Row>
    requires Hourly(split) && (jd + 1) * HoursPerDay <= |windSpeed| && (jd + 1) * HoursPerDay <= |temperature|
  {
    var (month, day) := DayOfYear(jd + 1).value;
    var (dni, dhi) := split(year, jd + 1, month, day, lat, lon, DaySlice(ghi, jd));
    DaySliceHours(windSpeed, jd);
    DaySliceHours(temperature, jd);
    DayRows(year, month, day, dni, dhi, DaySlice(windSpeed, jd), DaySlice(temperature, jd))
  }

  /** The rows the day loop appends to the solar CSV for the first n days of the series. */
  function SolarDays(split: SolarSplit, year: int, lat: real, lon: real, ghi: seq<real>,
                     windSpeed: seq<real>, temperature: seq<real>, n: nat): (rows: seq<Row>)
    requires Hourly(split) && n * HoursPerDay <= |windSpeed| && n * HoursPerDay <= |temperature|
    ensures |rows| == n * HoursPerDay
  {
    if n == 0 then []
    else
      SolarDayHours(split, year, lat, lon, ghi, windSpeed, temperature, n - 1);
      SolarDays(split, year, lat, lon, ghi, windSpeed, temperature, n - 1)
      + SolarDay(split, year, lat, lon, ghi, windSpeed, temperature, n - 1)
  }

  /** A day contributes one row per hour. */
  lemma SolarDayHours(split: SolarSplit, year: int, lat: real, lon: real, ghi: seq<real>,
                      windSpeed: seq<real>, temperature: seq<real>, jd: nat)
    requires Hourly(split) && (jd + 1) * HoursPerDay <= |windSpeed| && (jd + 1) * HoursPerDay <= |temperature|
    ensures |SolarDay(split, year, lat, lon, ghi, windSpeed, temperature, jd)| == HoursPerDay
  {
    var (month, day) := DayOfYear(jd + 1).value;
    var (dni, dhi) := split(year, jd + 1, month, day, lat, lon, DaySlice(ghi, jd));
    DaySliceHours(windSpeed, jd);
    DaySliceHours(temperature, jd);
    DayRowsLayout(year, month, day, dni, dhi, DaySlice(windSpeed, jd), DaySlice(temperature, jd));
  }

  /** The error the day loop stops with at day jd (counted from 0): get_dni_dhi(year, jd + 1, month, day, ...). */
  function UndatedError(jd: nat): CellError
  {
    var (month, day) := DayOfYear(jd + 1).value;
    NoDateRange(jd + 1, month, day)
  }

  /**
   * One pass of the day loop: get_date, then get_dni_dhi, whose pd.date_range raises before any
   * row is written when the day has no date range, and write_day2csv for day jd.
   */
  method WriteSolarDay(f: ResourceFile, split: SolarSplit, year: int, lat: real, lon: real, ghi: seq<real>,
                       windSpeed: seq<real>, temperature: seq<real>, jd: nat)
    returns (dated: bool)
    requires Hourly(split) && (jd + 1) * HoursPerDay <= |windSpeed| && (jd + 1) * HoursPerDay <= |temperature|
    requires (jd + 1) * HoursPerDay <= |ghi|
    modifies f
    ensures dated == DayDated(year, jd)
    ensures f.rows == old(f.rows) + if dated then SolarDay(split, year, lat, lon, ghi, windSpeed, temperature, jd) else []
  {
    var date := GetDate(jd + 1);
    var (month, day) := date.value;
    if !DateRangeParses(year, month, day) {
      assert f.rows == old(f.rows) + [];
      return false;
    }
    var (dni, dhi) := split(year, jd + 1, month, day, lat, lon, DaySlice(ghi, jd));
    DaySliceHours(windSpeed, jd);
    DaySliceHours(temperature, jd);
    WriteDay2Csv(f, year, month, day, dni, dhi, DaySlice(windSpeed, jd), DaySlice(temperature, jd));
    dated := true;
  }

  /**
   * The day loop of main over every whole day of the GHI series. It stops at the first day
   * without a date range, with the rows of the days before it written.
   */
  method WriteSolarDays(f: ResourceFile, split: SolarSplit, year: int, lat: real, lon: real, ghi: seq<real>,
                        windSpeed: seq<real>, temperature: seq<real>)
    returns (r: Result<(), CellError>)
    requires Hourly(split) && |windSpeed| >= |ghi| && |temperature| >= |ghi|
    modifies f
    ensures var n := |ghi| / HoursPerDay;
            match FirstUndated(year, n)
            case None =>
              r == Ok(()) && f.rows == old(f.rows) + SolarDays(split, year, lat, lon, ghi, windSpeed, temperature, n)
            case Some(jd) =>
              r == Err(UndatedError(jd))
              && f.rows == old(f.rows) + SolarDays(split, year, lat, lon, ghi, windSpeed, temperature, jd)
  {
    var n := |ghi| / HoursPerDay;
    for jd := 0 to n
      invariant FirstUndated(year, jd).None?
      invariant f.rows == old(f.rows) + SolarDays(split, year, lat, lon, ghi, windSpeed, temperature, jd)
    {
      assert (jd + 1) * HoursPerDay <= |ghi|;
      ghost var done := SolarDays(split, year, lat, lon, ghi, windSpeed, temperature, jd);
      var dated := WriteSolarDay(f, split, year, lat, lon, ghi, windSpeed, temperature, jd);
      if !dated {
        assert FirstUndated(year, jd + 1) == Some(jd);
        FirstUndatedStays(year, jd + 1, n);
        assert f.rows == old(f.rows) + done;
        return Err(UndatedError(jd));
      }
      ghost var today := SolarDay(split, year, lat, lon, ghi, windSpeed, temperature, jd);
      SolarDaysSnoc(split, year, lat, lon, ghi, windSpeed, temperature, jd);
      RowsAssoc(old(f.rows), done, today);
    }
    r := Ok(());
  }

  /** Appending rows in two steps is appending them at once. */
  lemma RowsAssoc(a: seq<Row>, b: seq<Row>, c: seq<Row>)
    ensures a + b + c == a + (b + c)
  {
  }

  /** The first jd + 1 days are the first jd days and then day jd. */
  lemma {:induction false} SolarDaysSnoc(split: SolarSplit, year: int, lat: real, lon: real, ghi: seq<real>,
                                        windSpeed: seq<real>, temperature: seq<real>, jd: nat)
    requires Hourly(split) && (jd + 1) * HoursPerDay <= |windSpeed| && (jd + 1) * HoursPerDay <= |temperature|
    ensures SolarDays(split, year, lat, lon, ghi, windSpeed, temperature, jd + 1)
         == SolarDays(split, year, lat, lon, ghi, windSpeed, temperature, jd)
            + SolarDay(split, year, lat, lon, ghi, windSpeed, temperature, jd)
  {
    MulMonotone(jd, jd + 1, HoursPerDay);
    var n: nat := jd + 1;
    assert n - 1 == jd;
    assert SolarDays(split, year, lat, lon, ghi, windSpeed, temperature, n)
        == SolarDays(split, year, lat, lon, ghi, windSpeed, temperature, n - 1)
           + SolarDay(split, year, lat, lon, ghi, windSpeed, temperature, n - 1);
  }

  /**
   * Row r of the day rows is hour r % 24 of day r / 24: it carries get_date(r / 24 + 1) and entry
   * r of the wind speed and temperature series.
   */
  lemma {:induction false} SolarDaysRow(split: SolarSplit, year: int, lat: real, lon: real, ghi: seq<real>,
                                        windSpeed: seq<real>, temperature: seq<real>, n: nat, r: nat)
    requires Hourly(split) && n * HoursPerDay <= |windSpeed| && n * HoursPerDay <= |temperature|
    requires r < n * HoursPerDay
    ensures DayOfYear(r / HoursPerDay + 1).Some?
    ensures var rows := SolarDays(split, year, lat, lon, ghi, windSpeed, temperature, n);
            var (month, day) := DayOfYear(r / HoursPerDay + 1).value;
            && |rows[r]| == |SolarDataColumns|
            && rows[r][..4] == [Int(year), Int(month), Int(day), Int(r % HoursPerDay)]
            && rows[r][6] == Num(windSpeed[r]) && rows[r][7] == Num(temperature[r])
  {
    var jd := n - 1;
    if r < jd * HoursPerDay {
      SolarDaysRow(split, year, lat, lon, ghi, windSpeed, temperature, jd, r);
      SolarDaysEarlier(split, year, lat, lon, ghi, windSpeed, temperature, n, jd, r);
    } else {
      var h := r - jd * HoursPerDay;
      assert r / HoursPerDay == jd && r % HoursPerDay == h;
      SolarDaysLast(split, year, lat, lon, ghi, windSpeed, temperature, n, jd, h, r);
    }
  }

  /** A row of the first n - 1 days is kept when day n is appended. */
  lemma SolarDaysEarlier(split: SolarSplit, year: int, lat: real, lon: real, ghi: seq<real>,
                         windSpeed: seq<real>, temperature: seq<real>, n: nat, jd: nat, r: nat)
    requires Hourly(split) && n * HoursPerDay <= |windSpeed| && n * HoursPerDay <= |temperature|
    requires n > 0 && jd == n - 1 && r < jd * HoursPerDay
    ensures r < |SolarDays(split, year, lat, lon, ghi, windSpeed, temperature, jd)|
    ensures SolarDays(split, year, lat, lon, ghi, windSpeed, temperature, n)[r]
         == SolarDays(split, year, lat, lon, ghi, windSpeed, temperature, jd)[r]
  {
    var rows := SolarDays(split, year, lat, lon, ghi, windSpeed, temperature, n);
    var earlier := SolarDays(split, year, lat, lon, ghi, windSpeed, temperature, jd);
    var (month, day) := DayOfYear(jd + 1).value;
    var (dni, dhi) := split(year, jd + 1, month, day, lat, lon, DaySlice(ghi, jd));
    var today := DayRows(year, month, day, dni, dhi, DaySlice(windSpeed, jd), DaySlice(temperature, jd));
    assert rows == earlier + today;
  }

  /** Hour h of the last day n - 1 is row jd * 24 + h, with that day's date. */
  lemma SolarDaysLast(split: SolarSplit, year: int, lat: real, lon: real, ghi: seq<real>,
                      windSpeed: seq<real>, temperature: seq<real>, n: nat, jd: nat, h: nat, r: nat)
    requires Hourly(split) && n * HoursPerDay <= |windSpeed| && n * HoursPerDay <= |temperature|
    requires n > 0 && jd == n - 1 && h < HoursPerDay && r == jd * HoursPerDay + h
    ensures DayOfYear(jd + 1).Some?
    ensures var rows := SolarDays(split, year, lat, lon, ghi, windSpeed, temperature, n);
            var (month, day) := DayOfYear(jd + 1).value;
            && r < |rows| && |rows[r]| == |SolarDataColumns|
            && rows[r][..4] == [Int(year), Int(month), Int(day), Int(h)]
            && rows[r][6] == Num(windSpeed[r]) && rows[r][7] == Num(temperature[r])
  {
    var rows := SolarDays(split, year, lat, lon, ghi, windSpeed, temperature, n);
    var earlier := SolarDays(split, year, lat, lon, ghi, windSpeed, temperature, jd);
    var (month, day) := DayOfYear(jd + 1).value;
    var (dni, dhi) := split(year, jd + 1, month, day, lat, lon, DaySlice(ghi, jd));
    var today := DayRows(year, month, day, dni, dhi, DaySlice(windSpeed, jd), DaySlice(temperature, jd));
    assert rows == earlier + today;
    DaySliceHours(windSpeed, jd);
    DaySliceHours(temperature, jd);
    DayRowsLayout(year, month, day, dni, dhi, DaySlice(windSpeed, jd), DaySlice(temperature, jd));
    assert rows[r] == today[h];
    assert today[h][..4] == today[h][..3] + [today[h][3]];
  }

  // ----- the log file -----

  /**
   * The longitude main resumes at after reading the log's lines: int(line) + 1 of the last line,
   * 0 when there is none; Err holds the first line int() rejects with ValueError.
   */
  function ResumeOf(lines: seq<string>): (r: Result<int, string>)
    ensures lines == [] ==> r == Ok(0)
    ensures r.Ok? && lines != [] ==> ParseInt(lines[|lines| - 1]) == Some(r.value - 1)
    ensures r.Err? ==> r.error in lines && ParseInt(r.error).None?
    decreases |lines|
  {
    if lines == [] then Ok(0)
    else
      match ResumeOf(lines[..|lines| - 1])
      case Err(e) => Err(e)
      case Ok(_) =>
        match ParseInt(lines[|lines| - 1])
        case None => Err(lines[|lines| - 1])
        case Some(v) => Ok(v + 1)
  }

  /** The longitude a run starts at: 0 without a log file, otherwise read from the log's lines. */
  function Resume(log: Option<string>): (r: Result<int, string>)
    ensures log.None? ==> r == Ok(0)
    ensures r.Err? ==> log.Some? && r.error in Lines(log.value) && ParseInt(r.error).None?
  {
    if log.None? then Ok(0) else ResumeOf(Lines(log.value))
  }

  /** Once int() has rejected a line, the lines after it do not matter: the run has failed. */
  lemma {:induction false} ResumeOfFailed(lines: seq<string>, i: nat)
    requires i <= |lines| && ResumeOf(lines[..i]).Err?
    ensures ResumeOf(lines) == ResumeOf(lines[..i])
    decreases |lines| - i
  {
    if i < |lines| {
      assert lines[..i + 1][..i] == lines[..i];
      assert ResumeOf(lines[..i + 1]) == ResumeOf(lines[..i]);
      ResumeOfFailed(lines, i + 1);
    } else {
      assert lines[..i] == lines;
    }
  }

  /** The resume step of main: the loop over the log's lines, each overwriting longitude. */
  method ResumeLongitude(log: Option<string>) returns (r: Result<int, string>)
    ensures r == Resume(log)
  {
    if log.None? {
      return Ok(0);
    }
    var lines := Lines(log.value);
    var longitude := 0;
    for i := 0 to |lines|
      invariant ResumeOf(lines[..i]) == Ok(longitude)
    {
      assert lines[..i + 1] == lines[..i] + [lines[i]];
      ResumeOfSnoc(lines[..i], lines[i]);
      var v := ParseInt(lines[i]);
      if v.None? {
        ResumeOfFailed(lines, i + 1);
        return Err(lines[i]);
      }
      longitude := v.value + 1;
    }
    assert lines[..|lines|] == lines;
    r := Ok(longitude);
  }

  /**
   * Reading the log succeeds exactly when every line is an integer, and then resumes one past
   * the last; otherwise the error is the first line that is not.
   */
  lemma {:induction false} ResumeOfMeaning(lines: seq<string>)
    ensures ResumeOf(lines).Ok? <==> forall i :: 0 <= i < |lines| ==> ParseInt(lines[i]).Some?
    ensures ResumeOf(lines).Ok? ==>
              ResumeOf(lines).value == if lines == [] then 0 else ParseInt(lines[|lines| - 1]).value + 1
    ensures ResumeOf(lines).Err? ==>
              exists i :: 0 <= i < |lines| && ParseInt(lines[i]).None? && ResumeOf(lines).error == lines[i]
                          && forall j :: 0 <= j < i ==> ParseInt(lines[j]).Some?
    decreases |lines|
  {
    if lines != [] {
      var last := |lines| - 1;
      var front := lines[..last];
      assert lines == front + [lines[last]];
      ResumeOfSnoc(front, lines[last]);
      ResumeOfMeaning(front);
      assert forall i :: 0 <= i < last ==> front[i] == lines[i];
    }
  }

  /** What main appends to the log: "%d\n" % longitude, then "done" after the last longitude. */
  function LogAppend(longitude: int, numLons: int): string
  {
    IntToString(longitude) + "\n" + (if longitude == numLons - 1 then "done" else "")
  }

  /** The log file after a run for longitude: the old text, if any, and what the run appends. */
  function Logged(log: Option<string>, longitude: int, numLons: int): string
  {
    (if log.Some? then log.value else "") + LogAppend(longitude, numLons)
  }

  /** The log after the runs for longitudes 0 to k - 1, one run each, starting without a log. */
  function RunLog(k: nat, numLons: int): Option<string>
  {
    if k == 0 then None else Some(Logged(RunLog(k - 1, numLons), k - 1, numLons))
  }

  lemma {:induction false} IntToStringNoNewline(i: int)
    ensures forall c :: 0 <= c < |IntToString(i)| ==> IntToString(i)[c] != '\n'
  {
    var s := IntToString(i);
    if i < 0 {
      assert forall c :: 0 < c < |s| ==> s[c] == NatToString(-i)[c - 1];
    }
  }

  /** Appending one line "%d\n" to a log that ends at a line boundary. */
  lemma AppendNumberLine(t: string, i: int)
    requires EndsWithNewline(t)
    ensures Lines(t + (IntToString(i) + "\n")) == Lines(t) + [IntToString(i) + "\n"]
    ensures EndsWithNewline(t + (IntToString(i) + "\n"))
  {
    IntToStringNoNewline(i);
    LinesOfOneLine(IntToString(i));
    LinesAppend(t, IntToString(i) + "\n");
  }

  /** Appending the line "%d\n" and then "done" to a log that ends at a line boundary. */
  lemma AppendLastLines(t: string, i: int)
    requires EndsWithNewline(t)
    ensures Lines(t + (IntToString(i) + "\n" + "done")) == Lines(t) + [IntToString(i) + "\n", "done"]
  {
    var line := IntToString(i) + "\n";
    IntToStringNoNewline(i);
    LinesOfOneLine(IntToString(i));
    LinesOfOneLine("done");
    LinesAppend(line, "done");
    LinesAppend(t, line + "done");
  }

  function LogText(log: Option<string>): string
  {
    if log.Some? then log.value else ""
  }

  /** Reading one more line: the run resumes one past it, unless int() rejects it or an earlier line. */
  lemma ResumeOfSnoc(lines: seq<string>, l: string)
    ensures ResumeOf(lines + [l]) == if ResumeOf(lines).Err? then ResumeOf(lines)
                                     else if ParseInt(l).None? then Err(l) else Ok(ParseInt(l).value + 1)
  {
    assert (lines + [l])[..|lines|] == lines;
  }

  /** A line "%d\n" after lines that int() accepts: the run resumes one past its number. */
  lemma ResumeOfNumberLine(lines: seq<string>, i: int)
    requires ResumeOf(lines).Ok?
    ensures ResumeOf(lines + [IntToString(i) + "\n"]) == Ok(i + 1)
  {
    ParseIntOfLine(i);
    ResumeOfSnoc(lines, IntToString(i) + "\n");
  }

  /** A line with a newline is not "done", so appending it adds no "done" line. */
  lemma NoDoneLineAfter(lines: seq<string>, line: string)
    requires !CheckForFinish.HasDoneLine(lines) && line != [] && line[|line| - 1] == '\n'
    ensures !CheckForFinish.HasDoneLine(lines + [line])
  {
    assert line != "done";
    assert forall j :: 0 <= j < |lines| ==> (lines + [line])[j] == lines[j];
  }

  /** A run that is not the last appends "%d\n": the next run resumes one past it, and still no line is "done". */
  lemma ResumeAfterLine(t: string, i: int)
    requires EndsWithNewline(t) && ResumeOf(Lines(t)).Ok? && !CheckForFinish.HasDoneLine(Lines(t))
    ensures var u := t + (IntToString(i) + "\n");
            && ResumeOf(Lines(u)) == Ok(i + 1) && !CheckForFinish.HasDoneLine(Lines(u)) && EndsWithNewline(u)
  {
    var line := IntToString(i) + "\n";
    AppendNumberLine(t, i);
    ResumeOfNumberLine(Lines(t), i);
    NoDoneLineAfter(Lines(t), line);
  }

  /** The last run appends "%d\n" and then "done": one more run would stop at the line "done". */
  lemma ResumeAfterLastLine(t: string, i: int)
    requires EndsWithNewline(t) && ResumeOf(Lines(t)).Ok?
    ensures var u := t + (IntToString(i) + "\n" + "done");
            && ResumeOf(Lines(u)) == Err("done") && CheckForFinish.HasDoneLine(Lines(u))
  {
    var line := IntToString(i) + "\n";
    AppendLastLines(t, i);
    ParseIntOfLine(i);
    ParseIntOfWord();
    ResumeOfSnoc(Lines(t), line);
    ResumeOfSnoc(Lines(t) + [line], "done");
    assert Lines(t) + [line, "done"] == (Lines(t) + [line]) + ["done"];
    var lines := Lines(t) + [line, "done"];
    assert lines[|lines| - 1] == "done";
  }

  /**
   * What a log tells the next run and the batch job: where the run resumes (or the line that stops
   * it), checkForFinish's exit status, and whether the text ends at a line boundary.
   */
  function LogStatus(log: Option<string>): (Result<int, string>, int, bool)
  {
    (Resume(log), CheckForFinish.ExitCode(log), EndsWithNewline(LogText(log)))
  }

  /**
   * One run on an unfinished log that resumes at longitude i: the next run resumes at i + 1, or,
   * after the last longitude, checkForFinish reports the job finished and one more run would
   * stop at the line "done".
   */
  lemma ResumeStep(prev: Option<string>, i: nat, numLons: nat, next: Option<string>)
    requires i < numLons && LogStatus(prev) == (Ok(i), 0, true) && next == Some(Logged(prev, i, numLons))
    ensures i + 1 < numLons ==> LogStatus(next) == (Ok(i + 1), 0, true)
    ensures i + 1 == numLons ==> LogStatus(next).0 == Err("done") && LogStatus(next).1 == 1
  {
    var t := LogText(prev);
    if prev.None? {
      assert Lines(t) == [];
    } else {
      assert Resume(prev) == ResumeOf(Lines(t));
      assert CheckForFinish.ExitCode(prev) == if CheckForFinish.HasDoneLine(Lines(t)) then 1 else 0;
    }
    var line := IntToString(i) + "\n";
    if i + 1 < numLons {
      ResumeAfterLine(t, i);
      var u := t + line;
      assert LogAppend(i, numLons) == line + "";
      assert line + "" == line;
      assert Logged(prev, i, numLons) == u;
      assert CheckForFinish.ExitCode(Some(u)) == if CheckForFinish.HasDoneLine(Lines(u)) then 1 else 0;
    } else {
      ResumeAfterLastLine(t, i);
      var u := t + (line + "done");
      assert LogAppend(i, numLons) == line + "done";
      assert Logged(prev, i, numLons) == u;
      assert CheckForFinish.ExitCode(Some(u)) == if CheckForFinish.HasDoneLine(Lines(u)) then 1 else 0;
    }
  }

  /** Without a log the first run starts at longitude 0 and the job is unfinished. */
  lemma ResumeStart()
    ensures LogStatus(None) == (Ok(0), 0, true)
  {
  }

  /**
   * The resume protocol over a whole job: after the runs for longitudes 0 to k - 1 the next run
   * resumes at k and checkForFinish reports the job unfinished; after the last longitude it
   * reports it finished, and one more run would stop at the line "done".
   */
  lemma {:induction false} ResumeProtocol(k: nat, numLons: nat)
    requires k <= numLons
    ensures k < numLons ==> LogStatus(RunLog(k, numLons)) == (Ok(k), 0, true)
    ensures k == numLons > 0 ==> LogStatus(RunLog(k, numLons)).0 == Err("done")
    ensures k == numLons > 0 ==> LogStatus(RunLog(k, numLons)).1 == 1
  {
    if k == 0 {
      ResumeStart();
    } else {
      ResumeProtocol(k - 1, numLons);
      ResumeStep(RunLog(k - 1, numLons), k - 1, numLons, RunLog(k, numLons));
    }
  }

  // ----- write_cord and the latitude loop of main -----

  /**
   * What write_cord raises for a cell's outputs: the solar slice assignment runs first and fails
   * when the solar series is not one value per hour of the slot; then the wind one likewise.
   */
  function WriteCordResult(solarOut: seq<real>, windOut: seq<real>, solarHours: nat, windHours: nat): Result<(), CellError>
  {
    if |solarOut| != solarHours then Err(SolarSlotMismatch(|solarOut|))
    else if |windOut| != windHours then Err(WindSlotMismatch(|windOut|))
    else Ok(())
  }

  /**
   * write_cord: solar_ac[lat, lon, :] = solar_outputs, then wind_ac[lat, lon, :] = wind_outputs.
   * A series whose length is not the slot's raises at its own assignment, so a misfit wind series
   * leaves the solar slot already written.
   */
  method WriteCord(solarAc: array3<real>, windAc: array3<real>, lat: nat, lon: nat,
                   solarOut: seq<real>, windOut: seq<real>)
    returns (r: Result<(), CellError>)
    requires solarAc != windAc
    requires lat < solarAc.Length0 && lon < solarAc.Length1
    requires lat < windAc.Length0 && lon < windAc.Length1
    modifies solarAc, windAc
    ensures r == WriteCordResult(solarOut, windOut, solarAc.Length2, windAc.Length2)
    ensures forall a, b, c :: 0 <= a < solarAc.Length0 && 0 <= b < solarAc.Length1 && 0 <= c < solarAc.Length2 ==>
              solarAc[a, b, c] == if a == lat && b == lon && |solarOut| == solarAc.Length2 then solarOut[c]
                                  else old(solarAc[a, b, c])
    ensures forall a, b, c :: 0 <= a < windAc.Length0 && 0 <= b < windAc.Length1 && 0 <= c < windAc.Length2 ==>
              windAc[a, b, c] == if a == lat && b == lon && r.Ok? then windOut[c] else old(windAc[a, b, c])
  {
    if |solarOut| != solarAc.Length2 {
      return Err(SolarSlotMismatch(|solarOut|));
    }
    for c := 0 to |solarOut|
      invariant forall a, b, h :: 0 <= a < solarAc.Length0 && 0 <= b < solarAc.Length1 && 0 <= h < solarAc.Length2 ==>
                  solarAc[a, b, h] == if a == lat && b == lon && h < c then solarOut[h] else old(solarAc[a, b, h])
      invariant forall a, b, h :: 0 <= a < windAc.Length0 && 0 <= b < windAc.Length1 && 0 <= h < windAc.Length2 ==>
                  windAc[a, b, h] == old(windAc[a, b, h])
    {
      solarAc[lat, lon, c] := solarOut[c];
    }
    if |windOut| != windAc.Length2 {
      return Err(WindSlotMismatch(|windOut|));
    }
    for c := 0 to |windOut|
      invariant forall a, b, h :: 0 <= a < solarAc.Length0 && 0 <= b < solarAc.Length1 && 0 <= h < solarAc.Length2 ==>
                  solarAc[a, b, h] == if a == lat && b == lon then solarOut[h] else old(solarAc[a, b, h])
      invariant forall a, b, h :: 0 <= a < windAc.Length0 && 0 <= b < windAc.Length1 && 0 <= h < windAc.Length2 ==>
                  windAc[a, b, h] == if a == lat && b == lon && h < c then windOut[h] else old(windAc[a, b, h])
    {
      windAc[lat, lon, c] := windOut[c];
    }
    r := Ok(());
  }

  /**
   * The two SAM simulations, taken as given: PVWatts on the solar CSV's rows with the array tilt,
   * and Windpower on the wind resource file's rows (with the power curve the script loads).
   */
  datatype Simulators = Simulators(pvWatts: (seq<Row>, real) -> seq<real>,
                                   windPower: (seq<Row>, PowerCurve) -> seq<real>)

  /** get_power_curve: the wind speeds and the power out of the turbine's power curve file. */
  type PowerCurve = (seq<real>, seq<real>)

  /** Each simulation gives one value per hour of the output arrays. */
  ghost predicate FitsOutputs(sim: Simulators, solarHours: nat, windHours: nat)
  {
    && (forall rows, tilt :: |sim.pvWatts(rows, tilt)| == solarHours)
    && (forall rows, curve :: |sim.windPower(rows, curve)| == windHours)
  }

  /** run_solar: the AC output with the tilt set to |latitude|, divided by 1000000. */
  function RunSolar(sim: Simulators, rows: seq<Row>, latitude: real): seq<real>
  {
    Over(sim.pvWatts(rows, Abs(latitude)), 1000000.0)
  }

  /** run_wp: the generation output divided by 1000. */
  function RunWp(sim: Simulators, rows: seq<Row>, curve: PowerCurve): seq<real>
  {
    Over(sim.windPower(rows, curve), 1000.0)
  }

  /**
   * The two resource files main writes for a cell (solar CSV, wind .srw), or the error that stops
   * the cell first: get_data's, or pd.date_range's at the first day without a date range.
   */
  function CellResources(m: MathLib, split: SolarSplit, year: int, lats: seq<real>, lons: seq<real>,
                         latitude: nat, longitude: int, numLons: nat, merra: ProcessedFile)
    : Result<(seq<Row>, seq<Row>), CellError>
    requires SharedShape(merra) && Hourly(split) && latitude < |lats| && PyIndex(longitude, |lons|).Some?
  {
    GetDataResult(m, latitude, longitude, numLons, merra);
    match GetData(m, latitude, longitude, numLons, merra)
    case Err(e) => Err(DataUnreadable(e))
    case Ok(c) =>
      var lat, lon := lats[latitude], lons[PyIndex(longitude, |lons|).value];
      var n := |c.ghi| / HoursPerDay;
      match FirstUndated(year, n)
      case Some(jd) => Err(UndatedError(jd))
      case None =>
        Ok((SolarCsvHeader(lat, lon) + SolarDays(split, year, lat, lon, c.ghi, c.windSpeed2, c.temperature, n),
            SrwHeader(year, lat, lon)
            + HourRows(c.temperature, c.pressure, c.windSpeed2, c.windSpeed10, c.windSpeed50, c.windDirection)))
  }

  /**
   * A cell whose data reads fails exactly when the file holds more than 365 whole days, and then
   * at get_date(366), 32 December, whose pd.date_range raises: in any year pandas represents in
   * full, a cell never gets past the end of the year.
   */
  lemma CellResourcesPastYearEnd(m: MathLib, split: SolarSplit, year: int, lats: seq<real>, lons: seq<real>,
                                 latitude: nat, longitude: int, numLons: nat, merra: ProcessedFile)
    requires SharedShape(merra) && Hourly(split) && latitude < |lats| && PyIndex(longitude, |lons|).Some?
    requires GetData(m, latitude, longitude, numLons, merra).Ok?
    requires 1678 <= year <= 2261
    ensures var r := CellResources(m, split, year, lats, lons, latitude, longitude, numLons, merra);
            && (r.Ok? <==> merra.days * merra.hours / HoursPerDay <= DaysPerNoLeapYear)
            && (r.Err? ==> r.error == NoDateRange(DaysPerNoLeapYear + 1, 12, 32))
  {
    GetDataResult(m, latitude, longitude, numLons, merra);
    var k := DataRow(merra, latitude, longitude, numLons).value;
    var c := GetData(m, latitude, longitude, numLons, merra).value;
    assert c.ghi == CellSeries(merra.variables["SWGDN"], k);
    assert |c.ghi| == merra.days * merra.hours;
    UndatedPastYearEnd(year, |c.ghi| / HoursPerDay);
    assert DayOfYear(DaysPerNoLeapYear + 1) == Some((12, 32));
  }

  /**
   * The outputs write_cord stores for a cell: the two simulations run on its resource files, or
   * the error that stops the cell before them.
   */
  function CellOutputs(m: MathLib, split: SolarSplit, sim: Simulators, curve: PowerCurve, year: int,
                       lats: seq<real>, lons: seq<real>, latitude: nat, longitude: int, numLons: nat,
                       merra: ProcessedFile)
    : Result<(seq<real>, seq<real>), CellError>
    requires SharedShape(merra) && Hourly(split) && latitude < |lats| && PyIndex(longitude, |lons|).Some?
  {
    var files :- CellResources(m, split, year, lats, lons, latitude, longitude, numLons, merra);
    Ok((RunSolar(sim, files.0, lats[latitude]), RunWp(sim, files.1, curve)))
  }

  /** A cell whose data reads: the outputs of its resource files, or the first day pd.date_range rejects. */
  lemma CellOutputsOfData(m: MathLib, split: SolarSplit, sim: Simulators, curve: PowerCurve, year: int,
                          lats: seq<real>, lons: seq<real>, latitude: nat, longitude: int, numLons: nat,
                          merra: ProcessedFile, c: CellData)
    requires SharedShape(merra) && Hourly(split) && latitude < |lats| && PyIndex(longitude, |lons|).Some?
    requires GetData(m, latitude, longitude, numLons, merra) == Ok(c)
    requires |c.windSpeed2| >= |c.ghi| && |c.temperature| >= |c.ghi|
    ensures var lat, lon := lats[latitude], lons[PyIndex(longitude, |lons|).value];
            var n := |c.ghi| / HoursPerDay;
            CellOutputs(m, split, sim, curve, year, lats, lons, latitude, longitude, numLons, merra)
            == match FirstUndated(year, n)
               case Some(jd) => Err(UndatedError(jd))
               case None =>
                 Ok((RunSolar(sim, SolarCsvHeader(lat, lon)
                                   + SolarDays(split, year, lat, lon, c.ghi, c.windSpeed2, c.temperature, n), lat),
                     RunWp(sim, SrwHeader(year, lat, lon)
                                + HourRows(c.temperature, c.pressure, c.windSpeed2, c.windSpeed10, c.windSpeed50,
                                           c.windDirection), curve)))
  {
  }

  /** Simulations that give one value per hour of the output arrays give outputs that fit the cell's slot. */
  lemma CellOutputsFit(m: MathLib, split: SolarSplit, sim: Simulators, curve: PowerCurve, year: int,
                       lats: seq<real>, lons: seq<real>, latitude: nat, longitude: int, numLons: nat,
                       merra: ProcessedFile, solarHours: nat, windHours: nat)
    requires SharedShape(merra) && Hourly(split) && latitude < |lats| && PyIndex(longitude, |lons|).Some?
    requires FitsOutputs(sim, solarHours, windHours)
    ensures var out := CellOutputs(m, split, sim, curve, year, lats, lons, latitude, longitude, numLons, merra);
            out.Ok? ==> |out.value.0| == solarHours && |out.value.1| == windHours
  {
  }

  /** cells gives, for each latitude, the outputs of its cell at this longitude. */
  ghost predicate Cells(m: MathLib, split: SolarSplit, sim: Simulators, curve: PowerCurve, year: int,
                        lats: seq<real>, lons: seq<real>, longitude: int, numLons: nat, merra: ProcessedFile,
                        cells: nat -> Result<(seq<real>, seq<real>), CellError>)
    requires SharedShape(merra) && Hourly(split) && PyIndex(longitude, |lons|).Some?
  {
    forall a {:trigger CellOutputs(m, split, sim, curve, year, lats, lons, a, longitude, numLons, merra)} ::
      0 <= a < |lats| ==>
        cells(a) == CellOutputs(m, split, sim, curve, year, lats, lons, a, longitude, numLons, merra)
  }

  /** What one latitude of the loop ends with: its cell's error, or write_cord's outcome on its outputs. */
  function CellStep(cell: Result<(seq<real>, seq<real>), CellError>, solarHours: nat, windHours: nat)
    : Result<(), CellError>
  {
    match cell
    case Err(e) => Err(e)
    case Ok(out) => WriteCordResult(out.0, out.1, solarHours, windHours)
  }

  /**
   * With simulations that give one value per hour of the output arrays, write_cord never raises:
   * a latitude fails only with its cell's own error.
   */
  lemma CellsFit(m: MathLib, split: SolarSplit, sim: Simulators, curve: PowerCurve, year: int,
                 lats: seq<real>, lons: seq<real>, longitude: int, numLons: nat, merra: ProcessedFile,
                 cells: nat -> Result<(seq<real>, seq<real>), CellError>, latitude: nat,
                 solarHours: nat, windHours: nat)
    requires SharedShape(merra) && Hourly(split) && PyIndex(longitude, |lons|).Some? && latitude < |lats|
    requires Cells(m, split, sim, curve, year, lats, lons, longitude, numLons, merra, cells)
    requires FitsOutputs(sim, solarHours, windHours)
    ensures cells(latitude).Ok? ==> |cells(latitude).value.0| == solarHours && |cells(latitude).value.1| == windHours
    ensures CellStep(cells(latitude), solarHours, windHours).Ok? <==> cells(latitude).Ok?
  {
    CellOutputsFit(m, split, sim, curve, year, lats, lons, latitude, longitude, numLons, merra, solarHours, windHours);
  }

  /**
   * One latitude of main: the two resource files written, then the two simulations run on them;
   * the outputs are those of the cell, or the error of get_data or of the day loop.
   */
  method RunCell(m: MathLib, split: SolarSplit, sim: Simulators, curve: PowerCurve, year: int,
                 lats: seq<real>, lons: seq<real>, latitude: nat, longitude: int, numLons: nat,
                 merra: ProcessedFile, ghost cells: nat -> Result<(seq<real>, seq<real>), CellError>)
    returns (r: Result<(seq<real>, seq<real>), CellError>)
    requires SharedShape(merra) && Hourly(split) && latitude < |lats| && PyIndex(longitude, |lons|).Some?
    requires Cells(m, split, sim, curve, year, lats, lons, longitude, numLons, merra, cells)
    ensures r == cells(latitude)
  {
    var lat, lon := lats[latitude], lons[PyIndex(longitude, |lons|).value];
    var csv := CreateCsv(lat, lon);
    var srw := CreateSrw(year, lat, lon);
    GetDataResult(m, latitude, longitude, numLons, merra);
    var data := GetData(m, latitude, longitude, numLons, merra);
    if data.Err? {
      r := Err(DataUnreadable(data.error));
      assert r == CellOutputs(m, split, sim, curve, year, lats, lons, latitude, longitude, numLons, merra);
      return;
    }
    var c := data.value;
    Write2Srw(srw, c.temperature, c.pressure, c.windSpeed2, c.windSpeed10, c.windSpeed50, c.windDirection);
    CellOutputsOfData(m, split, sim, curve, year, lats, lons, latitude, longitude, numLons, merra, c);
    var days := WriteSolarDays(csv, split, year, lat, lon, c.ghi, c.windSpeed2, c.temperature);
    if days.Err? {
      r := Err(days.error);
      return;
    }
    var solarOutputs := RunSolar(sim, csv.rows, lat);
    var windOutputs := RunWp(sim, srw.rows, curve);
    r := Ok((solarOutputs, windOutputs));
  }

  /**
   * The latitude loop of main for one longitude: each latitude in turn, stopping at the first
   * that raises, in its cell or in write_cord. done latitudes are finished; outs holds their
   * outputs in latitude order, and one more entry when write_cord stored a cell's solar series
   * and then rejected its wind series. The solar slots of outs and the wind slots of the done
   * latitudes hold those outputs, and no other slot changes. column is the position
   * lon[longitude] and write_cord's [lat, longitude, :] denote.
   */
  method RunLatitudes(m: MathLib, split: SolarSplit, sim: Simulators, curve: PowerCurve, year: int,
                      lats: seq<real>, lons: seq<real>, longitude: int, column: nat, numLons: nat,
                      merra: ProcessedFile, solarAc: array3<real>, windAc: array3<real>,
                      ghost cells: nat -> Result<(seq<real>, seq<real>), CellError>)
    returns (done: nat, r: Result<(), CellError>, ghost outs: seq<(seq<real>, seq<real>)>)
    requires SharedShape(merra) && Hourly(split) && PyIndex(longitude, |lons|) == Some(column)
    requires Cells(m, split, sim, curve, year, lats, lons, longitude, numLons, merra, cells)
    requires solarAc != windAc
    requires solarAc.Length0 == |lats| && solarAc.Length1 == |lons|
    requires windAc.Length0 == |lats| && windAc.Length1 == |lons|
    modifies solarAc, windAc
    ensures done <= |outs| <= |lats| && |outs| <= done + 1
    ensures r.Ok? <==> done == |lats|
    ensures |outs| == done + 1 ==> r == Err(WindSlotMismatch(|outs[done].1|))
    ensures forall a :: 0 <= a < |outs| ==> cells(a) == Ok(outs[a]) && |outs[a].0| == solarAc.Length2
    ensures forall a :: 0 <= a < done ==> |outs[a].1| == windAc.Length2
    ensures r.Err? ==> r == CellStep(cells(done), solarAc.Length2, windAc.Length2)
    ensures forall a, b, c :: 0 <= a < |lats| && 0 <= b < |lons| && 0 <= c < solarAc.Length2 ==>
              solarAc[a, b, c] == if a < |outs| && b == column then outs[a].0[c] else old(solarAc[a, b, c])
    ensures forall a, b, c :: 0 <= a < |lats| && 0 <= b < |lons| && 0 <= c < windAc.Length2 ==>
              windAc[a, b, c] == if a < done && b == column then outs[a].1[c] else old(windAc[a, b, c])
  {
    done, outs := 0, [];
    while done < |lats|
      invariant done <= |lats| && |outs| == done
      invariant forall a :: 0 <= a < done ==> cells(a) == Ok(outs[a])
      invariant forall a :: 0 <= a < done ==> |outs[a].0| == solarAc.Length2 && |outs[a].1| == windAc.Length2
      invariant forall a, b, c :: 0 <= a < |lats| && 0 <= b < |lons| && 0 <= c < solarAc.Length2 ==>
                  solarAc[a, b, c] == if a < done && b == column then outs[a].0[c] else old(solarAc[a, b, c])
      invariant forall a, b, c :: 0 <= a < |lats| && 0 <= b < |lons| && 0 <= c < windAc.Length2 ==>
                  windAc[a, b, c] == if a < done && b == column then outs[a].1[c] else old(windAc[a, b, c])
    {
      var cell := RunCell(m, split, sim, curve, year, lats, lons, done, longitude, numLons, merra, cells);
      if cell.Err? {
        return done, Err(cell.error), outs;
      }
      var (solarOutputs, windOutputs) := cell.value;
      var written := WriteCord(solarAc, windAc, done, column, solarOutputs, windOutputs);
      if written.Err? {
        if written.error.WindSlotMismatch? {
          outs := outs + [cell.value];
        }
        return done, written, outs;
      }
      outs := outs + [cell.value];
      done := done + 1;
    }
    r := Ok(());
  }

  /** The table of every latitude's cell outputs at one longitude, for RunLatitudes. */
  ghost function CellTable(m: MathLib, split: SolarSplit, sim: Simulators, curve: PowerCurve, year: int,
                           lats: seq<real>, lons: seq<real>, longitude: int, numLons: nat,
                           merra: ProcessedFile): (cells: nat -> Result<(seq<real>, seq<real>), CellError>)
    requires SharedShape(merra) && Hourly(split) && PyIndex(longitude, |lons|).Some?
    ensures Cells(m, split, sim, curve, year, lats, lons, longitude, numLons, merra, cells)
  {
    (a: nat) => if a < |lats| then CellOutputs(m, split, sim, curve, year, lats, lons, a, longitude, numLons, merra)
         else Err(DataUnreadable(MissingVariable("")))
  }

  // ----- main -----

  const StartLat: real := 31.5
  const StartLon: real := -125.0
  const NumLats: nat := 1
  const NumLons: nat := 5

  /**
   * A log whose last line is "-3" resumes at longitude -2. Python's indexing reads that as the
   * next-to-last longitude: lon[-2] is longitude 3 of 5 and write_cord fills slot [lat, 3, :].
   * get_data's latLon -2 on latitude 0 reads the file's next-to-last row. The run then logs
   * "-2" and no "done".
   */
  lemma NegativeResume(merra: ProcessedFile)
    ensures Resume(Some("-3\n")) == Ok(-2)
    ensures PyIndex(-2, NumLons) == Some(3)
    ensures merra.latLongs >= 2 ==> DataRow(merra, 0, -2, NumLons) == Some(merra.latLongs - 2)
    ensures merra.latLongs < 2 ==> DataRow(merra, 0, -2, NumLons).None?
    ensures LogAppend(-2, NumLons) == "-2\n"
  {
    assert IntToString(-3) == "-3";
    IntToStringNoNewline(-3);
    LinesOfOneLine("-3");
    ParseIntOfLine(-3);
    assert "-3" + "\n" == "-3\n";
    assert Lines(Some("-3\n").value) == ["-3\n"];
    assert ["-3\n"][..0] == [];
    assert IntToString(-2) == "-2";
  }

  /** How a run of main fails: int() rejects a log line, lon[longitude] is outside the axis, or a cell raises. */
  datatype RunError = BadLogLine(line: string) | LongitudeOutOfRange(longitude: int) | CellFailed(error: CellError)

  /** The output column main resumes at, if the log parses and names a longitude lon indexes. */
  function ResumeColumn(log: Option<string>): (column: Option<nat>)
    ensures column.Some? ==> Resume(log).Ok? && column.value < NumLons
    ensures column.Some? <==> Resume(log).Ok? && -(NumLons as int) <= Resume(log).value < NumLons
  {
    match Resume(log)
    case Err(_) => None
    case Ok(longitude) => PyIndex(longitude, NumLons)
  }

  /**
   * main(year, logFile) with the output files already created: resume at the longitude after the
   * one the log names last, run every latitude there, and return the log's new text. The output
   * arrays hold the two annual files' "ac" variables. A negative longitude, which only a log
   * naming a negative number gives, indexes from the end as Python does: lon[longitude] and the
   * slot write_cord stores, and get_data's latLon among the file's rows. done latitudes finish;
   * outs holds their outputs, and one more when write_cord stored a cell's solar series and then
   * rejected its wind series.
   */
  method RunMain(m: MathLib, split: SolarSplit, sim: Simulators, curve: PowerCurve, year: int,
                 merra: ProcessedFile, log: Option<string>, solarAc: array3<real>, windAc: array3<real>)
    returns (r: Result<string, RunError>, ghost done: nat, ghost outs: seq<(seq<real>, seq<real>)>)
    requires SharedShape(merra) && Hourly(split)
    requires solarAc != windAc
    requires solarAc.Length0 == NumLats && solarAc.Length1 == NumLons
    requires windAc.Length0 == NumLats && windAc.Length1 == NumLons
    modifies solarAc, windAc
    ensures Resume(log).Err? ==> r == Err(BadLogLine(Resume(log).error))
    ensures Resume(log).Ok? && PyIndex(Resume(log).value, NumLons).None? ==> r == Err(LongitudeOutOfRange(Resume(log).value))
    ensures r.Ok? || r.error.CellFailed? ==> ResumeColumn(log).Some?
    ensures r.Ok? <==> ResumeColumn(log).Some? && done == NumLats
    ensures r.Ok? ==> r.value == Logged(log, Resume(log).value, NumLons)
    ensures done <= |outs| <= NumLats && |outs| <= done + 1
    ensures ResumeColumn(log).None? ==> |outs| == 0
    ensures |outs| == done + 1 ==> r == Err(CellFailed(WindSlotMismatch(|outs[done].1|)))
    ensures forall a :: 0 <= a < |outs| ==> |outs[a].0| == solarAc.Length2
    ensures forall a :: 0 <= a < done ==> |outs[a].1| == windAc.Length2
    ensures var (lats, lons) := GetLatLon(NumLats, NumLons, StartLat, StartLon);
            forall a :: 0 <= a < |outs| ==>
              CellOutputs(m, split, sim, curve, year, lats, lons, a, Resume(log).value, NumLons, merra) == Ok(outs[a])
    ensures r.Err? && r.error.CellFailed? ==>
              var (lats, lons) := GetLatLon(NumLats, NumLons, StartLat, StartLon);
              done < NumLats
              && CellStep(CellOutputs(m, split, sim, curve, year, lats, lons, done, Resume(log).value, NumLons, merra),
                          solarAc.Length2, windAc.Length2)
                 == Err(r.error.error)
    ensures forall a, b, c :: 0 <= a < NumLats && 0 <= b < NumLons && 0 <= c < solarAc.Length2 ==>
              solarAc[a, b, c] == if a < |outs| && ResumeColumn(log) == Some(b) then outs[a].0[c] else old(solarAc[a, b, c])
    ensures forall a, b, c :: 0 <= a < NumLats && 0 <= b < NumLons && 0 <= c < windAc.Length2 ==>
              windAc[a, b, c] == if a < done && ResumeColumn(log) == Some(b) then outs[a].1[c] else old(windAc[a, b, c])
  {
    var (lats, lons) := GetLatLon(NumLats, NumLons, StartLat, StartLon);
    done, outs := 0, [];
    var resumed := ResumeLongitude(log);
    if resumed.Err? {
      return Err(BadLogLine(resumed.error)), done, outs;
    }
    var longitude := resumed.value;
    var column := PyIndex(longitude, |lons|);
    if column.None? {
      return Err(LongitudeOutOfRange(longitude)), done, outs;
    }
    ghost var cells := CellTable(m, split, sim, curve, year, lats, lons, longitude, NumLons, merra);
    var finished;
    done, finished, outs := RunLatitudes(m, split, sim, curve, year, lats, lons, longitude, column.value, NumLons,
                                         merra, solarAc, windAc, cells);
    if finished.Err? {
      return Err(CellFailed(finished.error)), done, outs;
    }
    r := Ok(Logged(log, longitude, NumLons));
  }
}
