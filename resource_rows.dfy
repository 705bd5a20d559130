/**
 * The resource files the per-cell drivers hand to SAM, as rows of fields: the solar CSV (a
 * location header, then one row per hour of each day) and the SAM wind resource file (.srw: five
 * header rows, then one row per hour). How csv.writer renders a field as text is not modelled.
 */
module ResourceRows {

  datatype Field = Text(s: string) | Int(i: int) | Num(x: real)

  type Row = seq<Field>

  function Texts(names: seq<string>): (r: Row)
    ensures |r| == |names|
  {
    seq(|names|, i requires 0 <= i < |names| => Text(names[i]))
  }

  const HoursPerDay: nat := 24
  const HoursPerYear: nat := 8760

  // ----- the solar CSV -----

  const SolarLocationColumns: seq<string> := ["Latitude", "Longitude", "Time Zone", "Elevation"]
  const SolarDataColumns: seq<string> :=
    ["Year", "Month", "Day", "Hour", "DNI", "DHI", "Wind Speed", "Temperature"]

  /** The three rows create_csv writes: column names, the location (time zone 0, elevation 500), column names. */
  function SolarCsvHeader(lat: real, lon: real): seq<Row>
  {
    [Texts(SolarLocationColumns), [Num(lat), Num(lon), Int(0), Int(500)], Texts(SolarDataColumns)]
  }

  function SolarRow(year: int, month: int, day: int, hour: int, dni: real, dhi: real, windSpeed: real,
                    temperature: real): Row
  {
    [Int(year), Int(month), Int(day), Int(hour), Num(dni), Num(dhi), Num(windSpeed), Num(temperature)]
  }

  /** What write_day2csv appends: hour i of the day, for i from 0 to 23, each from entry i of the series. */
  function DayRows(year: int, month: int, day: int, dni: seq<real>, dhi: seq<real>, windSpeed: seq<real>,
                   temperature: seq<real>): seq<Row>
    requires |dni| >= HoursPerDay && |dhi| >= HoursPerDay && |windSpeed| >= HoursPerDay
    requires |temperature| >= HoursPerDay
  {
    seq(HoursPerDay, i requires 0 <= i < HoursPerDay =>
      SolarRow(year, month, day, i, dni[i], dhi[i], windSpeed[i], temperature[i]))
  }

  /** A day's rows are 24 rows of the eight data columns, hours 0 to 23, all on one date. */
  lemma DayRowsLayout(year: int, month: int, day: int, dni: seq<real>, dhi: seq<real>,
                      windSpeed: seq<real>, temperature: seq<real>)
    requires |dni| >= HoursPerDay && |dhi| >= HoursPerDay && |windSpeed| >= HoursPerDay
    requires |temperature| >= HoursPerDay
    ensures var rows := DayRows(year, month, day, dni, dhi, windSpeed, temperature);
            && |rows| == HoursPerDay
            && forall i :: 0 <= i < HoursPerDay ==>
                 && |rows[i]| == |SolarDataColumns|
                 && rows[i][..3] == [Int(year), Int(month), Int(day)]
                 && rows[i][3] == Int(i)
                 && rows[i][6] == Num(windSpeed[i]) && rows[i][7] == Num(temperature[i])
  {
    var rows := DayRows(year, month, day, dni, dhi, windSpeed, temperature);
    forall i | 0 <= i < HoursPerDay ensures rows[i][..3] == [Int(year), Int(month), Int(day)] {
      assert rows[i] == SolarRow(year, month, day, i, dni[i], dhi[i], windSpeed[i], temperature[i]);
    }
  }

  // ----- the SAM wind resource file -----

  const SrwColumns: seq<string> := ["Temperature", "Pressure", "Speed", "Speed", "Speed", "Direction"]
  const SrwUnits: seq<string> := ["C", "atm", "m/s", "m/s", "m/s", "degrees"]
  const SrwHeights: seq<string> := ["2", "2", "2", "10", "50", "50"]

  /**
   * The five rows create_srw writes: the location row (unknowns as '?', then year, latitude,
   * longitude, an unknown elevation, 1 and 8760), the file title, then names, units and heights.
   */
  function SrwHeader(year: int, lat: real, lon: real): seq<Row>
  {
    [ [Text("loc id=?"), Text("city=?"), Text("state=?"), Text("country=?"), Int(year), Num(lat), Num(lon),
       Text("elevation=?"), Int(1), Int(HoursPerYear)],
      [Text("SAM wind power resource file")],
      Texts(SrwColumns), Texts(SrwUnits), Texts(SrwHeights) ]
  }

  function SrwRow(temperature: real, pressure: real, speed2: real, speed10: real, speed50: real,
                  direction: real): Row
  {
    [Num(temperature), Num(pressure), Num(speed2), Num(speed10), Num(speed50), Num(direction)]
  }

  /** What write_2srw appends: one row per entry of the temperature series. */
  function HourRows(temperature: seq<real>, pressure: seq<real>, speed2: seq<real>, speed10: seq<real>,
                    speed50: seq<real>, direction: seq<real>): seq<Row>
    requires |pressure| >= |temperature| && |speed2| >= |temperature| && |speed10| >= |temperature|
    requires |speed50| >= |temperature| && |direction| >= |temperature|
  {
    seq(|temperature|, i requires 0 <= i < |temperature| =>
      SrwRow(temperature[i], pressure[i], speed2[i], speed10[i], speed50[i], direction[i]))
  }

  /**
   * The .srw file is five header rows and then one row per hour, each with as many fields as
   * there are column names, in their order; the row count the header declares (8760) is the
   * number of data rows exactly when the series has 8760 hours.
   */
  lemma SrwLayout(year: int, lat: real, lon: real, temperature: seq<real>, pressure: seq<real>,
                  speed2: seq<real>, speed10: seq<real>, speed50: seq<real>, direction: seq<real>)
    requires |pressure| >= |temperature| && |speed2| >= |temperature| && |speed10| >= |temperature|
    requires |speed50| >= |temperature| && |direction| >= |temperature|
    ensures var rows := SrwHeader(year, lat, lon) + HourRows(temperature, pressure, speed2, speed10, speed50, direction);
            && |rows| == 5 + |temperature|
            && rows[0][8..] == [Int(1), Int(HoursPerYear)]
            && (rows[0][9] == Int(|rows| - 5) <==> |temperature| == HoursPerYear)
            && |rows[2]| == |rows[3]| == |rows[4]| == 6
            && forall i :: 0 <= i < |temperature| ==>
                 rows[5 + i] == [Num(temperature[i]), Num(pressure[i]), Num(speed2[i]), Num(speed10[i]),
                                 Num(speed50[i]), Num(direction[i])]
  {
  }

  // ----- the files, as the rows written so far -----

  /** An open resource file: the rows written to it so far. */
  class ResourceFile {
    var rows: seq<Row>

    /** open(name, 'w'): the file starts empty and the header rows are written. */
    constructor Create(header: seq<Row>)
      ensures rows == header
    {
      rows := header;
    }

    /** csvWriter.writerow(row) on the file opened for appending. */
    method WriteRow(row: Row)
      modifies this
      ensures rows == old(rows) + [row]
    {
      rows := rows + [row];
    }
  }

  /** create_csv(year, latitude, longitude). */
  method CreateCsv(lat: real, lon: real) returns (f: ResourceFile)
    ensures fresh(f) && f.rows == SolarCsvHeader(lat, lon)
  {
    f := new ResourceFile.Create(SolarCsvHeader(lat, lon));
  }

  /** create_srw(year, latitude, longitude). */
  method CreateSrw(year: int, lat: real, lon: real) returns (f: ResourceFile)
    ensures fresh(f) && f.rows == SrwHeader(year, lat, lon)
  {
    f := new ResourceFile.Create(SrwHeader(year, lat, lon));
  }

  /** write_day2csv: 24 rows, hour i carrying entry i of each series. */
  method WriteDay2Csv(f: ResourceFile, year: int, month: int, day: int, dni: seq<real>, dhi: seq<real>,
                      windSpeed: seq<real>, temperature: seq<real>)
    requires |dni| >= HoursPerDay && |dhi| >= HoursPerDay && |windSpeed| >= HoursPerDay
    requires |temperature| >= HoursPerDay
    modifies f
    ensures f.rows == old(f.rows) + DayRows(year, month, day, dni, dhi, windSpeed, temperature)
  {
    for i := 0 to HoursPerDay
      invariant f.rows == old(f.rows) + DayRows(year, month, day, dni, dhi, windSpeed, temperature)[..i]
    {
      f.WriteRow(SolarRow(year, month, day, i, dni[i], dhi[i], windSpeed[i], temperature[i]));
      assert DayRows(year, month, day, dni, dhi, windSpeed, temperature)[..i + 1]
          == DayRows(year, month, day, dni, dhi, windSpeed, temperature)[..i]
             + [SolarRow(year, month, day, i, dni[i], dhi[i], windSpeed[i], temperature[i])];
    }
    assert DayRows(year, month, day, dni, dhi, windSpeed, temperature)[..HoursPerDay]
        == DayRows(year, month, day, dni, dhi, windSpeed, temperature);
  }

  /** write_2srw: one row per hour of the temperature series, six fields in column order. */
  method Write2Srw(f: ResourceFile, temperature: seq<real>, pressure: seq<real>, speed2: seq<real>,
                   speed10: seq<real>, speed50: seq<real>, direction: seq<real>)
    requires |pressure| >= |temperature| && |speed2| >= |temperature| && |speed10| >= |temperature|
    requires |speed50| >= |temperature| && |direction| >= |temperature|
    modifies f
    ensures f.rows == old(f.rows) + HourRows(temperature, pressure, speed2, speed10, speed50, direction)
  {
    ghost var all := HourRows(temperature, pressure, speed2, speed10, speed50, direction);
    for i := 0 to |temperature|
      invariant f.rows == old(f.rows) + all[..i]
    {
      f.WriteRow(SrwRow(temperature[i], pressure[i], speed2[i], speed10[i], speed50[i], direction[i]));
      assert all[..i + 1] == all[..i] + [all[i]];
    }
    assert all[..|temperature|] == all;
  }
}
