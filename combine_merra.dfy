/**
 * src/combine_merra.py: merge a year of daily MERRA-2 files, each holding 24 hourly (time, lat, lon)
 * grids, into one (lat, lon, time) file of 8760 hours. Files are grouped by the date in their
 * names, the calendar is walked from 1 January to 31 December, 29 February is skipped without
 * advancing the day counter, and each daily block is transposed into hours [24 d, 24 d + 24).
 */
module CombineMerra {
  import opened Wrappers
  import opened Text
  import opened Calendar
  import opened MerraData

  const MerraVariables: seq<string> := ["U2M", "U10M", "U50M", "V2M", "V10M", "V50M", "T2M", "PS", "SWGDN"]

  const HoursPerDay: nat := 24
  const HoursPerYear: nat := 8760

  lemma MerraVariablesDistinct()
    ensures forall a, b :: 0 <= a < b < |MerraVariables| ==> MerraVariables[a] != MerraVariables[b]
  {
  }

  datatype CombineError =
    | BadDate(name: string)        // strptime raises ValueError on the date in a file name
    | NoSampleFile                 // no file for 1 January: the sample lookup raises IndexError
    | CannotOpen(name: string)     // a listed file that is not a readable netCDF file
    | OutOfBoundsDatetime          // pandas' date_range cannot represent the year
    | TransferFailed(name: string) // a block that cannot be assigned into its slot

  // ----- file names -----

  /** The year's digits followed by four more digits start at position p of name. */
  predicate DateAt(name: string, y: string, p: nat)
  {
    p + |y| + 4 <= |name| && name[p..p + |y|] == y && AllDigits(name[p + |y|..p + |y| + 4])
  }

  const MerraSuffix: string := ".nc4.nc4"

  /** Path.glob's test of a name against the pattern MERRA*{year}[0-9][0-9][0-9][0-9].nc4.nc4. */
  predicate MatchesMerraGlob(name: string, year: int)
  {
    var y := IntToString(year);
    var tail := |y| + 4 + |MerraSuffix|;
    && |name| >= 5 + tail
    && name[..5] == "MERRA"
    && DateAt(name, y, |name| - tail)
    && name[|name| - |MerraSuffix|..] == MerraSuffix
  }

  /** Start of the leftmost match of {year}[0-9]{4} at or after p: what findall(...)[0] returns. */
  function FirstDateMatch(name: string, y: string, p: nat): (r: Option<nat>)
    ensures r.Some? ==> p <= r.value && DateAt(name, y, r.value)
    ensures r.Some? ==> forall q :: p <= q < r.value ==> !DateAt(name, y, q)
    ensures r.None? ==> forall q :: p <= q ==> !DateAt(name, y, q)
    decreases |name| - p
  {
    if p + |y| + 4 > |name| then None
    else if DateAt(name, y, p) then Some(p)
    else FirstDateMatch(name, y, p + 1)
  }

  /** A file name that the glob accepts contains a {year}dddd match. */
  lemma GlobHasDateMatch(name: string, year: int)
    requires MatchesMerraGlob(name, year)
    ensures FirstDateMatch(name, IntToString(year), 0).Some?
  {
  }

  lemma DateFieldDigits(name: string, y: string, p: nat)
    requires |y| == 4 && AllDigits(y) && DateAt(name, y, p)
    ensures p + 8 <= |name| && |name[p..p + 8]| == 8 && AllDigits(name[p..p + 8]) && name[p..p + 8][..4] == y
  {
    var s := name[p..p + 8];
    assert s[..4] == name[p..p + 4] == y;
    var tail := name[p + 4..p + 8];
    assert forall k :: 4 <= k < 8 ==> s[k] == tail[k - 4];
    assert forall k :: 0 <= k < 4 ==> s[k] == y[k];
  }

  /** The eight characters strptime reads: the leftmost {year}dddd match in the name. */
  function DateField(name: string, year: int): (s: string)
    requires 1000 <= year <= 9999 && MatchesMerraGlob(name, year)
    ensures |s| == 8 && AllDigits(s) && s[..4] == IntToString(year)
  {
    FourDigitYear(year);
    GlobHasDateMatch(name, year);
    var p := FirstDateMatch(name, IntToString(year), 0).value;
    DateFieldDigits(name, IntToString(year), p);
    name[p..p + 8]
  }

  /** The date a file is stored under: strptime of its leftmost {year}dddd match. */
  function MerraFileDate(name: string, year: int): (r: Option<Date>)
    requires 1000 <= year <= 9999 && MatchesMerraGlob(name, year)
    ensures r.Some? ==> ValidDate(r.value) && r.value.year == year
  {
    var s := DateField(name, year);
    var date := ParseYmd(s);
    if date.Some? then
      AllDigitsSlice(s, 0, 4);
      NatToStringRoundTrip(year);
      assert date.value.year == DigitsValue(s[..4]);
      date
    else None
  }

  /** Every file the glob finds has a date that strptime accepts. */
  predicate AllDatesParse(names: seq<string>, year: int)
    requires 1000 <= year <= 9999
  {
    forall n :: n in names && MatchesMerraGlob(n, year) ==> MerraFileDate(n, year).Some?
  }

  /** The first file the glob finds whose date strptime rejects, in the order the glob lists them. */
  function BadDateName(names: seq<string>, year: int): (r: Option<string>)
    requires 1000 <= year <= 9999
    ensures r.Some? ==> r.value in names && MatchesMerraGlob(r.value, year) && MerraFileDate(r.value, year).None?
  {
    if names == [] then None
    else if MatchesMerraGlob(names[0], year) && MerraFileDate(names[0], year).None? then Some(names[0])
    else BadDateName(names[1..], year)
  }

  /** There is no first rejected date exactly when every date is accepted. */
  lemma {:induction false} BadDateNameNone(names: seq<string>, year: int)
    requires 1000 <= year <= 9999
    ensures BadDateName(names, year).None? <==> AllDatesParse(names, year)
    decreases |names|
  {
    if names != [] {
      assert forall n :: n in names <==> n == names[0] || n in names[1..];
      BadDateNameNone(names[1..], year);
    }
  }

  /** The files that the defaultdict holds under date, in the order the glob listed them. */
  function FilesOn(names: seq<string>, year: int, date: Date): (r: seq<string>)
    requires 1000 <= year <= 9999
  {
    if names == [] then []
    else
      var rest := FilesOn(names[..|names| - 1], year, date);
      var n := names[|names| - 1];
      if MatchesMerraGlob(n, year) && MerraFileDate(n, year) == Some(date) then rest + [n] else rest
  }

  /** The files of a date are the names the glob matches whose name carries that date. */
  lemma {:induction false} FilesOnMembers(names: seq<string>, year: int, date: Date)
    requires 1000 <= year <= 9999
    ensures forall n :: n in FilesOn(names, year, date) <==>
              n in names && MatchesMerraGlob(n, year) && MerraFileDate(n, year) == Some(date)
    decreases |names|
  {
    if names != [] {
      var init, n := names[..|names| - 1], names[|names| - 1];
      FilesOnMembers(init, year, date);
      assert names == init + [n];
      assert forall x :: x in names <==> x in init || x == n;
    }
  }

  /** Indexing a defaultdict(list): a date never stored reads as the empty list. */
  function Lookup(files: map<Date, seq<string>>, date: Date): seq<string>
  {
    if date in files then files[date] else []
  }

  /** merra_files[date].append(name) on a defaultdict(list). */
  function Append(files: map<Date, seq<string>>, date: Date, name: string): map<Date, seq<string>>
  {
    files[date := Lookup(files, date) + [name]]
  }

  /**
   * get_merra_files_by_date: group the names the glob yields by the date in each name. Each
   * glob match lands in the list of exactly one date (FilesOn says which); a match whose date
   * strptime rejects stops the grouping.
   */
  method GetMerraFilesByDate(names: seq<string>, year: int)
    returns (r: Result<map<Date, seq<string>>, CombineError>)
    requires 1000 <= year <= 9999
    ensures r.Ok? <==> BadDateName(names, year).None?
    ensures r.Err? ==> r.error == BadDate(BadDateName(names, year).value)
    ensures r.Ok? ==> forall date :: Lookup(r.value, date) == FilesOn(names, year, date)
  {
    var files: map<Date, seq<string>> := map[];
    var i := 0;
    while i < |names|
      invariant 0 <= i <= |names|
      invariant AllDatesParse(names[..i], year)
      invariant forall date :: Lookup(files, date) == FilesOn(names[..i], year, date)
    {
      var name := names[i];
      GroupStep(files, names, year, i);
      if MatchesMerraGlob(name, year) {
        var date := MerraFileDate(name, year);
        if date.None? {
          return Err(BadDate(name));
        }
        files := Append(files, date.value, name);
      }
      i := i + 1;
    }
    assert names[..|names|] == names;
    BadDateNameNone(names, year);
    return Ok(files);
  }

  /**
   * The grouping after one more name: its list, and only its list, grows by that name; or the
   * name is the first whose date strptime rejects.
   */
  lemma GroupStep(files: map<Date, seq<string>>, names: seq<string>, year: int, i: nat)
    requires 1000 <= year <= 9999 && i < |names| && AllDatesParse(names[..i], year)
    requires forall date :: Lookup(files, date) == FilesOn(names[..i], year, date)
    ensures var n := names[i];
            if !MatchesMerraGlob(n, year) then
              && AllDatesParse(names[..i + 1], year)
              && forall date :: Lookup(files, date) == FilesOn(names[..i + 1], year, date)
            else if MerraFileDate(n, year).None? then BadDateName(names, year) == Some(n)
            else
              var d := MerraFileDate(n, year).value;
              && AllDatesParse(names[..i + 1], year)
              && forall date :: Lookup(Append(files, d, n), date) == FilesOn(names[..i + 1], year, date)
  {
    var pre, n := names[..i], names[i];
    assert names[..i + 1] == pre + [n];
    if !MatchesMerraGlob(n, year) {
      GroupKeeps(files, pre, n, year);
    } else if MerraFileDate(n, year).None? {
      FirstBadDate(names, year, i);
    } else {
      GroupAppends(files, pre, n, year);
    }
  }

  /** A name the glob does not match leaves every list as it was. */
  lemma GroupKeeps(files: map<Date, seq<string>>, pre: seq<string>, n: string, year: int)
    requires 1000 <= year <= 9999 && AllDatesParse(pre, year) && !MatchesMerraGlob(n, year)
    requires forall date :: Lookup(files, date) == FilesOn(pre, year, date)
    ensures AllDatesParse(pre + [n], year)
    ensures forall date :: Lookup(files, date) == FilesOn(pre + [n], year, date)
  {
    assert (pre + [n])[..|pre|] == pre;
    assert forall x :: x in pre + [n] ==> x in pre || x == n;
  }

  /** A matched name with an accepted date joins the end of its date's list, and no other list. */
  lemma GroupAppends(files: map<Date, seq<string>>, pre: seq<string>, n: string, year: int)
    requires 1000 <= year <= 9999 && AllDatesParse(pre, year) && MatchesMerraGlob(n, year)
    requires MerraFileDate(n, year).Some?
    requires forall date :: Lookup(files, date) == FilesOn(pre, year, date)
    ensures AllDatesParse(pre + [n], year)
    ensures forall date :: Lookup(Append(files, MerraFileDate(n, year).value, n), date) == FilesOn(pre + [n], year, date)
  {
    assert forall x :: x in pre + [n] ==> x in pre || x == n;
    var d := MerraFileDate(n, year).value;
    forall date ensures Lookup(Append(files, d, n), date) == FilesOn(pre + [n], year, date) {
      FilesOnSnoc(pre, n, year, date);
    }
  }

  /** One more name: it joins the end of the files of its own date. */
  lemma FilesOnSnoc(pre: seq<string>, n: string, year: int, date: Date)
    requires 1000 <= year <= 9999
    ensures FilesOn(pre + [n], year, date)
         == if MatchesMerraGlob(n, year) && MerraFileDate(n, year) == Some(date) then FilesOn(pre, year, date) + [n]
            else FilesOn(pre, year, date)
  {
    assert (pre + [n])[..|pre|] == pre;
  }

  /** A rejected date after a run of accepted ones is the first rejected one. */
  lemma {:induction false} FirstBadDate(names: seq<string>, year: int, i: nat)
    requires 1000 <= year <= 9999 && i < |names| && AllDatesParse(names[..i], year)
    requires MatchesMerraGlob(names[i], year) && MerraFileDate(names[i], year).None?
    ensures BadDateName(names, year) == Some(names[i])
    decreases i
  {
    if i > 0 {
      var tail := names[1..];
      assert names[0] in names[..i];
      assert AllDatesParse(tail[..i - 1], year) by {
        forall x | x in tail[..i - 1] ensures x in names[..i] {
          var q :| 0 <= q < i - 1 && tail[..i - 1][q] == x;
          assert names[..i][q + 1] == x;
        }
      }
      FirstBadDate(tail, year, i - 1);
    }
  }

  // ----- one daily file into its slot -----

  /** np.transpose(daily, axes=[1, 2, 0]): a (time, lat, lon) block as (lat, lon, time). */
  function Reorder(b: Var3): (r: Var3)
    requires WellFormed(b)
    ensures HasShape(r, b.n1, b.n2, b.n0)
  {
    Var3(b.n1, b.n2, b.n0,
      seq(b.n1, i requires 0 <= i < b.n1 =>
        seq(b.n2, j requires 0 <= j < b.n2 =>
          seq(b.n0, t requires 0 <= t < b.n0 => b.cells[t][i][j]))))
  }

  /** numpy can assign a block of this shape to a (nLat, nLon, 24) slot, stretching axes of length 1. */
  predicate FitsSlot(r: Var3, nLat: nat, nLon: nat)
  {
    (r.n0 == nLat || r.n0 == 1) && (r.n1 == nLon || r.n1 == 1) && (r.n2 == HoursPerDay || r.n2 == 1)
  }

  /** combined_var[:, :, start:start + 24] = r */
  function WriteSlot(c: Var3, r: Var3, start: nat): (w: Var3)
    requires WellFormed(c) && WellFormed(r) && FitsSlot(r, c.n0, c.n1) && start + HoursPerDay <= c.n2
    ensures HasShape(w, c.n0, c.n1, c.n2)
  {
    Var3(c.n0, c.n1, c.n2,
      seq(c.n0, i requires 0 <= i < c.n0 =>
        seq(c.n1, j requires 0 <= j < c.n1 =>
          seq(c.n2, h requires 0 <= h < c.n2 =>
            if start <= h < start + HoursPerDay
            then r.cells[Bcast(r.n0, i)][Bcast(r.n1, j)][Bcast(r.n2, h - start)]
            else c.cells[i][j][h]))))
  }

  /** The daily (time, lat, lon) value that lands at (i, j) and hour t of the day. */
  function DailyCell(b: Var3, i: nat, j: nat, t: nat): real
    requires WellFormed(b)
  {
    var t', i', j' := Bcast(b.n0, t), Bcast(b.n1, i), Bcast(b.n2, j);
    if t' < b.n0 && i' < b.n1 && j' < b.n2 then b.cells[t'][i'][j'] else DefaultFillDouble
  }

  /** A daily block that transfer_merra_file can place into a (nLat, nLon) grid without raising. */
  predicate BlockFits(b: Var3, nLat: nat, nLon: nat)
  {
    WellFormed(b) && FitsSlot(Reorder(b), nLat, nLon) && nLat > 0 && nLon > 0
  }

  /**
   * Reading the slot back: hours [24 day, 24 day + 24) now hold the daily block transposed, and
   * every other hour holds what it held before. For a (24, nLat, nLon) block this is
   * c[i][j][24 day + t] == daily[t][i][j], the equality transfer_merra_file asserts at the corners.
   */
  lemma SlotReadBack(c: Var3, b: Var3, day: nat, i: nat, j: nat, h: nat)
    requires WellFormed(c) && c.n2 == HoursPerYear && day < DaysPerNoLeapYear
    requires BlockFits(b, c.n0, c.n1)
    requires i < c.n0 && j < c.n1 && h < c.n2
    ensures var w := WriteSlot(c, Reorder(b), HoursPerDay * day);
            w.cells[i][j][h] ==
              if HoursPerDay * day <= h < HoursPerDay * day + HoursPerDay
              then DailyCell(b, i, j, h - HoursPerDay * day) else c.cells[i][j][h]
    ensures HasShape(b, HoursPerDay, c.n0, c.n1) && HoursPerDay * day <= h < HoursPerDay * day + HoursPerDay ==>
              WriteSlot(c, Reorder(b), HoursPerDay * day).cells[i][j][h] == b.cells[h - HoursPerDay * day][i][j]
  {
    var r, s := Reorder(b), HoursPerDay * day;
    WriteSlotCell(c, r, s, i, j, h);
    if s <= h < s + HoursPerDay {
      ReorderCell(b, Bcast(r.n0, i), Bcast(r.n1, j), Bcast(r.n2, h - s));
    }
  }

  /** Cell (i, j, h) of the slot write: the block, stretched where an axis has length 1, inside the slot; c outside it. */
  lemma WriteSlotCell(c: Var3, r: Var3, start: nat, i: nat, j: nat, h: nat)
    requires WellFormed(c) && WellFormed(r) && FitsSlot(r, c.n0, c.n1) && start + HoursPerDay <= c.n2
    requires i < c.n0 && j < c.n1 && h < c.n2
    ensures Bcast(r.n0, i) < r.n0 && Bcast(r.n1, j) < r.n1
    ensures start <= h < start + HoursPerDay ==> Bcast(r.n2, h - start) < r.n2
    ensures WriteSlot(c, r, start).cells[i][j][h] ==
              if start <= h < start + HoursPerDay then r.cells[Bcast(r.n0, i)][Bcast(r.n1, j)][Bcast(r.n2, h - start)]
              else c.cells[i][j][h]
  {
  }

  /** Cell (i, j, t) of the transposed block is cell (t, i, j) of the block. */
  lemma ReorderCell(b: Var3, i: nat, j: nat, t: nat)
    requires WellFormed(b) && i < b.n1 && j < b.n2 && t < b.n0
    ensures Reorder(b).cells[i][j][t] == b.cells[t][i][j]
  {
  }

  /**
   * The five equalities transfer_merra_file asserts after each copy hold for every block that
   * fits, so the asserts never fail. Each compares a corner of the written slot, at hour t of the
   * day, with the matching corner of the daily block: the first or the last index of each axis.
   */
  lemma CornerCheck(c: Var3, b: Var3, w: Var3, day: nat, s: nat, i: nat, j: nat, t: nat, h: nat, bt: nat, bi: nat, bj: nat)
    requires WellFormed(c) && c.n2 == HoursPerYear && day < DaysPerNoLeapYear
    requires BlockFits(b, c.n0, c.n1)
    requires s == HoursPerDay * day && h == s + t && w == WriteSlot(c, Reorder(b), s)
    requires (t == 0 && bt == 0) || (t == HoursPerDay - 1 && bt == b.n0 - 1)
    requires (i == 0 && bi == 0) || (i == c.n0 - 1 && bi == b.n1 - 1)
    requires (j == 0 && bj == 0) || (j == c.n1 - 1 && bj == b.n2 - 1)
    ensures i < w.n0 && j < w.n1 && h < w.n2 && bt < b.n0 && bi < b.n1 && bj < b.n2
    ensures w.cells[i][j][h] == b.cells[bt][bi][bj]
  {
    HourOfSlot(day, t, day);
    assert h == SlotHour(day, t);
    SlotReadBack(c, b, day, i, j, h);
    assert Bcast(b.n0, t) == bt && Bcast(b.n1, i) == bi && Bcast(b.n2, j) == bj;
  }

  /** The five asserts of transfer_merra_file on the written cube c, with the slot from start to end. */
  lemma TransferAsserts(before: Var3, daily: Var3, day: nat, c: Var3, start: nat, end: nat)
    requires WellFormed(before) && before.n2 == HoursPerYear && day < DaysPerNoLeapYear
    requires BlockFits(daily, before.n0, before.n1)
    requires start == HoursPerDay * day && end == start + HoursPerDay
    requires c == WriteSlot(before, Reorder(daily), start)
    ensures c.n0 == before.n0 && c.n1 == before.n1 && end <= c.n2
    ensures c.cells[0][0][start] == daily.cells[0][0][0]
    ensures c.cells[0][0][end - 1] == daily.cells[daily.n0 - 1][0][0]
    ensures c.cells[c.n0 - 1][0][start] == daily.cells[0][daily.n1 - 1][0]
    ensures c.cells[0][c.n1 - 1][start] == daily.cells[0][0][daily.n2 - 1]
    ensures c.cells[c.n0 - 1][c.n1 - 1][end - 1] == daily.cells[daily.n0 - 1][daily.n1 - 1][daily.n2 - 1]
  {
    CornerCheck(before, daily, c, day, start, 0, 0, 0, start, 0, 0, 0);
    CornerCheck(before, daily, c, day, start, 0, 0, HoursPerDay - 1, end - 1, daily.n0 - 1, 0, 0);
    CornerCheck(before, daily, c, day, start, c.n0 - 1, 0, 0, start, 0, daily.n1 - 1, 0);
    CornerCheck(before, daily, c, day, start, 0, c.n1 - 1, 0, start, 0, 0, daily.n2 - 1);
    CornerCheck(before, daily, c, day, start, c.n0 - 1, c.n1 - 1, HoursPerDay - 1, end - 1,
                daily.n0 - 1, daily.n1 - 1, daily.n2 - 1);
  }

  /** Every variable is a cube over the 8760 hours of the year. */
  predicate AnnualCubes(vars: map<string, Var3>)
  {
    forall v :: v in vars ==> WellFormed(vars[v]) && vars[v].n2 == HoursPerYear
  }

  datatype Transfer = Transfer(vars: map<string, Var3>, ok: bool)

  /**
   * What transfer_merra_file does to the combined variables, name by name: a name missing from
   * either file raises KeyError, which is caught so the next name is tried; a block that does not
   * fit its slot raises ValueError and stops; an empty grid lets the write through but makes the
   * corner asserts index an empty axis (IndexError), which also stops.
   */
  function TransferVariables(vars: map<string, Var3>, daily: map<string, Var3>, day: nat, names: seq<string>): Transfer
    requires AnnualCubes(vars)
    requires forall v :: v in daily ==> WellFormed(daily[v])
    requires day < DaysPerNoLeapYear
    decreases |names|
  {
    if names == [] then Transfer(vars, true)
    else
      var v := names[0];
      if v !in vars || v !in daily then TransferVariables(vars, daily, day, names[1..])
      else
        var r := Reorder(daily[v]);
        if !FitsSlot(r, vars[v].n0, vars[v].n1) then Transfer(vars, false)
        else
          var written := vars[v := WriteSlot(vars[v], r, HoursPerDay * day)];
          if vars[v].n0 == 0 || vars[v].n1 == 0 then Transfer(written, false)
          else TransferVariables(written, daily, day, names[1..])
  }

  /** One step of TransferVariables, for the loop that performs it. */
  lemma TransferVariablesStep(vars: map<string, Var3>, daily: map<string, Var3>, day: nat, names: seq<string>)
    requires AnnualCubes(vars)
    requires forall v :: v in daily ==> WellFormed(daily[v])
    requires day < DaysPerNoLeapYear && names != []
    ensures names[0] !in vars || names[0] !in daily ==>
              TransferVariables(vars, daily, day, names) == TransferVariables(vars, daily, day, names[1..])
    ensures names[0] in vars && names[0] in daily && !FitsSlot(Reorder(daily[names[0]]), vars[names[0]].n0, vars[names[0]].n1) ==>
              TransferVariables(vars, daily, day, names) == Transfer(vars, false)
    ensures names[0] in vars && names[0] in daily && FitsSlot(Reorder(daily[names[0]]), vars[names[0]].n0, vars[names[0]].n1) ==>
              var v := names[0];
              var written := vars[v := WriteSlot(vars[v], Reorder(daily[v]), HoursPerDay * day)];
              TransferVariables(vars, daily, day, names) ==
                if vars[v].n0 == 0 || vars[v].n1 == 0 then Transfer(written, false)
                else TransferVariables(written, daily, day, names[1..])
  {
  }

  /** The names after the first of a list without repeats: without repeats, and without the first. */
  lemma DistinctTail(names: seq<string>)
    requires names != [] && forall a, b :: 0 <= a < b < |names| ==> names[a] != names[b]
    ensures forall a, b :: 0 <= a < b < |names[1..]| ==> names[1..][a] != names[1..][b]
    ensures names[0] !in names[1..]
    ensures forall u :: u in names <==> u == names[0] || u in names[1..]
  {
    var rest := names[1..];
    forall a, b | 0 <= a < b < |rest| ensures rest[a] != rest[b] { assert rest[a] == names[a + 1]; }
    forall k | 0 <= k < |rest| ensures rest[k] != names[0] { assert rest[k] == names[k + 1]; }
  }

  /** transfer_merra_file succeeds exactly when every variable present in both files fits its slot. */
  lemma {:induction false} TransferVariablesOk(vars: map<string, Var3>, daily: map<string, Var3>, day: nat, names: seq<string>)
    requires AnnualCubes(vars)
    requires forall v :: v in daily ==> WellFormed(daily[v])
    requires day < DaysPerNoLeapYear
    requires forall a, b :: 0 <= a < b < |names| ==> names[a] != names[b]
    ensures TransferVariables(vars, daily, day, names).ok <==>
              forall v :: v in names && v in vars && v in daily ==> BlockFits(daily[v], vars[v].n0, vars[v].n1)
    decreases |names|
  {
    if names != [] {
      var v := names[0];
      DistinctTail(names);
      if v !in vars || v !in daily {
        TransferVariablesOk(vars, daily, day, names[1..]);
      } else if FitsSlot(Reorder(daily[v]), vars[v].n0, vars[v].n1) && vars[v].n0 != 0 && vars[v].n1 != 0 {
        var written := vars[v := WriteSlot(vars[v], Reorder(daily[v]), HoursPerDay * day)];
        TransferVariablesOk(written, daily, day, names[1..]);
        assert forall u :: u in names[1..] ==> u != v;
      }
    }
  }

  /**
   * After a transfer that succeeds, each variable present in both files has the daily block in the
   * day's slot, while every other variable, and every variable's other hours, are as before.
   */
  lemma {:induction false} TransferVariablesWrites(vars: map<string, Var3>, daily: map<string, Var3>, day: nat, names: seq<string>)
    requires AnnualCubes(vars)
    requires forall v :: v in daily ==> WellFormed(daily[v])
    requires day < DaysPerNoLeapYear
    requires forall a, b :: 0 <= a < b < |names| ==> names[a] != names[b]
    ensures var t := TransferVariables(vars, daily, day, names);
            t.ok ==> t.vars.Keys == vars.Keys && forall v :: v in vars ==>
              if v in names && v in daily
              then BlockFits(daily[v], vars[v].n0, vars[v].n1)
                   && t.vars[v] == WriteSlot(vars[v], Reorder(daily[v]), HoursPerDay * day)
              else t.vars[v] == vars[v]
    decreases |names|
  {
    if names != [] {
      var v := names[0];
      DistinctTail(names);
      if v !in vars || v !in daily {
        TransferVariablesWrites(vars, daily, day, names[1..]);
      } else if FitsSlot(Reorder(daily[v]), vars[v].n0, vars[v].n1) && vars[v].n0 != 0 && vars[v].n1 != 0 {
        var written := vars[v := WriteSlot(vars[v], Reorder(daily[v]), HoursPerDay * day)];
        TransferVariablesWrites(written, daily, day, names[1..]);
      }
    }
  }

  /** Every combined variable is a (nLat, nLon, 8760) cube, and the nine MERRA variables exist. */
  predicate CubesShaped(vars: map<string, Var3>, nLat: nat, nLon: nat)
  {
    && AnnualCubes(vars)
    && (forall v :: v in MerraVariables ==> v in vars && HasShape(vars[v], nLat, nLon, HoursPerYear))
  }

  lemma CubesShapedUpdate(vars: map<string, Var3>, nLat: nat, nLon: nat, v: string, w: Var3)
    requires CubesShaped(vars, nLat, nLon) && v in vars
    requires HasShape(w, vars[v].n0, vars[v].n1, vars[v].n2)
    ensures CubesShaped(vars[v := w], nLat, nLon)
  {
  }

  /** Every variable keeps its name and its shape. */
  predicate SameShapes(a: map<string, Var3>, b: map<string, Var3>)
  {
    a.Keys == b.Keys && forall v :: v in a ==> HasShape(b[v], a[v].n0, a[v].n1, a[v].n2)
  }

  lemma TransferVariablesKeepsShapes(vars: map<string, Var3>, daily: map<string, Var3>, day: nat)
    requires AnnualCubes(vars)
    requires forall v :: v in daily ==> WellFormed(daily[v])
    requires day < DaysPerNoLeapYear
    ensures var t := TransferVariables(vars, daily, day, MerraVariables);
            t.ok ==> SameShapes(vars, t.vars) && AnnualCubes(t.vars)
  {
    MerraVariablesDistinct();
    TransferVariablesWrites(vars, daily, day, MerraVariables);
  }

  /**
   * The inner loop of combine for one day: open each file of the day and transfer it, stopping at
   * the first file that cannot be opened or whose transfer raises.
   */
  function TransferFiles(vars: map<string, Var3>, contents: map<string, MerraFile>, day: nat, files: seq<string>)
    : (r: Result<map<string, Var3>, CombineError>)
    requires AnnualCubes(vars) && ContentsValid(contents) && day < DaysPerNoLeapYear
    ensures r.Ok? ==> SameShapes(vars, r.value) && AnnualCubes(r.value)
    decreases |files|
  {
    if files == [] then Ok(vars)
    else if files[0] !in contents then Err(CannotOpen(files[0]))
    else
      var t := TransferVariables(vars, contents[files[0]].variables, day, MerraVariables);
      TransferVariablesKeepsShapes(vars, contents[files[0]].variables, day);
      if !t.ok then Err(TransferFailed(files[0]))
      else TransferFiles(t.vars, contents, day, files[1..])
  }

  /** The files of each day slot of the year: for slot d, the files of the d-th date other than 29 February. */
  function DayFiles(names: seq<string>, year: int): (days: seq<seq<string>>)
    requires 1000 <= year <= 9999
    ensures |days| == DaysPerNoLeapYear
    ensures forall d :: 0 <= d < DaysPerNoLeapYear ==> days[d] == FilesOn(names, year, NoLeapDate(year, d))
  {
    seq(DaysPerNoLeapYear, d requires 0 <= d < DaysPerNoLeapYear => FilesOn(names, year, NoLeapDate(year, d)))
  }

  /**
   * Reference definition of the calendar walk: day slots 0, 1, ..., k - 1 in turn, slot d taking
   * the files of the d-th date of the year other than 29 February.
   */
  function CombineDays(vars: map<string, Var3>, days: seq<seq<string>>, contents: map<string, MerraFile>, k: nat)
    : (r: Result<map<string, Var3>, CombineError>)
    requires AnnualCubes(vars) && ContentsValid(contents) && |days| == DaysPerNoLeapYear && k <= DaysPerNoLeapYear
    ensures r.Ok? ==> SameShapes(vars, r.value) && AnnualCubes(r.value)
    decreases k
  {
    if k == 0 then Ok(vars)
    else
      var prev := CombineDays(vars, days, contents, k - 1);
      if prev.Err? then prev
      else TransferFiles(prev.value, contents, k - 1, days[k - 1])
  }

  /** One more day of the walk: the files of that day's date, transferred into its slot. */
  lemma CombineDaysStep(vars: map<string, Var3>, days: seq<seq<string>>, contents: map<string, MerraFile>, k: nat)
    requires AnnualCubes(vars) && ContentsValid(contents) && |days| == DaysPerNoLeapYear && k < DaysPerNoLeapYear
    requires CombineDays(vars, days, contents, k).Ok?
    ensures CombineDays(vars, days, contents, k + 1)
            == TransferFiles(CombineDays(vars, days, contents, k).value, contents, k, days[k])
  {
  }

  /** The walk through k slots is the walk through the first k - 1 followed by slot day = k - 1. */
  lemma CombineDaysLast(vars: map<string, Var3>, days: seq<seq<string>>, contents: map<string, MerraFile>,
                        k: nat, day: nat, files: seq<string>)
    requires AnnualCubes(vars) && ContentsValid(contents) && |days| == DaysPerNoLeapYear && 0 < k <= DaysPerNoLeapYear
    requires day == k - 1 && files == days[day]
    ensures CombineDays(vars, days, contents, day).Ok? ==>
              CombineDays(vars, days, contents, k) == TransferFiles(CombineDays(vars, days, contents, day).value, contents, day, files)
    ensures CombineDays(vars, days, contents, day).Err? ==>
              CombineDays(vars, days, contents, k) == CombineDays(vars, days, contents, day)
  {
  }

  /** A failure on some day is the failure of the whole walk: later days are never reached. */
  lemma {:induction false} CombineDaysErrStays(vars: map<string, Var3>, days: seq<seq<string>>, contents: map<string, MerraFile>,
                                               k: nat, n: nat)
    requires AnnualCubes(vars) && ContentsValid(contents) && |days| == DaysPerNoLeapYear && k <= n <= DaysPerNoLeapYear
    requires CombineDays(vars, days, contents, k).Err?
    ensures CombineDays(vars, days, contents, n) == CombineDays(vars, days, contents, k)
    decreases n
  {
    if n > k {
      CombineDaysErrStays(vars, days, contents, k, n - 1);
    }
  }

  /** The years pandas' nanosecond Timestamp can hold from 1 January to 31 December. */
  const FirstPandasYear: int := 1678
  const LastPandasYear: int := 2261

  /** What combine leaves in the output file when it finishes. */
  datatype Combined = Combined(lat: seq<real>, lon: seq<real>, year: int, vars: map<string, Var3>)

  /** The variables initialize_dataset creates, before anything is written. */
  function InitialVars(nLat: nat, nLon: nat): (vars: map<string, Var3>)
    ensures CubesShaped(vars, nLat, nLon) && vars.Keys == set v | v in MerraVariables
  {
    map v | v in MerraVariables :: Unwritten(nLat, nLon, HoursPerYear)
  }

  /**
   * combine on a directory listing names whose readable netCDF files are contents, failing where
   * the script raises: a rejected date, no 1 January file, an unreadable sample, a year pandas
   * cannot represent, then the first failing file of the calendar walk.
   */
  function CombineSpec(names: seq<string>, contents: map<string, MerraFile>, year: int): Result<Combined, CombineError>
    requires 1000 <= year <= 9999 && ContentsValid(contents)
  {
    match BadDateName(names, year)
    case Some(n) => Err(BadDate(n))
    case None =>
      var jan1 := FilesOn(names, year, Date(year, 1, 1));
      if jan1 == [] then Err(NoSampleFile)
      else if jan1[0] !in contents then Err(CannotOpen(jan1[0]))
      else if !(FirstPandasYear <= year <= LastPandasYear) then Err(OutOfBoundsDatetime)
      else
        var sample := contents[jan1[0]];
        var init := InitialVars(|sample.lat|, |sample.lon|);
        match CombineDays(init, DayFiles(names, year), contents, DaysPerNoLeapYear)
        case Err(e) => Err(e)
        case Ok(vars) => Ok(Combined(sample.lat, sample.lon, year, vars))
  }

  /**
   * What a cell (i, j) of variable v reads at hour t of a day whose files are files, starting from x:
   * each file that has v overwrites it, so the last such file wins, and x stays when none has v.
   */
  function CellAfterFiles(x: real, files: seq<string>, contents: map<string, MerraFile>, v: string, i: nat, j: nat, t: nat): real
    requires ContentsValid(contents)
    decreases |files|
  {
    if files == [] then x
    else
      var f := files[0];
      var x' := if f in contents && v in contents[f].variables then DailyCell(contents[f].variables[v], i, j, t) else x;
      CellAfterFiles(x', files[1..], contents, v, i, j, t)
  }

  /** Hour t of day slot d of an annual cube. */
  function SlotHour(d: nat, t: nat): nat
  {
    HoursPerDay * d + t
  }

  /** Hour t of day slot d lies in slot e exactly when d is e, t hours into it. */
  lemma HourOfSlot(d: nat, t: nat, e: nat)
    requires d < DaysPerNoLeapYear && t < HoursPerDay
    ensures SlotHour(d, t) < HoursPerYear
    ensures HoursPerDay * e <= SlotHour(d, t) < HoursPerDay * e + HoursPerDay <==> d == e
    ensures d == e ==> SlotHour(d, t) - HoursPerDay * e == t
  {
  }

  /**
   * Transferring the files of slot day changes only that slot: hour t of slot d of a cell holds
   * what the day's files leave there, by CellAfterFiles, when d is that day, and is unchanged otherwise.
   */
  lemma {:induction false} TransferFilesCell(vars: map<string, Var3>, contents: map<string, MerraFile>, day: nat,
                                             files: seq<string>, v: string, i: nat, j: nat, d: nat, t: nat)
    requires AnnualCubes(vars) && ContentsValid(contents) && day < DaysPerNoLeapYear
    requires d < DaysPerNoLeapYear && t < HoursPerDay
    requires v in MerraVariables && v in vars && i < vars[v].n0 && j < vars[v].n1
    requires TransferFiles(vars, contents, day, files).Ok?
    ensures SlotHour(d, t) < HoursPerYear
    ensures TransferFiles(vars, contents, day, files).value[v].cells[i][j][SlotHour(d, t)]
         == if d == day then CellAfterFiles(vars[v].cells[i][j][SlotHour(d, t)], files, contents, v, i, j, t)
            else vars[v].cells[i][j][SlotHour(d, t)]
    decreases |files|
  {
    HourOfSlot(d, t, day);
    if files != [] {
      var f := files[0];
      var daily := contents[f].variables;
      var tr := TransferVariables(vars, daily, day, MerraVariables);
      TransferVariablesKeepsShapes(vars, daily, day);
      MerraVariablesDistinct();
      TransferVariablesWrites(vars, daily, day, MerraVariables);
      if v in daily {
        SlotReadBackAt(vars[v], daily[v], day, i, j, d, t);
      }
      TransferFilesCell(tr.vars, contents, day, files[1..], v, i, j, d, t);
    }
  }

  /** SlotReadBack at hour t of slot d. */
  lemma SlotReadBackAt(c: Var3, b: Var3, day: nat, i: nat, j: nat, d: nat, t: nat)
    requires WellFormed(c) && c.n2 == HoursPerYear && day < DaysPerNoLeapYear
    requires BlockFits(b, c.n0, c.n1)
    requires i < c.n0 && j < c.n1 && d < DaysPerNoLeapYear && t < HoursPerDay
    ensures SlotHour(d, t) < HoursPerYear
    ensures WriteSlot(c, Reorder(b), HoursPerDay * day).cells[i][j][SlotHour(d, t)]
         == if d == day then DailyCell(b, i, j, t) else c.cells[i][j][SlotHour(d, t)]
  {
    HourOfSlot(d, t, day);
    SlotReadBack(c, b, day, i, j, SlotHour(d, t));
  }

  /**
   * The cells of now after the walk through the first k day slots from init: hour t of each slot
   * d < k holds what the files of slot d left there, and every other slot is as in init.
   */
  ghost predicate SlotsWritten(init: map<string, Var3>, now: map<string, Var3>, days: seq<seq<string>>,
                               contents: map<string, MerraFile>, k: nat)
    requires AnnualCubes(init) && ContentsValid(contents) && |days| == DaysPerNoLeapYear && SameShapes(init, now)
  {
    forall v: string, i: nat, j: nat, d: nat, t: nat | v in MerraVariables && v in init && i < init[v].n0 && j < init[v].n1
                           && d < DaysPerNoLeapYear && t < HoursPerDay ::
      SlotWritten(init, now, days, contents, k, v, i, j, d, t)
  }

  /** SlotsWritten at one cell and one hour t of slot d. */
  ghost predicate SlotWritten(init: map<string, Var3>, now: map<string, Var3>, days: seq<seq<string>>,
                              contents: map<string, MerraFile>, k: nat, v: string, i: nat, j: nat, d: nat, t: nat)
    requires AnnualCubes(init) && ContentsValid(contents) && |days| == DaysPerNoLeapYear && SameShapes(init, now)
    requires v in MerraVariables && v in init && i < init[v].n0 && j < init[v].n1
    requires d < DaysPerNoLeapYear && t < HoursPerDay
  {
    HourOfSlot(d, t, d);
    now[v].cells[i][j][SlotHour(d, t)] ==
      if d < k then CellAfterFiles(init[v].cells[i][j][SlotHour(d, t)], days[d], contents, v, i, j, t)
      else init[v].cells[i][j][SlotHour(d, t)]
  }

  /** Transferring the files of slot day = k - 1 extends SlotsWritten from k - 1 slots to k. */
  lemma SlotsStep(init: map<string, Var3>, prev: map<string, Var3>, days: seq<seq<string>>,
                  contents: map<string, MerraFile>, k: nat, day: nat, files: seq<string>)
    requires AnnualCubes(init) && ContentsValid(contents) && |days| == DaysPerNoLeapYear && 0 < k <= DaysPerNoLeapYear
    requires day == k - 1 && files == days[day]
    requires SameShapes(init, prev) && AnnualCubes(prev) && SlotsWritten(init, prev, days, contents, k - 1)
    requires TransferFiles(prev, contents, day, files).Ok?
    ensures SameShapes(init, TransferFiles(prev, contents, day, files).value)
    ensures SlotsWritten(init, TransferFiles(prev, contents, day, files).value, days, contents, k)
  {
    var now := TransferFiles(prev, contents, day, files).value;
    assert SameShapes(init, now);
    forall v: string, i: nat, j: nat, d: nat, t: nat | v in MerraVariables && v in init && i < init[v].n0 && j < init[v].n1
                           && d < DaysPerNoLeapYear && t < HoursPerDay
      ensures SlotWritten(init, now, days, contents, k, v, i, j, d, t)
    {
      assert SlotWritten(init, prev, days, contents, k - 1, v, i, j, d, t);
      SlotsStepCell(init, prev, days, contents, k, day, files, v, i, j, d, t);
    }
  }

  /**
   * SlotsStep at one cell and hour: slot day = k - 1 takes what its files leave, every other slot
   * keeps its value.
   */
  lemma SlotsStepCell(init: map<string, Var3>, prev: map<string, Var3>, days: seq<seq<string>>,
                      contents: map<string, MerraFile>, k: nat, day: nat, files: seq<string>,
                      v: string, i: nat, j: nat, d: nat, t: nat)
    requires AnnualCubes(init) && ContentsValid(contents) && |days| == DaysPerNoLeapYear && 0 < k <= DaysPerNoLeapYear
    requires day == k - 1 && files == days[day]
    requires SameShapes(init, prev) && AnnualCubes(prev) && TransferFiles(prev, contents, day, files).Ok?
    requires SameShapes(init, TransferFiles(prev, contents, day, files).value)
    requires v in MerraVariables && v in init && i < init[v].n0 && j < init[v].n1
    requires d < DaysPerNoLeapYear && t < HoursPerDay
    requires SlotWritten(init, prev, days, contents, k - 1, v, i, j, d, t)
    ensures SlotWritten(init, TransferFiles(prev, contents, day, files).value, days, contents, k, v, i, j, d, t)
  {
    var now := TransferFiles(prev, contents, day, files).value;
    TransferFilesCell(prev, contents, day, files, v, i, j, d, t);
    SlotWrittenNext(init, prev, now, days, contents, k, v, i, j, d, t);
  }

  /** SlotWritten carries over from k - 1 slots to k when the cell changes only in slot k - 1, as its files say. */
  lemma SlotWrittenNext(init: map<string, Var3>, prev: map<string, Var3>, now: map<string, Var3>, days: seq<seq<string>>,
                        contents: map<string, MerraFile>, k: nat, v: string, i: nat, j: nat, d: nat, t: nat)
    requires AnnualCubes(init) && ContentsValid(contents) && |days| == DaysPerNoLeapYear && 0 < k <= DaysPerNoLeapYear
    requires SameShapes(init, prev) && SameShapes(init, now)
    requires v in MerraVariables && v in init && i < init[v].n0 && j < init[v].n1
    requires d < DaysPerNoLeapYear && t < HoursPerDay
    requires SlotWritten(init, prev, days, contents, k - 1, v, i, j, d, t)
    requires SlotHour(d, t) < HoursPerYear
    requires now[v].cells[i][j][SlotHour(d, t)]
          == if d == k - 1 then CellAfterFiles(prev[v].cells[i][j][SlotHour(d, t)], days[k - 1], contents, v, i, j, t)
             else prev[v].cells[i][j][SlotHour(d, t)]
    ensures SlotWritten(init, now, days, contents, k, v, i, j, d, t)
  {
  }

  /**
   * After the walk through the first k day slots, hour t of slot d of a cell holds what the files
   * of the date of slot d left at hour t, for the slots walked, and is untouched in the others.
   */
  lemma {:induction false} CombineDaysSlots(init: map<string, Var3>, days: seq<seq<string>>,
                                            contents: map<string, MerraFile>, k: nat)
    requires AnnualCubes(init) && ContentsValid(contents) && |days| == DaysPerNoLeapYear && k <= DaysPerNoLeapYear
    requires CombineDays(init, days, contents, k).Ok?
    ensures SlotsWritten(init, CombineDays(init, days, contents, k).value, days, contents, k)
    decreases k
  {
    if k > 0 {
      var day, files := k - 1, days[k - 1];
      CombineDaysSlots(init, days, contents, day);
      CombineDaysLast(init, days, contents, k, day, files);
      SlotsStep(init, CombineDays(init, days, contents, day).value, days, contents, k, day, files);
    }
  }

  /** A file combine can open whose every MERRA variable fits a (nLat, nLon) slot. */
  predicate FileFits(contents: map<string, MerraFile>, f: string, nLat: nat, nLon: nat)
  {
    f in contents && forall v :: v in MerraVariables && v in contents[f].variables ==>
                                   BlockFits(contents[f].variables[v], nLat, nLon)
  }

  /** Every file of a day fits. */
  predicate DayFits(files: seq<string>, contents: map<string, MerraFile>, nLat: nat, nLon: nat)
  {
    forall f :: f in files ==> FileFits(contents, f, nLat, nLon)
  }

  lemma SameShapesCubes(a: map<string, Var3>, b: map<string, Var3>, nLat: nat, nLon: nat)
    requires CubesShaped(a, nLat, nLon) && SameShapes(a, b) && AnnualCubes(b)
    ensures CubesShaped(b, nLat, nLon)
  {
  }

  /** One day's transfers all succeed exactly when every file of the day opens and fits. */
  lemma {:induction false} TransferFilesOk(vars: map<string, Var3>, contents: map<string, MerraFile>, day: nat,
                                           files: seq<string>, nLat: nat, nLon: nat)
    requires CubesShaped(vars, nLat, nLon) && ContentsValid(contents) && day < DaysPerNoLeapYear
    ensures TransferFiles(vars, contents, day, files).Ok? <==> DayFits(files, contents, nLat, nLon)
    decreases |files|
  {
    if files != [] {
      var f := files[0];
      assert forall g :: g in files <==> g == f || g in files[1..];
      assert DayFits(files, contents, nLat, nLon) <==>
             FileFits(contents, f, nLat, nLon) && DayFits(files[1..], contents, nLat, nLon);
      if f in contents {
        var daily := contents[f].variables;
        var t := TransferVariables(vars, daily, day, MerraVariables);
        MerraVariablesDistinct();
        TransferVariablesOk(vars, daily, day, MerraVariables);
        TransferVariablesKeepsShapes(vars, daily, day);
        assert t.ok <==> FileFits(contents, f, nLat, nLon) by {
          forall v | v in MerraVariables ensures v in vars && vars[v].n0 == nLat && vars[v].n1 == nLon { }
        }
        if t.ok {
          SameShapesCubes(vars, t.vars, nLat, nLon);
          TransferFilesOk(t.vars, contents, day, files[1..], nLat, nLon);
        }
      }
    }
  }

  /** The first k day slots all fit, one slot after another. */
  predicate DaysFit(days: seq<seq<string>>, contents: map<string, MerraFile>, k: nat, nLat: nat, nLon: nat)
    requires k <= |days|
  {
    k == 0 || (DaysFit(days, contents, k - 1, nLat, nLon) && DayFits(days[k - 1], contents, nLat, nLon))
  }

  /** DaysFit says that every one of the first k slots fits. */
  lemma {:induction false} DaysFitAll(days: seq<seq<string>>, contents: map<string, MerraFile>, k: nat, nLat: nat, nLon: nat)
    requires k <= |days|
    ensures DaysFit(days, contents, k, nLat, nLon) <==> forall d :: 0 <= d < k ==> DayFits(days[d], contents, nLat, nLon)
  {
    if k > 0 {
      DaysFitAll(days, contents, k - 1, nLat, nLon);
    }
  }

  /** The walk through the first k day slots succeeds exactly when every one of those days fits. */
  lemma {:induction false} CombineDaysOk(init: map<string, Var3>, days: seq<seq<string>>, contents: map<string, MerraFile>,
                                         k: nat, nLat: nat, nLon: nat)
    requires CubesShaped(init, nLat, nLon) && ContentsValid(contents) && |days| == DaysPerNoLeapYear && k <= DaysPerNoLeapYear
    ensures CombineDays(init, days, contents, k).Ok? <==> DaysFit(days, contents, k, nLat, nLon)
    decreases k
  {
    if k > 0 {
      CombineDaysOk(init, days, contents, k - 1, nLat, nLon);
      CombineDaysOkNext(init, days, contents, k, nLat, nLon);
    }
  }

  /** The correspondence between success and fitting days carries over from k - 1 slots to k. */
  lemma CombineDaysOkNext(init: map<string, Var3>, days: seq<seq<string>>, contents: map<string, MerraFile>,
                          k: nat, nLat: nat, nLon: nat)
    requires CubesShaped(init, nLat, nLon) && ContentsValid(contents) && |days| == DaysPerNoLeapYear
    requires 0 < k <= DaysPerNoLeapYear
    requires CombineDays(init, days, contents, k - 1).Ok? <==> DaysFit(days, contents, k - 1, nLat, nLon)
    ensures CombineDays(init, days, contents, k).Ok? <==> DaysFit(days, contents, k, nLat, nLon)
  {
    assert DaysFit(days, contents, k, nLat, nLon)
           == (DaysFit(days, contents, k - 1, nLat, nLon) && DayFits(days[k - 1], contents, nLat, nLon));
    if CombineDays(init, days, contents, k - 1).Ok? {
      CombineDaysOkStep(init, days, contents, k - 1, nLat, nLon);
    } else {
      CombineDaysErrStays(init, days, contents, k - 1, k);
    }
  }

  /** After a walk through k slots that succeeded, the next slot succeeds exactly when its day fits. */
  lemma CombineDaysOkStep(init: map<string, Var3>, days: seq<seq<string>>, contents: map<string, MerraFile>,
                          k: nat, nLat: nat, nLon: nat)
    requires CubesShaped(init, nLat, nLon) && ContentsValid(contents) && |days| == DaysPerNoLeapYear && k < DaysPerNoLeapYear
    requires CombineDays(init, days, contents, k).Ok?
    ensures CombineDays(init, days, contents, k + 1).Ok? <==> DayFits(days[k], contents, nLat, nLon)
  {
    var prev := CombineDays(init, days, contents, k).value;
    CombineDaysStep(init, days, contents, k);
    SameShapesCubes(init, prev, nLat, nLon);
    TransferFilesOk(prev, contents, k, days[k], nLat, nLon);
  }

  /** A file that holds variable v, so that its transfer writes v. */
  predicate HasVariable(contents: map<string, MerraFile>, f: string, v: string)
  {
    f in contents && v in contents[f].variables
  }

  /** A cell no file of the day writes keeps the value it had. */
  lemma {:induction false} CellAfterFilesNone(x: real, files: seq<string>, contents: map<string, MerraFile>,
                                              v: string, i: nat, j: nat, t: nat)
    requires ContentsValid(contents)
    requires forall f :: f in files ==> !HasVariable(contents, f, v)
    ensures CellAfterFiles(x, files, contents, v, i, j, t) == x
    decreases |files|
  {
    if files != [] {
      assert files[0] in files;
      assert forall f :: f in files[1..] ==> f in files;
      CellAfterFilesNone(x, files[1..], contents, v, i, j, t);
    }
  }

  /** The last file of the day that holds v decides the cell: one more file either overwrites it or leaves it. */
  lemma {:induction false} CellAfterFilesSnoc(x: real, files: seq<string>, f: string, contents: map<string, MerraFile>,
                                              v: string, i: nat, j: nat, t: nat)
    requires ContentsValid(contents)
    ensures CellAfterFiles(x, files + [f], contents, v, i, j, t) ==
              if HasVariable(contents, f, v) then DailyCell(contents[f].variables[v], i, j, t)
              else CellAfterFiles(x, files, contents, v, i, j, t)
    decreases |files|
  {
    if files == [] {
      assert [f][1..] == [];
    } else {
      var g := files[0];
      var x' := if HasVariable(contents, g, v) then DailyCell(contents[g].variables[v], i, j, t) else x;
      assert (files + [f])[1..] == files[1..] + [f];
      CellAfterFilesSnoc(x', files[1..], f, contents, v, i, j, t);
    }
  }

  /**
   * combine succeeds exactly when every file name's date parses, some file is dated 1 January,
   * the first of those opens, pandas can represent the year, and every file of every date other
   * than 29 February opens and fits the grid of that first file.
   */
  lemma CombineSpecOk(names: seq<string>, contents: map<string, MerraFile>, year: int)
    requires 1000 <= year <= 9999 && ContentsValid(contents)
    ensures CombineSpec(names, contents, year).Ok? <==>
              && AllDatesParse(names, year)
              && var jan1 := FilesOn(names, year, Date(year, 1, 1));
                 && jan1 != [] && jan1[0] in contents
                 && FirstPandasYear <= year <= LastPandasYear
                 && forall d :: 0 <= d < DaysPerNoLeapYear ==>
                      DayFits(FilesOn(names, year, NoLeapDate(year, d)), contents,
                              |contents[jan1[0]].lat|, |contents[jan1[0]].lon|)
  {
    BadDateNameNone(names, year);
    var jan1 := FilesOn(names, year, Date(year, 1, 1));
    if AllDatesParse(names, year) && jan1 != [] && jan1[0] in contents && FirstPandasYear <= year <= LastPandasYear {
      var sample := contents[jan1[0]];
      var init := InitialVars(|sample.lat|, |sample.lon|);
      var days := DayFiles(names, year);
      CombineDaysOk(init, days, contents, DaysPerNoLeapYear, |sample.lat|, |sample.lon|);
      DaysFitAll(days, contents, DaysPerNoLeapYear, |sample.lat|, |sample.lon|);
      assert CombineSpec(names, contents, year).Ok? <==> CombineDays(init, days, contents, DaysPerNoLeapYear).Ok?;
    }
  }

  /**
   * What combine writes: the grid of the first 1 January file, and in every variable, cell and
   * hour t of day slot d, what the files of the d-th date other than 29 February left there,
   * the fill value where none of them holds the variable.
   */
  lemma CombineSpecCells(names: seq<string>, contents: map<string, MerraFile>, year: int)
    requires 1000 <= year <= 9999 && ContentsValid(contents)
    requires CombineSpec(names, contents, year).Ok?
    ensures var c := CombineSpec(names, contents, year).value;
            var sample := contents[FilesOn(names, year, Date(year, 1, 1))[0]];
            && c.lat == sample.lat && c.lon == sample.lon && c.year == year
            && CubesShaped(c.vars, |c.lat|, |c.lon|)
            && forall v: string, i: nat, j: nat, d: nat, t: nat |
                 v in MerraVariables && i < |c.lat| && j < |c.lon| && d < DaysPerNoLeapYear && t < HoursPerDay ::
                 c.vars[v].cells[i][j][SlotHour(d, t)] ==
                   CellAfterFiles(DefaultFillDouble, FilesOn(names, year, NoLeapDate(year, d)), contents, v, i, j, t)
  {
    var jan1 := FilesOn(names, year, Date(year, 1, 1));
    var sample := contents[jan1[0]];
    var init := InitialVars(|sample.lat|, |sample.lon|);
    var days := DayFiles(names, year);
    var vars := CombineDays(init, days, contents, DaysPerNoLeapYear).value;
    CombineDaysSlots(init, days, contents, DaysPerNoLeapYear);
    SameShapesCubes(init, vars, |sample.lat|, |sample.lon|);
    forall v: string, i: nat, j: nat, d: nat, t: nat |
      v in MerraVariables && i < |sample.lat| && j < |sample.lon| && d < DaysPerNoLeapYear && t < HoursPerDay
      ensures vars[v].cells[i][j][SlotHour(d, t)] ==
                CellAfterFiles(DefaultFillDouble, FilesOn(names, year, NoLeapDate(year, d)), contents, v, i, j, t)
    {
      HourOfSlot(d, t, 0);
      assert SlotWritten(init, vars, days, contents, DaysPerNoLeapYear, v, i, j, d, t);
      assert init[v].cells[i][j][SlotHour(d, t)] == DefaultFillDouble;
    }
  }

  /** The combined output file while it is open for writing. */
  class CombinedDataset {
    var lat: seq<real>
    var lon: seq<real>
    var year: int
    var vars: map<string, Var3>

    ghost predicate Valid()
      reads this
    {
      CubesShaped(vars, |lat|, |lon|)
    }

    /** initialize_dataset: dimensions lat, lon and time = 8760, and nine unwritten variables. */
    constructor (lat: seq<real>, lon: seq<real>, year: int)
      ensures Valid()
      ensures this.lat == lat && this.lon == lon && this.year == year
      ensures vars == InitialVars(|lat|, |lon|)
    {
      this.lat := lat;
      this.lon := lon;
      this.year := year;
      vars := InitialVars(|lat|, |lon|);
    }

    /**
     * transfer_merra_file: copy every variable the daily file has into hours [24 day, 24 day + 24),
     * checking the five corner equalities after each copy. ok is false when an exception other
     * than the caught KeyError escapes; the variables written before it keep their new values.
     */
    method TransferMerraFile(file: MerraFile, day: nat) returns (ok: bool)
      requires Valid() && ValidFile(file) && day < DaysPerNoLeapYear
      modifies this
      ensures Valid()
      ensures lat == old(lat) && lon == old(lon) && year == old(year)
      ensures Transfer(vars, ok) == TransferVariables(old(vars), file.variables, day, MerraVariables)
    {
      ghost var goal := TransferVariables(vars, file.variables, day, MerraVariables);
      var todo := MerraVariables;
      while todo != []
        invariant Valid() && lat == old(lat) && lon == old(lon) && year == old(year)
        invariant goal == TransferVariables(vars, file.variables, day, todo)
        decreases |todo|
      {
        var v := todo[0];
        TransferVariablesStep(vars, file.variables, day, todo);
        if v in vars && v in file.variables {
          var stop := TransferVariable(v, file.variables[v], day);
          if stop {
            return false;
          }
        }
        todo := todo[1..];
      }
      return true;
    }

    /**
     * The body of the try block for one variable present in both files. stop is true when it
     * raises: ValueError from a block that does not fit, or IndexError from the corner checks on
     * an empty grid (after the write).
     */
    method TransferVariable(v: string, daily: Var3, day: nat) returns (stop: bool)
      requires Valid() && v in vars && WellFormed(daily) && day < DaysPerNoLeapYear
      modifies this
      ensures Valid()
      ensures lat == old(lat) && lon == old(lon) && year == old(year)
      ensures var r := Reorder(daily);
              if !FitsSlot(r, old(vars)[v].n0, old(vars)[v].n1) then stop && vars == old(vars)
              else vars == old(vars)[v := WriteSlot(old(vars)[v], r, HoursPerDay * day)]
                   && stop == (old(vars)[v].n0 == 0 || old(vars)[v].n1 == 0)
    {
      var reordered := Reorder(daily);
      var startHour := HoursPerDay * day;
      var endHour := startHour + HoursPerDay;
      var before := vars[v];
      if !FitsSlot(reordered, before.n0, before.n1) {
        return true;
      }
      var c := WriteSlot(before, reordered, startHour);
      CubesShapedUpdate(vars, |lat|, |lon|, v, c);
      vars := vars[v := c];
      if before.n0 == 0 || before.n1 == 0 {
        return true;
      }
      // The five asserts after the copy: c's corners of the slot against daily's corners.
      TransferAsserts(before, daily, day, c, startHour, endHour);
      return false;
    }

    /** The inner loop of combine: open and transfer each of one day's files in turn. */
    method AddFiles(files: seq<string>, contents: map<string, MerraFile>, day: nat) returns (err: Option<CombineError>)
      requires Valid() && ContentsValid(contents) && day < DaysPerNoLeapYear
      modifies this
      ensures Valid()
      ensures lat == old(lat) && lon == old(lon) && year == old(year)
      ensures var t := TransferFiles(old(vars), contents, day, files);
              if t.Ok? then err.None? && vars == t.value else err == Some(t.error)
    {
      ghost var goal := TransferFiles(vars, contents, day, files);
      var todo := files;
      while todo != []
        invariant Valid() && lat == old(lat) && lon == old(lon) && year == old(year)
        invariant goal == TransferFiles(vars, contents, day, todo)
        decreases |todo|
      {
        var name := todo[0];
        if name !in contents {
          return Some(CannotOpen(name));
        }
        var ok := TransferMerraFile(contents[name], day);
        if !ok {
          return Some(TransferFailed(name));
        }
        todo := todo[1..];
      }
      return None;
    }

    /**
     * The date loop of combine: from 1 January to 31 December, skipping 29 February without
     * advancing the day slot, add each date's files to the slot of the day counter.
     */
    method AddYear(ghost days: seq<seq<string>>, files: map<Date, seq<string>>, contents: map<string, MerraFile>)
      returns (err: Option<CombineError>)
      requires Valid() && ContentsValid(contents) && |days| == DaysPerNoLeapYear
      requires forall d :: 0 <= d < DaysPerNoLeapYear ==> days[d] == Lookup(files, NoLeapDate(year, d))
      modifies this
      ensures Valid()
      ensures lat == old(lat) && lon == old(lon) && year == old(year)
      ensures var t := CombineDays(old(vars), days, contents, DaysPerNoLeapYear);
              if t.Ok? then err.None? && vars == t.value else err == Some(t.error)
    {
      var day := 0;
      var date := Date(year, 1, 1);
      while date.year == year
        invariant Valid() && lat == old(lat) && lon == old(lon) && year == old(year)
        invariant date.year == year ==> ValidDate(date) && day == DaysBefore(date)
        invariant date.year != year ==> day == DaysPerNoLeapYear
        invariant CombineDays(old(vars), days, contents, day) == Ok(vars)
        decreases DatesLeft(date, year)
      {
        CalendarStep(date, day);
        NextDateDatesLeft(date);
        err := AddDate(old(vars), days, files, contents, date, day);
        if err.Some? {
          return;
        }
        if !IsLeapDay(date) {
          day := day + 1;
        }
        date := NextDate(date);
      }
      return None;
    }

    /** One pass of the date loop of combine: nothing on 29 February, else the date's files into its slot. */
    method AddDate(ghost init: map<string, Var3>, ghost days: seq<seq<string>>, files: map<Date, seq<string>>,
                   contents: map<string, MerraFile>, date: Date, day: nat)
      returns (err: Option<CombineError>)
      requires Valid() && ContentsValid(contents) && |days| == DaysPerNoLeapYear && AnnualCubes(init)
      requires forall d :: 0 <= d < DaysPerNoLeapYear ==> days[d] == Lookup(files, NoLeapDate(year, d))
      requires date.year == year && ValidDate(date) && day == DaysBefore(date) && day < DaysPerNoLeapYear
      requires !IsLeapDay(date) ==> NoLeapDate(year, day) == date
      requires CombineDays(init, days, contents, day) == Ok(vars)
      modifies this
      ensures Valid()
      ensures lat == old(lat) && lon == old(lon) && year == old(year)
      ensures err.None? && IsLeapDay(date) ==> CombineDays(init, days, contents, day) == Ok(vars)
      ensures err.None? && !IsLeapDay(date) ==> CombineDays(init, days, contents, day + 1) == Ok(vars)
      ensures err.Some? ==> CombineDays(init, days, contents, DaysPerNoLeapYear) == Err(err.value)
    {
      if IsLeapDay(date) {
        return None;
      }
      var dayFiles := Lookup(files, date);
      err := AddFiles(dayFiles, contents, day);
      CombineDaysStep(init, days, contents, day);
      assert dayFiles == days[day];
      if err.Some? {
        CombineDaysErrStays(init, days, contents, day + 1, DaysPerNoLeapYear);
      }
    }
  }

  /**
   * combine: group the files by date, size the output after the 1 January sample, then walk the
   * calendar from 1 January to 31 December, skipping 29 February without advancing the day slot.
   */
  method Combine(names: seq<string>, contents: map<string, MerraFile>, year: int)
    returns (r: Result<CombinedDataset, CombineError>)
    requires 1000 <= year <= 9999 && ContentsValid(contents)
    ensures r.Ok? <==> CombineSpec(names, contents, year).Ok?
    ensures r.Err? ==> CombineSpec(names, contents, year) == Err(r.error)
    ensures r.Ok? ==> fresh(r.value) && r.value.Valid()
    ensures r.Ok? ==> CombineSpec(names, contents, year).value
                      == Combined(r.value.lat, r.value.lon, r.value.year, r.value.vars)
  {
    var grouped := GetMerraFilesByDate(names, year);
    if grouped.Err? {
      return Err(grouped.error);
    }
    var files := grouped.value;
    var jan1 := Lookup(files, Date(year, 1, 1));
    if jan1 == [] {
      return Err(NoSampleFile);
    }
    var sampleName := jan1[0];
    if sampleName !in contents {
      return Err(CannotOpen(sampleName));
    }
    var sample := contents[sampleName];
    var ds := new CombinedDataset(sample.lat, sample.lon, year);
    if year < FirstPandasYear || year > LastPandasYear {
      return Err(OutOfBoundsDatetime);
    }
    ghost var days := DayFiles(names, year);
    assert forall d :: 0 <= d < DaysPerNoLeapYear ==> days[d] == Lookup(files, NoLeapDate(year, d));
    var err := ds.AddYear(days, files, contents);
    if err.Some? {
      return Err(err.value);
    }
    return Ok(ds);
  }
}
