/**
 * rewrite.py: the older merge of a year of daily MERRA-2 files. Each daily (time, lat, lon)
 * variable is flattened to (time, latLong) with latLong = lat * nLon + lon. One such block per day
 * is appended to a list per variable while the calendar is walked with 29 February skipped, and
 * the lists are then written out as (latLong, yearDayIndex, time) variables.
 */
module Rewrite {
  import opened Wrappers
  import opened Text
  import opened Calendar
  import opened MerraData

  /** The ten variables the script copies, in the order it appends them. */
  const RewriteVariables: seq<string> :=
    ["U2M", "U10M", "U50M", "V2M", "V10M", "V50M", "T2M", "PS", "QV2M", "SWGDN"]

  /** SWGDN is read from the radiation file, every other variable from the single-level file. */
  predicate FromRadFile(tag: string) { tag == "SWGDN" }

  datatype RewriteError =
    | CannotOpen(name: string)                // Dataset(filename) on a file that is not there
    | MissingVariable(name: string, tag: string) // KeyError on data1.variables[variableTag]
    | EmptyAxis(name: string, tag: string)    // IndexError sizing np.zeros from X[0] and X[0][0]
    | OutputIndex                             // IndexError sizing or filling the output variables

  // ----- file names -----

  /** os.path.join(a, b) for two arguments. */
  function Join(a: string, b: string): (p: string)
    ensures (b == [] || b[0] != '/') ==> |p| >= |a| + |b| && p[..|a|] == a && p[|p| - |b|..] == b
    ensures b != [] && b[0] == '/' ==> p == b
  {
    if b != [] && b[0] == '/' then b
    else if a == [] || a[|a| - 1] == '/' then a + b
    else a + "/" + b
  }

  const ResourceRoot: string := "/scratch/mtcraig_root/mtcraig1/shared_data/merraData/resource/"

  function MerraRoot(powSys: string): string { ResourceRoot + powSys }

  /** The MERRA-2 stream a year belongs to: 300 up to 2010, 400 after. */
  function Stream(year: int): string { if year <= 2010 then "MERRA2_300" else "MERRA2_400" }

  /** baseWord1: the single-level file names of the year up to the date. */
  function SlvBase(powSys: string, year: int): string
  {
    Join(Join(MerraRoot(powSys), "raw"), Stream(year) + ".tavg1_2d_slv_Nx.")
  }

  /** baseWord2: the radiation file names of the year up to the date. */
  function RadBase(powSys: string, year: int): string
  {
    Join(Join(MerraRoot(powSys), "raw"), Stream(year) + ".tavg1_2d_rad_Nx.")
  }

  /** baseWord + date.strftime("%Y%m%d") + ".SUB.nc". */
  function DayFileName(base: string, date: Date): string
    requires ValidDate(date) && 1000 <= date.year <= 9999
  {
    base + FormatYmd(date) + ".SUB.nc"
  }

  /** The date of a daily file can be read back from its name, right after the base. */
  lemma DayFileNameDate(base: string, date: Date)
    requires ValidDate(date) && 1000 <= date.year <= 9999
    ensures |DayFileName(base, date)| == |base| + 15
    ensures DayFileName(base, date)[|base|..|base| + 8] == FormatYmd(date)
    ensures ParseYmd(DayFileName(base, date)[|base|..|base| + 8]) == Some(date)
  {
    ParseFormatYmd(date);
  }

  /** fileName: where the processed year is written. */
  function OutputFileName(powSys: string, year: int): string
  {
    Join(Join(MerraRoot(powSys), "processed"), "processedMERRA" + powSys + IntToString(year) + ".nc")
  }

  // ----- rewriteData -----

  /**
   * What rewriteData returns for a well-formed (time, lat, lon) variable x: one row per hour,
   * holding that hour's grid with the latitude rows laid end to end.
   */
  function Flatten(x: Var3): (r: seq<seq<real>>)
    requires WellFormed(x)
    ensures |r| == x.n0 && forall t :: 0 <= t < x.n0 ==> |r[t]| == x.n1 * x.n2
  {
    seq(x.n0, t requires 0 <= t < x.n0 =>
      seq(x.n1 * x.n2, k requires 0 <= k < x.n1 * x.n2 =>
        FlatIndexSplit(k, x.n1, x.n2);
        x.cells[t][k / x.n2][k % x.n2]))
  }

  /** Cell (t, lat, lon) lands at row t, position lat * nLon + lon, inside the row. */
  lemma FlattenCell(x: Var3, t: nat, i: nat, j: nat)
    requires WellFormed(x) && t < x.n0 && i < x.n1 && j < x.n2
    ensures FlatIndex(i, j, x.n2) < x.n1 * x.n2
    ensures Flatten(x)[t][FlatIndex(i, j, x.n2)] == x.cells[t][i][j]
  {
    FlatIndexRange(i, j, x.n1, x.n2);
    FlatIndexInverse(i, j, x.n2);
  }

  /**
   * rewriteData(data1, tag) as a value: KeyError for a missing variable, IndexError when the time
   * or latitude axis is empty (np.zeros is sized from X[0] and X[0][0]), otherwise the flattening.
   */
  function FlattenResult(f: MerraFile, name: string, tag: string): Result<seq<seq<real>>, RewriteError>
    requires ValidFile(f)
  {
    if tag !in f.variables then Err(MissingVariable(name, tag))
    else
      var x := f.variables[tag];
      if x.n0 == 0 || x.n1 == 0 then Err(EmptyAxis(name, tag)) else Ok(Flatten(x))
  }

  /** The rows of a two-dimensional array. */
  function Rows(a: array2<real>): (r: seq<seq<real>>)
    reads a
    ensures |r| == a.Length0 && forall t :: 0 <= t < a.Length0 ==> |r[t]| == a.Length1
  {
    seq(a.Length0, t requires 0 <= t < a.Length0 reads a =>
      seq(a.Length1, k requires 0 <= k < a.Length1 reads a => a[t, k]))
  }

  /**
   * One pass of rewriteData's loop over hours: walk the grid of hour t row by row, writing each
   * cell at the latLong counter, which starts at 0 and steps once per cell.
   */
  method FillRow(data: array2<real>, x: Var3, t: nat)
    requires WellFormed(x) && t < x.n0 && data.Length0 == x.n0 && data.Length1 == x.n1 * x.n2
    modifies data
    ensures forall t', k :: 0 <= t' < data.Length0 && t' != t && 0 <= k < data.Length1 ==> data[t', k] == old(data[t', k])
    ensures forall k :: 0 <= k < data.Length1 ==> data[t, k] == Flatten(x)[t][k]
  {
    var width := x.n1 * x.n2;
    var latLongIndex := 0;
    var i := 0;
    while i < x.n1
      invariant 0 <= i <= x.n1
      invariant latLongIndex == FlatIndex(i, 0, x.n2) && latLongIndex <= width
      invariant forall t', k :: 0 <= t' < data.Length0 && t' != t && 0 <= k < width ==> data[t', k] == old(data[t', k])
      invariant forall k :: 0 <= k < latLongIndex ==> data[t, k] == Flatten(x)[t][k]
    {
      var j := 0;
      while j < x.n2
        invariant 0 <= j <= x.n2
        invariant latLongIndex == FlatIndex(i, j, x.n2) && latLongIndex <= width
        invariant forall t', k :: 0 <= t' < data.Length0 && t' != t && 0 <= k < width ==> data[t', k] == old(data[t', k])
        invariant forall k :: 0 <= k < latLongIndex ==> data[t, k] == Flatten(x)[t][k]
      {
        FlattenCell(x, t, i, j);
        data[t, latLongIndex] := x.cells[t][i][j];
        latLongIndex := latLongIndex + 1;
        j := j + 1;
      }
      assert FlatIndex(i, x.n2, x.n2) == FlatIndex(i + 1, 0, x.n2);
      i := i + 1;
    }
    assert latLongIndex == width;
  }

  /**
   * rewriteData: fill a zero array of shape (time, lat * lon) cell by cell, the latLong counter
   * restarting at 0 for every hour and stepping once per grid cell.
   */
  method RewriteData(f: MerraFile, name: string, tag: string) returns (r: Result<array2<real>, RewriteError>)
    requires ValidFile(f)
    ensures r.Err? ==> FlattenResult(f, name, tag) == Err(r.error)
    ensures r.Ok? ==> fresh(r.value) && FlattenResult(f, name, tag) == Ok(Rows(r.value))
  {
    if tag !in f.variables {
      return Err(MissingVariable(name, tag));
    }
    var x := f.variables[tag];
    if x.n0 == 0 || x.n1 == 0 {
      return Err(EmptyAxis(name, tag));
    }
    var width := x.n1 * x.n2;
    var data := new real[x.n0, width]((_, _) => 0.0);
    var timeValueIndex := -1;
    var t := 0;
    while t < x.n0
      invariant 0 <= t <= x.n0 && timeValueIndex == t - 1
      invariant forall t', k :: 0 <= t' < t && 0 <= k < width ==> data[t', k] == Flatten(x)[t'][k]
    {
      timeValueIndex := timeValueIndex + 1;
      FillRow(data, x, timeValueIndex);
      t := t + 1;
    }
    assert Rows(data) == Flatten(x) by {
      forall t | 0 <= t < x.n0 ensures Rows(data)[t] == Flatten(x)[t] { }
    }
    return Ok(data);
  }

  // ----- the date loop -----

  /** masterDataset: a defaultdict(list) of daily blocks per variable. */
  type Master = map<string, seq<seq<seq<real>>>>

  /** masterDataset[tag]: the list of a variable, empty while nothing was appended to it. */
  function ListOf(master: Master, tag: string): seq<seq<seq<real>>>
  {
    if tag in master then master[tag] else []
  }

  /** masterDataset[tag].append(block). */
  function AppendEntry(master: Master, tag: string, block: seq<seq<real>>): (m: Master)
    ensures m.Keys == master.Keys + {tag}
    ensures ListOf(m, tag) == ListOf(master, tag) + [block]
    ensures forall u :: u != tag ==> ListOf(m, u) == ListOf(master, u)
  {
    master[tag := ListOf(master, tag) + [block]]
  }

  /** What rewriteData gives for variable tag, read from its file of the day. */
  function BlockOf(slv: MerraFile, rad: MerraFile, slvName: string, radName: string, tag: string)
    : Result<seq<seq<real>>, RewriteError>
    requires ValidFile(slv) && ValidFile(rad)
  {
    if FromRadFile(tag) then FlattenResult(rad, radName, tag) else FlattenResult(slv, slvName, tag)
  }

  /**
   * The appends of one pass of the date loop, from variable tags[0] on: the block of each
   * variable from its file, the first failing rewriteData stopping the script.
   */
  function AppendDay(master: Master, slv: MerraFile, rad: MerraFile, slvName: string, radName: string,
                     tags: seq<string>): Result<Master, RewriteError>
    requires ValidFile(slv) && ValidFile(rad)
    decreases |tags|
  {
    if tags == [] then Ok(master)
    else
      var block := BlockOf(slv, rad, slvName, radName, tags[0]);
      if block.Err? then Err(block.error)
      else AppendDay(AppendEntry(master, tags[0], block.value), slv, rad, slvName, radName, tags[1..])
  }

  predicate Distinct(tags: seq<string>)
  {
    forall a, b :: 0 <= a < b < |tags| ==> tags[a] != tags[b]
  }

  /**
   * One pass fails exactly when some variable cannot be read, and then with the error of a
   * variable that cannot be read.
   */
  lemma {:induction false} AppendDayOk(master: Master, slv: MerraFile, rad: MerraFile, slvName: string,
                                       radName: string, tags: seq<string>)
    requires ValidFile(slv) && ValidFile(rad)
    ensures AppendDay(master, slv, rad, slvName, radName, tags).Ok?
            <==> forall a :: 0 <= a < |tags| ==> BlockOf(slv, rad, slvName, radName, tags[a]).Ok?
    ensures AppendDay(master, slv, rad, slvName, radName, tags).Err? ==>
              exists a :: 0 <= a < |tags| && BlockOf(slv, rad, slvName, radName, tags[a])
                                              == Err(AppendDay(master, slv, rad, slvName, radName, tags).error)
    decreases |tags|
  {
    if tags != [] {
      var block := BlockOf(slv, rad, slvName, radName, tags[0]);
      if block.Ok? {
        var rest := tags[1..];
        var next := AppendEntry(master, tags[0], block.value);
        AppendDayOk(next, slv, rad, slvName, radName, rest);
        var r := AppendDay(next, slv, rad, slvName, radName, rest);
        if r.Err? {
          var a :| 0 <= a < |rest| && BlockOf(slv, rad, slvName, radName, rest[a]) == Err(r.error);
          assert tags[a + 1] == rest[a];
        } else {
          forall a | 0 <= a < |tags| ensures BlockOf(slv, rad, slvName, radName, tags[a]).Ok? {
            if a > 0 { assert tags[a] == rest[a - 1]; }
          }
        }
      }
    }
  }

  /**
   * A pass that succeeds appends exactly one block to the list of each variable, its own, and
   * leaves every other list alone.
   */
  lemma {:induction false} AppendDayLists(master: Master, slv: MerraFile, rad: MerraFile, slvName: string,
                                          radName: string, tags: seq<string>)
    requires ValidFile(slv) && ValidFile(rad) && Distinct(tags)
    requires AppendDay(master, slv, rad, slvName, radName, tags).Ok?
    ensures forall a :: 0 <= a < |tags| ==> BlockOf(slv, rad, slvName, radName, tags[a]).Ok?
    ensures var m := AppendDay(master, slv, rad, slvName, radName, tags).value;
            && (forall u :: u in m <==> u in master || u in tags)
            && (forall a :: 0 <= a < |tags| ==>
                  ListOf(m, tags[a]) == ListOf(master, tags[a]) + [BlockOf(slv, rad, slvName, radName, tags[a]).value])
            && (forall u :: u !in tags ==> ListOf(m, u) == ListOf(master, u))
    decreases |tags|
  {
    AppendDayOk(master, slv, rad, slvName, radName, tags);
    if tags != [] {
      var block := BlockOf(slv, rad, slvName, radName, tags[0]);
      var next := AppendEntry(master, tags[0], block.value);
      var rest := tags[1..];
      assert Distinct(rest);
      AppendDayLists(next, slv, rad, slvName, radName, rest);
      var m := AppendDay(next, slv, rad, slvName, radName, rest).value;
      assert forall u :: u in tags <==> u == tags[0] || u in rest;
      assert tags[0] !in rest by {
        forall b | 0 <= b < |rest| ensures rest[b] != tags[0] { assert rest[b] == tags[b + 1]; }
      }
      forall a | 0 <= a < |tags|
        ensures ListOf(m, tags[a]) == ListOf(master, tags[a]) + [BlockOf(slv, rad, slvName, radName, tags[a]).value]
      {
        if a > 0 {
          assert tags[a] == rest[a - 1] && tags[a] != tags[0];
        }
      }
    }
  }

  /** The name of the file variable tag is read from on date. */
  function SourceName(powSys: string, tag: string, date: Date): string
    requires ValidDate(date) && 1000 <= date.year <= 9999
  {
    DayFileName(if FromRadFile(tag) then RadBase(powSys, date.year) else SlvBase(powSys, date.year), date)
  }

  /** One pass of the date loop on date: open the two files, then append the ten blocks. */
  function DaySpec(master: Master, powSys: string, date: Date, contents: map<string, MerraFile>)
    : Result<Master, RewriteError>
    requires ContentsValid(contents) && ValidDate(date) && 1000 <= date.year <= 9999
  {
    var slvName := DayFileName(SlvBase(powSys, date.year), date);
    var radName := DayFileName(RadBase(powSys, date.year), date);
    if slvName !in contents then Err(CannotOpen(slvName))
    else if radName !in contents then Err(CannotOpen(radName))
    else AppendDay(master, contents[slvName], contents[radName], slvName, radName, RewriteVariables)
  }

  /** The lists after the first k day slots of the year, or the error that stops the date loop. */
  function YearSpec(powSys: string, year: int, contents: map<string, MerraFile>, k: nat): Result<Master, RewriteError>
    requires ContentsValid(contents) && 1000 <= year <= 9999 && k <= DaysPerNoLeapYear
  {
    if k == 0 then Ok(map[])
    else
      match YearSpec(powSys, year, contents, k - 1)
      case Err(e) => Err(e)
      case Ok(m) =>
        NoLeapDateOfSlot(year, k - 1);
        DaySpec(m, powSys, NoLeapDate(year, k - 1), contents)
  }

  lemma {:induction false} YearSpecErrStays(powSys: string, year: int, contents: map<string, MerraFile>, k: nat, n: nat)
    requires ContentsValid(contents) && 1000 <= year <= 9999 && k <= n <= DaysPerNoLeapYear
    requires YearSpec(powSys, year, contents, k).Err?
    ensures YearSpec(powSys, year, contents, n) == YearSpec(powSys, year, contents, k)
    decreases n - k
  {
    if k < n {
      YearSpecErrStays(powSys, year, contents, k, n - 1);
    }
  }

  lemma YearSpecStep(powSys: string, year: int, contents: map<string, MerraFile>, k: nat, master: Master)
    requires ContentsValid(contents) && 1000 <= year <= 9999 && k < DaysPerNoLeapYear
    requires YearSpec(powSys, year, contents, k) == Ok(master)
    ensures ValidDate(NoLeapDate(year, k)) && NoLeapDate(year, k).year == year
    ensures YearSpec(powSys, year, contents, k + 1) == DaySpec(master, powSys, NoLeapDate(year, k), contents)
  {
    NoLeapDateOfSlot(year, k);
  }

  /**
   * rewriteData's block of variable tag on date, with both of the day's files opened first, as the
   * script opens them before any variable is read.
   */
  function DayBlock(powSys: string, date: Date, contents: map<string, MerraFile>, tag: string)
    : Result<seq<seq<real>>, RewriteError>
    requires ContentsValid(contents) && ValidDate(date) && 1000 <= date.year <= 9999
  {
    var slvName := DayFileName(SlvBase(powSys, date.year), date);
    var radName := DayFileName(RadBase(powSys, date.year), date);
    if slvName !in contents then Err(CannotOpen(slvName))
    else if radName !in contents then Err(CannotOpen(radName))
    else BlockOf(contents[slvName], contents[radName], slvName, radName, tag)
  }

  // ----- what the date loop builds -----

  /** The blocks of one day, one per variable. */
  type Row = seq<Result<seq<seq<real>>, RewriteError>>

  /**
   * One pass of the date loop, given the blocks of its variables: it succeeds exactly when every
   * block can be read, fails with the error of one of them, and on success appends each variable's
   * block to that variable's list and leaves every other list alone.
   */
  ghost predicate PassFacts(master: Master, r: Result<Master, RewriteError>, row: Row, tags: seq<string>)
    requires |row| == |tags|
  {
    && (r.Ok? <==> forall a :: 0 <= a < |tags| ==> row[a].Ok?)
    && (r.Err? ==> exists a :: 0 <= a < |tags| && row[a] == Err(r.error))
    && (r.Ok? ==>
          && (forall u :: u in r.value <==> u in master || u in tags)
          && (forall a :: 0 <= a < |tags| ==> ListOf(r.value, tags[a]) == ListOf(master, tags[a]) + [row[a].value])
          && (forall u :: u !in tags ==> ListOf(r.value, u) == ListOf(master, u)))
  }

  lemma RewriteVariablesDistinct()
    ensures Distinct(RewriteVariables)
  {
  }

  /** The blocks of the ten variables on date, in the order they are read. */
  function DayRow(powSys: string, date: Date, contents: map<string, MerraFile>): (row: Row)
    requires ContentsValid(contents) && ValidDate(date) && 1000 <= date.year <= 9999
    ensures |row| == |RewriteVariables|
  {
    seq(|RewriteVariables|, a requires 0 <= a < |RewriteVariables| =>
      DayBlock(powSys, date, contents, RewriteVariables[a]))
  }

  /** The appends of one pass, over the blocks they read, in the terms of a pass of a run. */
  lemma AppendDayPass(master: Master, slv: MerraFile, rad: MerraFile, slvName: string, radName: string,
                      tags: seq<string>, row: Row)
    requires ValidFile(slv) && ValidFile(rad) && Distinct(tags) && |row| == |tags|
    requires forall a :: 0 <= a < |tags| ==> row[a] == BlockOf(slv, rad, slvName, radName, tags[a])
    ensures PassFacts(master, AppendDay(master, slv, rad, slvName, radName, tags), row, tags)
  {
    AppendDayOk(master, slv, rad, slvName, radName, tags);
    if AppendDay(master, slv, rad, slvName, radName, tags).Ok? {
      AppendDayLists(master, slv, rad, slvName, radName, tags);
    }
  }

  /** With both files of the day open, the pass is the ten appends in order. */
  lemma DayPassRead(master: Master, powSys: string, date: Date, contents: map<string, MerraFile>)
    requires ContentsValid(contents) && ValidDate(date) && 1000 <= date.year <= 9999
    requires DayFileName(SlvBase(powSys, date.year), date) in contents
    requires DayFileName(RadBase(powSys, date.year), date) in contents
    ensures PassFacts(master, DaySpec(master, powSys, date, contents), DayRow(powSys, date, contents), RewriteVariables)
  {
    var slvName := DayFileName(SlvBase(powSys, date.year), date);
    var radName := DayFileName(RadBase(powSys, date.year), date);
    var slv, rad := contents[slvName], contents[radName];
    var row := DayRow(powSys, date, contents);
    assert forall a :: 0 <= a < |RewriteVariables| ==>
             row[a] == BlockOf(slv, rad, slvName, radName, RewriteVariables[a]);
    assert DaySpec(master, powSys, date, contents) == AppendDay(master, slv, rad, slvName, radName, RewriteVariables);
    RewriteVariablesDistinct();
    AppendDayPass(master, slv, rad, slvName, radName, RewriteVariables, row);
  }

  /**
   * One pass of the date loop succeeds exactly when all ten blocks of the day can be read, and then
   * appends each variable's block to that variable's own list.
   */
  lemma DaySpecMeaning(master: Master, powSys: string, date: Date, contents: map<string, MerraFile>)
    requires ContentsValid(contents) && ValidDate(date) && 1000 <= date.year <= 9999
    ensures PassFacts(master, DaySpec(master, powSys, date, contents), DayRow(powSys, date, contents), RewriteVariables)
  {
    if DayFileName(SlvBase(powSys, date.year), date) in contents && DayFileName(RadBase(powSys, date.year), date) in contents {
      DayPassRead(master, powSys, date, contents);
    } else {
      var r := DaySpec(master, powSys, date, contents);
      assert r.Err?;
      assert DayRow(powSys, date, contents)[0] == Err(r.error);
    }
  }

  /**
   * The first k passes of a date loop: pass d takes states[d] to states[d + 1] with the blocks
   * blocks[d], starting from empty lists, and an error ends the loop.
   */
  ghost predicate RunFacts(states: seq<Result<Master, RewriteError>>, blocks: seq<Row>, tags: seq<string>, k: nat)
  {
    && k < |states| && k <= |blocks|
    && states[0] == Ok(map[])
    && (forall d :: 0 <= d < k ==> |blocks[d]| == |tags|)
    && (forall d :: 0 <= d < k && states[d].Err? ==> states[d + 1] == states[d])
    && (forall d :: 0 <= d < k && states[d].Ok? && |blocks[d]| == |tags| ==>
          PassFacts(states[d].value, states[d + 1], blocks[d], tags))
  }

  lemma RunFactsPrefix(states: seq<Result<Master, RewriteError>>, blocks: seq<Row>, tags: seq<string>, k: nat)
    requires 0 < k && RunFacts(states, blocks, tags, k)
    ensures RunFacts(states, blocks, tags, k - 1)
  {
  }

  /** The loop gets through k passes exactly when every block of those passes can be read. */
  lemma {:induction false} RunOk(states: seq<Result<Master, RewriteError>>, blocks: seq<Row>, tags: seq<string>, k: nat)
    requires RunFacts(states, blocks, tags, k)
    ensures states[k].Ok? <==> forall d, a :: 0 <= d < k && 0 <= a < |tags| ==> blocks[d][a].Ok?
  {
    if k > 0 {
      RunFactsPrefix(states, blocks, tags, k);
      RunOk(states, blocks, tags, k - 1);
      var last := k - 1;
      if states[last].Ok? {
        assert PassFacts(states[last].value, states[k], blocks[last], tags);
        if states[k].Ok? {
          forall d, a | 0 <= d < k && 0 <= a < |tags| ensures blocks[d][a].Ok? {
            if d == last {
            }
          }
        } else {
          var a :| 0 <= a < |tags| && !blocks[last][a].Ok?;
        }
      } else {
        assert states[k] == states[last];
        var d, a :| 0 <= d < last && 0 <= a < |tags| && !blocks[d][a].Ok?;
      }
    }
  }

  /** A loop stopped within k passes stopped with the error of one of the blocks of those passes. */
  lemma {:induction false} RunErr(states: seq<Result<Master, RewriteError>>, blocks: seq<Row>, tags: seq<string>, k: nat)
    requires RunFacts(states, blocks, tags, k) && states[k].Err?
    ensures exists d, a :: 0 <= d < k && 0 <= a < |tags| && blocks[d][a] == Err(states[k].error)
  {
    var last := k - 1;
    RunFactsPrefix(states, blocks, tags, k);
    if states[last].Ok? {
      assert PassFacts(states[last].value, states[k], blocks[last], tags);
      var a :| 0 <= a < |tags| && blocks[last][a] == Err(states[k].error);
    } else {
      assert states[k] == states[last];
      RunErr(states, blocks, tags, last);
      var d, a :| 0 <= d < last && 0 <= a < |tags| && blocks[d][a] == Err(states[last].error);
    }
  }

  /**
   * After k passes without error, the lists are exactly those of the variables, when there was a
   * pass at all, and each holds the k blocks of its variable in the order of the passes.
   */
  lemma {:induction false} RunLists(states: seq<Result<Master, RewriteError>>, blocks: seq<Row>, tags: seq<string>, k: nat)
    requires RunFacts(states, blocks, tags, k) && states[k].Ok?
    ensures forall u :: u in states[k].value <==> k > 0 && u in tags
    ensures forall a :: 0 <= a < |tags| ==>
              && |ListOf(states[k].value, tags[a])| == k
              && forall d :: 0 <= d < k ==> blocks[d][a].Ok? && ListOf(states[k].value, tags[a])[d] == blocks[d][a].value
  {
    if k > 0 {
      var last := k - 1;
      RunFactsPrefix(states, blocks, tags, k);
      if states[last].Err? {
        assert false;
      }
      RunLists(states, blocks, tags, last);
      var m, m' := states[last].value, states[k].value;
      assert PassFacts(m, states[k], blocks[last], tags);
      forall a | 0 <= a < |tags|
        ensures |ListOf(m', tags[a])| == k
        ensures forall d :: 0 <= d < k ==> blocks[d][a].Ok? && ListOf(m', tags[a])[d] == blocks[d][a].value
      {
        assert ListOf(m', tags[a]) == ListOf(m, tags[a]) + [blocks[last][a].value];
      }
    }
  }

  /** The blocks of day slot d, in the order the variables are read. */
  function SlotRow(powSys: string, year: int, contents: map<string, MerraFile>, d: nat): (row: Row)
    requires ContentsValid(contents) && 1000 <= year <= 9999 && d < DaysPerNoLeapYear
    ensures |row| == |RewriteVariables|
  {
    NoLeapDateOfSlot(year, d);
    DayRow(powSys, NoLeapDate(year, d), contents)
  }

  /** Pass d of the date loop works on the blocks of day slot d. */
  lemma SlotPass(powSys: string, year: int, contents: map<string, MerraFile>, d: nat, master: Master)
    requires ContentsValid(contents) && 1000 <= year <= 9999 && d < DaysPerNoLeapYear
    requires YearSpec(powSys, year, contents, d) == Ok(master)
    ensures PassFacts(master, YearSpec(powSys, year, contents, d + 1), SlotRow(powSys, year, contents, d), RewriteVariables)
  {
    YearSpecStep(powSys, year, contents, d, master);
    DaySpecMeaning(master, powSys, NoLeapDate(year, d), contents);
  }

  /** The states of the date loop after each number of slots, 0 to 365. */
  ghost function YearStatesOf(powSys: string, year: int, contents: map<string, MerraFile>): seq<Result<Master, RewriteError>>
    requires ContentsValid(contents) && 1000 <= year <= 9999
  {
    seq(DaysPerNoLeapYear + 1, k requires 0 <= k <= DaysPerNoLeapYear => YearSpec(powSys, year, contents, k))
  }

  /** The blocks of the 365 day slots. */
  ghost function YearRowsOf(powSys: string, year: int, contents: map<string, MerraFile>): seq<Row>
    requires ContentsValid(contents) && 1000 <= year <= 9999
  {
    seq(DaysPerNoLeapYear, d requires 0 <= d < DaysPerNoLeapYear => SlotRow(powSys, year, contents, d))
  }

  lemma YearRowsAt(powSys: string, year: int, contents: map<string, MerraFile>, d: int)
    requires ContentsValid(contents) && 1000 <= year <= 9999 && 0 <= d < DaysPerNoLeapYear
    ensures YearRowsOf(powSys, year, contents)[d] == SlotRow(powSys, year, contents, d)
  {
  }

  /** The date loop of a year is a run of 365 passes over the blocks of its day slots. */
  lemma YearRun(powSys: string, year: int, contents: map<string, MerraFile>, states: seq<Result<Master, RewriteError>>, blocks: seq<Row>)
    requires ContentsValid(contents) && 1000 <= year <= 9999
    requires states == YearStatesOf(powSys, year, contents) && blocks == YearRowsOf(powSys, year, contents)
    ensures RunFacts(states, blocks, RewriteVariables, DaysPerNoLeapYear)
  {
    forall d | 0 <= d < DaysPerNoLeapYear && states[d].Err? ensures states[d + 1] == states[d] {
      YearSpecErrStays(powSys, year, contents, d, d + 1);
    }
    forall d | 0 <= d < DaysPerNoLeapYear && states[d].Ok? && |blocks[d]| == |RewriteVariables|
      ensures PassFacts(states[d].value, states[d + 1], blocks[d], RewriteVariables)
    {
      YearRowsAt(powSys, year, contents, d);
      SlotPass(powSys, year, contents, d, states[d].value);
    }
  }

  /** The date loop of a year gets through all 365 slots exactly when every block of every slot can be read. */
  lemma YearSpecOk(powSys: string, year: int, contents: map<string, MerraFile>)
    requires ContentsValid(contents) && 1000 <= year <= 9999
    ensures YearSpec(powSys, year, contents, DaysPerNoLeapYear).Ok?
            <==> forall d, a :: 0 <= d < DaysPerNoLeapYear && 0 <= a < |RewriteVariables| ==>
                   SlotRow(powSys, year, contents, d)[a].Ok?
  {
    var states, blocks := YearStatesOf(powSys, year, contents), YearRowsOf(powSys, year, contents);
    YearRun(powSys, year, contents, states, blocks);
    RunOk(states, blocks, RewriteVariables, DaysPerNoLeapYear);
    assert states[DaysPerNoLeapYear] == YearSpec(powSys, year, contents, DaysPerNoLeapYear);
    if states[DaysPerNoLeapYear].Ok? {
      forall d, a | 0 <= d < DaysPerNoLeapYear && 0 <= a < |RewriteVariables|
        ensures SlotRow(powSys, year, contents, d)[a].Ok?
      {
        YearRowsAt(powSys, year, contents, d);
      }
    } else {
      var d, a :| 0 <= d < DaysPerNoLeapYear && 0 <= a < |RewriteVariables| && !blocks[d][a].Ok?;
      YearRowsAt(powSys, year, contents, d);
    }
  }

  /** A date loop that stops stops with the error of a block of one of the day slots. */
  lemma YearSpecErr(powSys: string, year: int, contents: map<string, MerraFile>)
    requires ContentsValid(contents) && 1000 <= year <= 9999
    requires YearSpec(powSys, year, contents, DaysPerNoLeapYear).Err?
    ensures exists d, a :: 0 <= d < DaysPerNoLeapYear && 0 <= a < |RewriteVariables|
                           && SlotRow(powSys, year, contents, d)[a] == Err(YearSpec(powSys, year, contents, DaysPerNoLeapYear).error)
  {
    var states, blocks := YearStatesOf(powSys, year, contents), YearRowsOf(powSys, year, contents);
    YearRun(powSys, year, contents, states, blocks);
    assert states[DaysPerNoLeapYear] == YearSpec(powSys, year, contents, DaysPerNoLeapYear);
    RunErr(states, blocks, RewriteVariables, DaysPerNoLeapYear);
    var d, a :| 0 <= d < DaysPerNoLeapYear && 0 <= a < |RewriteVariables|
                && blocks[d][a] == Err(states[DaysPerNoLeapYear].error);
    YearRowsAt(powSys, year, contents, d);
  }

  /**
   * A date loop that gets through the year leaves the ten lists, and no others, with 365 blocks
   * each: block d of a variable is its block of day slot d.
   */
  lemma YearListsOfRows(powSys: string, year: int, contents: map<string, MerraFile>, m: Master, blocks: seq<Row>)
    requires ContentsValid(contents) && 1000 <= year <= 9999
    requires YearSpec(powSys, year, contents, DaysPerNoLeapYear) == Ok(m)
    requires blocks == YearRowsOf(powSys, year, contents)
    ensures |blocks| == DaysPerNoLeapYear
    ensures forall d :: 0 <= d < DaysPerNoLeapYear ==> |blocks[d]| == |RewriteVariables|
    ensures forall u :: u in m <==> u in RewriteVariables
    ensures forall a :: 0 <= a < |RewriteVariables| ==>
              && |ListOf(m, RewriteVariables[a])| == DaysPerNoLeapYear
              && forall d :: 0 <= d < DaysPerNoLeapYear ==>
                   blocks[d][a].Ok? && ListOf(m, RewriteVariables[a])[d] == blocks[d][a].value
  {
    var states := YearStatesOf(powSys, year, contents);
    YearRun(powSys, year, contents, states, blocks);
    assert states[DaysPerNoLeapYear] == YearSpec(powSys, year, contents, DaysPerNoLeapYear);
    RunLists(states, blocks, RewriteVariables, DaysPerNoLeapYear);
  }

  lemma YearSpecLists(powSys: string, year: int, contents: map<string, MerraFile>)
    requires ContentsValid(contents) && 1000 <= year <= 9999
    requires YearSpec(powSys, year, contents, DaysPerNoLeapYear).Ok?
    ensures var m := YearSpec(powSys, year, contents, DaysPerNoLeapYear).value;
            && (forall u :: u in m <==> u in RewriteVariables)
            && forall a :: 0 <= a < |RewriteVariables| ==>
                 && |ListOf(m, RewriteVariables[a])| == DaysPerNoLeapYear
                 && forall d :: 0 <= d < DaysPerNoLeapYear ==>
                      SlotRow(powSys, year, contents, d)[a].Ok?
                      && ListOf(m, RewriteVariables[a])[d] == SlotRow(powSys, year, contents, d)[a].value
  {
    var m := YearSpec(powSys, year, contents, DaysPerNoLeapYear).value;
    var blocks := YearRowsOf(powSys, year, contents);
    YearListsOfRows(powSys, year, contents, m, blocks);
    forall d, a | 0 <= d < DaysPerNoLeapYear && 0 <= a < |RewriteVariables|
      ensures SlotRow(powSys, year, contents, d)[a].Ok?
      ensures ListOf(m, RewriteVariables[a])[d] == SlotRow(powSys, year, contents, d)[a].value
    {
      SlotListAt(powSys, year, contents, m, blocks, d, a);
    }
  }

  lemma SlotListAt(powSys: string, year: int, contents: map<string, MerraFile>, m: Master, blocks: seq<Row>, d: int, a: int)
    requires ContentsValid(contents) && 1000 <= year <= 9999 && 0 <= d < DaysPerNoLeapYear && 0 <= a < |RewriteVariables|
    requires blocks == YearRowsOf(powSys, year, contents)
    requires |ListOf(m, RewriteVariables[a])| == DaysPerNoLeapYear
    requires blocks[d][a].Ok? && ListOf(m, RewriteVariables[a])[d] == blocks[d][a].value
    ensures SlotRow(powSys, year, contents, d)[a].Ok?
    ensures ListOf(m, RewriteVariables[a])[d] == SlotRow(powSys, year, contents, d)[a].value
  {
    YearRowsAt(powSys, year, contents, d);
  }

  /**
   * One pass of the date loop: on 29 February the loop first steps to 1 March. The date worked on
   * is then the date of slot daysPassed, and the next date is either the date of slot
   * daysPassed + 1 or, after 31 December, past end_date with daysPassed + 1 == 365.
   */
  lemma LoopStep(date: Date, daysPassed: int)
    requires ValidDate(date) && daysPassed == DaysBefore(date)
    ensures var d := if date.year % 4 == 0 && date.month == 2 && date.day == 29 then NextDate(date) else date;
            && ValidDate(d) && d.year == date.year && !IsLeapDay(d) && 0 <= daysPassed < DaysPerNoLeapYear
            && NoLeapDate(date.year, daysPassed) == d
            && 0 <= DatesLeft(NextDate(d), date.year) < DatesLeft(date, date.year)
            && (NextDate(d).year == date.year ==> daysPassed + 1 == DaysBefore(NextDate(d)))
            && (NextDate(d).year != date.year ==>
                  NextDate(d) == Date(date.year + 1, 1, 1) && daysPassed + 1 == DaysPerNoLeapYear)
  {
    var d := date;
    CalendarStep(date, daysPassed);
    NextDateDatesLeft(date);
    if date.year % 4 == 0 && date.month == 2 && date.day == 29 {
      d := NextDate(date);
      CalendarStep(d, daysPassed);
      NextDateDatesLeft(d);
    }
  }

  /** What the date loop leaves: the grid of the 1 January file, the lists, and the day counter. */
  datatype Extracted = Extracted(lats: seq<real>, lons: seq<real>, master: Master, daysPassed: nat)

  /** The script up to the end of the date loop. */
  function ExtractSpec(powSys: string, year: int, contents: map<string, MerraFile>): Result<Extracted, RewriteError>
    requires ContentsValid(contents) && 1000 <= year <= 9999
  {
    var first := DayFileName(SlvBase(powSys, year), Date(year, 1, 1));
    if first !in contents then Err(CannotOpen(first))
    else
      match YearSpec(powSys, year, contents, DaysPerNoLeapYear)
      case Err(e) => Err(e)
      case Ok(m) => Ok(Extracted(contents[first].lat, contents[first].lon, m, DaysPerNoLeapYear))
  }

  /** start_date <= end_date on dates. */
  predicate DateLeq(a: Date, b: Date)
  {
    a.year < b.year || (a.year == b.year && (a.month < b.month || (a.month == b.month && a.day <= b.day)))
  }

  /** rewriteData on the file the variable tag comes from: data2 for SWGDN, data1 for the others. */
  method ReadBlock(data1: MerraFile, data2: MerraFile, filename1: string, filename2: string, tag: string)
    returns (r: Result<seq<seq<real>>, RewriteError>)
    requires ValidFile(data1) && ValidFile(data2)
    ensures r == BlockOf(data1, data2, filename1, filename2, tag)
  {
    var block;
    if FromRadFile(tag) {
      block := RewriteData(data2, filename2, tag);
    } else {
      block := RewriteData(data1, filename1, tag);
    }
    if block.Err? {
      return Err(block.error);
    }
    return Ok(Rows(block.value));
  }

  lemma AppendDayStep(master: Master, slv: MerraFile, rad: MerraFile, slvName: string, radName: string,
                      tags: seq<string>, p: nat)
    requires ValidFile(slv) && ValidFile(rad) && p < |tags|
    ensures var block := BlockOf(slv, rad, slvName, radName, tags[p]);
            AppendDay(master, slv, rad, slvName, radName, tags[p..])
            == if block.Err? then Err(block.error)
               else AppendDay(AppendEntry(master, tags[p], block.value), slv, rad, slvName, radName, tags[p + 1..])
  {
    assert tags[p..][1..] == tags[p + 1..];
  }

  /** The appends of one pass, variable by variable in the order of tags. */
  method AppendBlocks(master: Master, data1: MerraFile, data2: MerraFile, filename1: string, filename2: string,
                      tags: seq<string>)
    returns (r: Result<Master, RewriteError>)
    requires ValidFile(data1) && ValidFile(data2)
    ensures r == AppendDay(master, data1, data2, filename1, filename2, tags)
  {
    ghost var all := AppendDay(master, data1, data2, filename1, filename2, tags);
    assert tags[0..] == tags;
    var m := master;
    var p := 0;
    while p < |tags|
      invariant 0 <= p <= |tags|
      invariant all == AppendDay(m, data1, data2, filename1, filename2, tags[p..])
    {
      var block := ReadBlock(data1, data2, filename1, filename2, tags[p]);
      AppendDayStep(m, data1, data2, filename1, filename2, tags, p);
      if block.Err? {
        return Err(block.error);
      }
      m := AppendEntry(m, tags[p], block.value);
      p := p + 1;
    }
    assert tags[p..] == [];
    return Ok(m);
  }

  /** One pass of the date loop's body after the leap-day check: both files, ten appends. */
  method AppendDayBlocks(master: Master, powSys: string, date: Date, contents: map<string, MerraFile>)
    returns (r: Result<Master, RewriteError>)
    requires ContentsValid(contents) && ValidDate(date) && 1000 <= date.year <= 9999
    ensures r == DaySpec(master, powSys, date, contents)
  {
    var filename1 := DayFileName(SlvBase(powSys, date.year), date);
    var filename2 := DayFileName(RadBase(powSys, date.year), date);
    if filename1 !in contents {
      return Err(CannotOpen(filename1));
    }
    if filename2 !in contents {
      return Err(CannotOpen(filename2));
    }
    r := AppendBlocks(master, contents[filename1], contents[filename2], filename1, filename2, RewriteVariables);
  }

  /** states[k] is the state of the lists after k day slots, for every k up to 365. */
  ghost predicate YearStates(states: seq<Result<Master, RewriteError>>, powSys: string, year: int,
                             contents: map<string, MerraFile>)
    requires ContentsValid(contents) && 1000 <= year <= 9999
  {
    && |states| == DaysPerNoLeapYear + 1
    && forall k {:trigger YearSpec(powSys, year, contents, k)} :: 0 <= k <= DaysPerNoLeapYear ==>
         states[k] == YearSpec(powSys, year, contents, k)
  }

  /**
   * The body of the date loop: step over 29 February, append the day's blocks, count the day and
   * step to the next date.
   */
  method DatePass(ghost states: seq<Result<Master, RewriteError>>, master: Master, powSys: string, year: int,
                  contents: map<string, MerraFile>, date: Date, daysPassed: nat)
    returns (r: Result<Master, RewriteError>, next: Date)
    requires ContentsValid(contents) && 1000 <= year <= 9999
    requires date.year == year && ValidDate(date) && daysPassed == DaysBefore(date)
    requires YearStates(states, powSys, year, contents)
    requires daysPassed < DaysPerNoLeapYear && states[daysPassed] == Ok(master)
    ensures r == states[daysPassed + 1]
    ensures 0 <= DatesLeft(next, year) < DatesLeft(date, year)
    ensures next.year == year ==> ValidDate(next) && daysPassed + 1 == DaysBefore(next)
    ensures next.year != year ==> next == Date(year + 1, 1, 1) && daysPassed + 1 == DaysPerNoLeapYear
  {
    assert YearSpec(powSys, year, contents, daysPassed) == Ok(master);
    assert states[daysPassed + 1] == YearSpec(powSys, year, contents, daysPassed + 1);
    LoopStep(date, daysPassed);
    var startDate := date;
    if startDate.year % 4 == 0 && startDate.month == 2 && startDate.day == 29 {
      startDate := NextDate(startDate);
    }
    assert startDate == NoLeapDate(year, daysPassed);
    YearSpecStep(powSys, year, contents, daysPassed, master);
    r := AppendDayBlocks(master, powSys, startDate, contents);
    next := NextDate(startDate);
  }

  /**
   * The date loop: walk from 1 January to 31 December, stepping over 29 February, appending each
   * day's blocks and counting the days in daysPassed, which ends at 365 whatever the year.
   */
  method DateLoop(ghost states: seq<Result<Master, RewriteError>>, powSys: string, year: int,
                  contents: map<string, MerraFile>)
    returns (r: Result<Master, RewriteError>, daysPassed: nat)
    requires ContentsValid(contents) && 1000 <= year <= 9999
    requires YearStates(states, powSys, year, contents)
    requires states[0] == Ok(map[])
    requires forall k :: 0 <= k < DaysPerNoLeapYear && states[k].Err? ==> states[DaysPerNoLeapYear] == states[k]
    ensures r == states[DaysPerNoLeapYear]
    ensures r.Ok? ==> daysPassed == DaysPerNoLeapYear
  {
    var endDate := Date(year, 12, 31);
    var master: Master := map[];
    daysPassed := 0;
    var date := Date(year, 1, 1);
    while DateLeq(date, endDate)
      invariant date.year == year ==> ValidDate(date) && daysPassed == DaysBefore(date)
      invariant date.year != year ==> date == Date(year + 1, 1, 1) && daysPassed == DaysPerNoLeapYear
      invariant 0 <= daysPassed <= DaysPerNoLeapYear
      invariant states[daysPassed] == Ok(master)
      decreases DatesLeft(date, year)
    {
      DaysBeforeBounds(date);
      var day;
      day, date := DatePass(states, master, powSys, year, contents, date, daysPassed);
      if day.Err? {
        return day, daysPassed;
      }
      master := day.value;
      daysPassed := daysPassed + 1;
    }
    return Ok(master), daysPassed;
  }

  /** The script up to the end of the date loop: read the grid of the 1 January file, then the loop. */
  method ExtractYear(powSys: string, year: int, contents: map<string, MerraFile>) returns (r: Result<Extracted, RewriteError>)
    requires ContentsValid(contents) && 1000 <= year <= 9999
    ensures r == ExtractSpec(powSys, year, contents)
  {
    var startDate := Date(year, 1, 1);
    var first := DayFileName(SlvBase(powSys, year), startDate);
    if first !in contents {
      return Err(CannotOpen(first));
    }
    var lats, lons := contents[first].lat, contents[first].lon;
    ghost var states := seq(DaysPerNoLeapYear + 1, k requires 0 <= k <= DaysPerNoLeapYear =>
                                                  YearSpec(powSys, year, contents, k));
    forall k | 0 <= k < DaysPerNoLeapYear && states[k].Err?
      ensures states[DaysPerNoLeapYear] == states[k]
    {
      YearSpecErrStays(powSys, year, contents, k, DaysPerNoLeapYear);
    }
    var master, daysPassed := DateLoop(states, powSys, year, contents);
    if master.Err? {
      return Err(master.error);
    }
    return Ok(Extracted(lats, lons, master.value, daysPassed));
  }

  // ----- writing the processed file -----

  /** The three output dimensions, read off the U2M list: yearDayIndex, time and latLong. */
  datatype Dims = Dims(days: nat, times: nat, latLongs: nat)

  /**
   * createDimension for yearDayIndex, time and latLong: len(U2M), len(U2M[0]) and len(U2M[0][0]),
   * an IndexError when U2M has no block or its first block no hour.
   */
  function OutputDims(master: Master): (r: Result<Dims, RewriteError>)
    ensures r.Ok? <==> |ListOf(master, "U2M")| > 0 && |ListOf(master, "U2M")[0]| > 0
    ensures r.Ok? ==> r.value.days == |ListOf(master, "U2M")|
  {
    var u := ListOf(master, "U2M");
    if |u| == 0 || |u[0]| == 0 then Err(OutputIndex) else Ok(Dims(|u|, |u[0]|, |u[0][0]|))
  }

  /** masterDataset[tag][d][t][k] exists: no IndexError reading it. */
  predicate CellIn(list: seq<seq<seq<real>>>, d: nat, t: nat, k: nat)
  {
    d < |list| && t < |list[d]| && k < |list[d][t]|
  }

  function Cell(list: seq<seq<seq<real>>>, d: nat, t: nat, k: nat): real
    requires CellIn(list, d, t, k)
  {
    list[d][t][k]
  }

  /** Every cell the output loops read exists, for each of the ten variables. */
  predicate Covers(master: Master, dims: Dims)
  {
    forall a, k, d, t :: 0 <= a < |RewriteVariables| && 0 <= k < dims.latLongs && 0 <= d < dims.days && 0 <= t < dims.times ==>
      CellIn(ListOf(master, RewriteVariables[a]), d, t, k)
  }

  /** The (latLong, yearDayIndex, time) variable holding list[d][t][k] at [k, d, t]. */
  function Transposed(list: seq<seq<seq<real>>>, dims: Dims): (x: Var3)
    requires forall k, d, t :: 0 <= k < dims.latLongs && 0 <= d < dims.days && 0 <= t < dims.times ==> CellIn(list, d, t, k)
    ensures HasShape(x, dims.latLongs, dims.days, dims.times)
    ensures forall k, d, t :: 0 <= k < dims.latLongs && 0 <= d < dims.days && 0 <= t < dims.times ==>
              x.cells[k][d][t] == Cell(list, d, t, k)
  {
    Var3(dims.latLongs, dims.days, dims.times,
      seq(dims.latLongs, k requires 0 <= k < dims.latLongs =>
        seq(dims.days, d requires 0 <= d < dims.days =>
          seq(dims.times, t requires 0 <= t < dims.times => Cell(list, d, t, k)))))
  }

  /**
   * The output loops as a value: the ten variables in the order of RewriteVariables, or the
   * IndexError of a cell that does not exist.
   */
  function OutputSpec(master: Master): Result<(Dims, seq<Var3>), RewriteError>
  {
    match OutputDims(master)
    case Err(e) => Err(e)
    case Ok(dims) =>
      if !Covers(master, dims) then Err(OutputIndex)
      else Ok((dims, seq(|RewriteVariables|, a requires 0 <= a < |RewriteVariables| =>
                          Transposed(ListOf(master, RewriteVariables[a]), dims))))
  }

  /** Variable a of the output cube: out[a, k, d, t] is var[k, d, t] of the a-th variable. */
  function OutVar(out: array4<real>, a: nat): (x: Var3)
    requires a < out.Length0
    reads out
    ensures HasShape(x, out.Length1, out.Length2, out.Length3)
  {
    Var3(out.Length1, out.Length2, out.Length3,
      seq(out.Length1, k requires 0 <= k < out.Length1 reads out =>
        seq(out.Length2, d requires 0 <= d < out.Length2 reads out =>
          seq(out.Length3, t requires 0 <= t < out.Length3 reads out => out[a, k, d, t]))))
  }

  function OutVars(out: array4<real>): (xs: seq<Var3>)
    reads out
    ensures |xs| == out.Length0
  {
    seq(out.Length0, a requires 0 <= a < out.Length0 reads out => OutVar(out, a))
  }

  /**
   * The ten assignments of the innermost loop for cell (k, d, t): each variable's cell takes
   * masterDataset[tag][d][t][k], the first missing one raising IndexError.
   */
  method WriteCell(out: array4<real>, master: Master, k: nat, d: nat, t: nat) returns (ok: bool)
    requires out.Length0 == |RewriteVariables| && k < out.Length1 && d < out.Length2 && t < out.Length3
    modifies out
    ensures ok <==> forall a :: 0 <= a < |RewriteVariables| ==> CellIn(ListOf(master, RewriteVariables[a]), d, t, k)
    ensures ok ==> forall a :: 0 <= a < |RewriteVariables| ==> out[a, k, d, t] == Cell(ListOf(master, RewriteVariables[a]), d, t, k)
    ensures forall a, k', d', t' ::
              (0 <= a < out.Length0 && 0 <= k' < out.Length1 && 0 <= d' < out.Length2 && 0 <= t' < out.Length3
               && (k' != k || d' != d || t' != t)) ==> out[a, k', d', t'] == old(out[a, k', d', t'])
  {
    var a := 0;
    while a < |RewriteVariables|
      invariant 0 <= a <= |RewriteVariables|
      invariant forall b :: 0 <= b < a ==> CellIn(ListOf(master, RewriteVariables[b]), d, t, k)
      invariant forall b :: 0 <= b < a ==> out[b, k, d, t] == Cell(ListOf(master, RewriteVariables[b]), d, t, k)
      invariant forall b, k', d', t' ::
                  (0 <= b < out.Length0 && 0 <= k' < out.Length1 && 0 <= d' < out.Length2 && 0 <= t' < out.Length3
                   && (k' != k || d' != d || t' != t)) ==> out[b, k', d', t'] == old(out[b, k', d', t'])
    {
      var list := ListOf(master, RewriteVariables[a]);
      if !CellIn(list, d, t, k) {
        return false;
      }
      out[a, k, d, t] := list[d][t][k];
      a := a + 1;
    }
    return true;
  }

  /** The timeLevel loop for (k, d): cells (k, d, t) for every hour t of the first day's block. */
  method WriteTimes(out: array4<real>, master: Master, k: nat, d: nat, times: nat) returns (ok: bool)
    requires out.Length0 == |RewriteVariables| && k < out.Length1 && d < out.Length2 && times <= out.Length3
    modifies out
    ensures ok <==> forall a, t :: 0 <= a < |RewriteVariables| && 0 <= t < times ==>
              CellIn(ListOf(master, RewriteVariables[a]), d, t, k)
    ensures ok ==> forall a, t :: 0 <= a < |RewriteVariables| && 0 <= t < times ==>
              out[a, k, d, t] == Cell(ListOf(master, RewriteVariables[a]), d, t, k)
    ensures forall a, k', d', t' ::
              (0 <= a < out.Length0 && 0 <= k' < out.Length1 && 0 <= d' < out.Length2 && 0 <= t' < out.Length3
               && (k' != k || d' != d)) ==> out[a, k', d', t'] == old(out[a, k', d', t'])
  {
    var t := 0;
    while t < times
      invariant 0 <= t <= times
      invariant forall a, t0 :: 0 <= a < |RewriteVariables| && 0 <= t0 < t ==>
                  CellIn(ListOf(master, RewriteVariables[a]), d, t0, k)
      invariant forall a, t0 :: 0 <= a < |RewriteVariables| && 0 <= t0 < t ==>
                  out[a, k, d, t0] == Cell(ListOf(master, RewriteVariables[a]), d, t0, k)
      invariant forall a, k', d', t' ::
                  (0 <= a < out.Length0 && 0 <= k' < out.Length1 && 0 <= d' < out.Length2 && 0 <= t' < out.Length3
                   && (k' != k || d' != d)) ==> out[a, k', d', t'] == old(out[a, k', d', t'])
    {
      var cellOk := WriteCell(out, master, k, d, t);
      if !cellOk {
        return false;
      }
      t := t + 1;
    }
    return true;
  }

  /** The yearDayIndex loop for latLong k: cells (k, d, t) for every day slot d. */
  method WriteDays(out: array4<real>, master: Master, k: nat, dims: Dims) returns (ok: bool)
    requires out.Length0 == |RewriteVariables| && k < out.Length1 && dims.days <= out.Length2 && dims.times <= out.Length3
    modifies out
    ensures ok <==> forall a, d, t :: 0 <= a < |RewriteVariables| && 0 <= d < dims.days && 0 <= t < dims.times ==>
              CellIn(ListOf(master, RewriteVariables[a]), d, t, k)
    ensures ok ==> forall a, d, t :: 0 <= a < |RewriteVariables| && 0 <= d < dims.days && 0 <= t < dims.times ==>
              out[a, k, d, t] == Cell(ListOf(master, RewriteVariables[a]), d, t, k)
    ensures forall a, k', d', t' ::
              (0 <= a < out.Length0 && 0 <= k' < out.Length1 && 0 <= d' < out.Length2 && 0 <= t' < out.Length3
               && k' != k) ==> out[a, k', d', t'] == old(out[a, k', d', t'])
  {
    var d := 0;
    while d < dims.days
      invariant 0 <= d <= dims.days
      invariant forall a, d0, t :: 0 <= a < |RewriteVariables| && 0 <= d0 < d && 0 <= t < dims.times ==>
                  CellIn(ListOf(master, RewriteVariables[a]), d0, t, k)
      invariant forall a, d0, t :: 0 <= a < |RewriteVariables| && 0 <= d0 < d && 0 <= t < dims.times ==>
                  out[a, k, d0, t] == Cell(ListOf(master, RewriteVariables[a]), d0, t, k)
      invariant forall a, k', d', t' ::
                  (0 <= a < out.Length0 && 0 <= k' < out.Length1 && 0 <= d' < out.Length2 && 0 <= t' < out.Length3
                   && k' != k) ==> out[a, k', d', t'] == old(out[a, k', d', t'])
    {
      var dayOk := WriteTimes(out, master, k, d, dims.times);
      if !dayOk {
        return false;
      }
      d := d + 1;
    }
    return true;
  }

  /** The latLongIndex loop: every cell of the output, or false at the first IndexError. */
  method WriteAll(out: array4<real>, master: Master, dims: Dims) returns (ok: bool)
    requires out.Length0 == |RewriteVariables| && out.Length1 == dims.latLongs
    requires out.Length2 == dims.days && out.Length3 == dims.times
    modifies out
    ensures ok <==> Covers(master, dims)
    ensures ok ==> forall a, k, d, t :: 0 <= a < |RewriteVariables| && 0 <= k < dims.latLongs && 0 <= d < dims.days && 0 <= t < dims.times ==>
              out[a, k, d, t] == Cell(ListOf(master, RewriteVariables[a]), d, t, k)
  {
    var k := 0;
    while k < dims.latLongs
      invariant 0 <= k <= dims.latLongs
      invariant forall a, k0, d, t :: 0 <= a < |RewriteVariables| && 0 <= k0 < k && 0 <= d < dims.days && 0 <= t < dims.times ==>
                  CellIn(ListOf(master, RewriteVariables[a]), d, t, k0)
      invariant forall a, k0, d, t :: 0 <= a < |RewriteVariables| && 0 <= k0 < k && 0 <= d < dims.days && 0 <= t < dims.times ==>
                  out[a, k0, d, t] == Cell(ListOf(master, RewriteVariables[a]), d, t, k0)
    {
      var latLongOk := WriteDays(out, master, k, dims);
      if !latLongOk {
        return false;
      }
      k := k + 1;
    }
    return true;
  }

  /** The output cube after the loops holds, variable by variable, the transposed lists. */
  lemma OutVarsTransposed(out: array4<real>, master: Master, dims: Dims)
    requires out.Length0 == |RewriteVariables| && out.Length1 == dims.latLongs
    requires out.Length2 == dims.days && out.Length3 == dims.times
    requires Covers(master, dims)
    requires forall a, k, d, t :: 0 <= a < |RewriteVariables| && 0 <= k < dims.latLongs && 0 <= d < dims.days && 0 <= t < dims.times ==>
               out[a, k, d, t] == Cell(ListOf(master, RewriteVariables[a]), d, t, k)
    ensures OutVars(out) == seq(|RewriteVariables|, a requires 0 <= a < |RewriteVariables| =>
                                  Transposed(ListOf(master, RewriteVariables[a]), dims))
  {
    forall a | 0 <= a < |RewriteVariables|
      ensures OutVars(out)[a] == Transposed(ListOf(master, RewriteVariables[a]), dims)
    {
      Var3Equal(OutVar(out, a), Transposed(ListOf(master, RewriteVariables[a]), dims));
    }
  }

  /**
   * The writing half of the script: size the dimensions from U2M, create the ten variables, and
   * fill them cell by cell with the loops over latLong, day and hour.
   */
  method WriteOutput(master: Master) returns (r: Result<(Dims, seq<Var3>), RewriteError>)
    ensures r == OutputSpec(master)
  {
    var dims := OutputDims(master);
    if dims.Err? {
      return Err(dims.error);
    }
    var dm := dims.value;
    var out := new real[|RewriteVariables|, dm.latLongs, dm.days, dm.times]((a, k, d, t) => DefaultFillDouble);
    var ok := WriteAll(out, master, dm);
    if !ok {
      return Err(OutputIndex);
    }
    OutVarsTransposed(out, master, dm);
    return Ok((dm, OutVars(out)));
  }

  // ----- the whole script -----

  /** The processed file of a year: its name, the lat and lon coordinates, and the ten variables. */
  datatype Processed = Processed(name: string, lat: seq<real>, lon: seq<real>, dims: Dims, vars: seq<Var3>)

  /** The output loops on what the date loop left, written to the file name. */
  function ProcessedOf(name: string, x: Extracted): Result<Processed, RewriteError>
  {
    match OutputSpec(x.master)
    case Err(e) => Err(e)
    case Ok(out) => Ok(Processed(name, x.lats, x.lons, out.0, out.1))
  }

  /** The script for one year, as a value: the extraction, then the output loops. */
  function RewriteSpec(powSys: string, year: int, contents: map<string, MerraFile>): Result<Processed, RewriteError>
    requires ContentsValid(contents) && 1000 <= year <= 9999
  {
    match ExtractSpec(powSys, year, contents)
    case Err(e) => Err(e)
    case Ok(x) => ProcessedOf(OutputFileName(powSys, year), x)
  }

  /** rewrite.py for one year and power system. */
  method RewriteYear(powSys: string, year: int, contents: map<string, MerraFile>)
    returns (r: Result<Processed, RewriteError>)
    requires ContentsValid(contents) && 1000 <= year <= 9999
    ensures r == RewriteSpec(powSys, year, contents)
  {
    var fileName := OutputFileName(powSys, year);
    var extracted := ExtractYear(powSys, year, contents);
    if extracted.Err? {
      return Err(extracted.error);
    }
    var out := WriteOutput(extracted.value.master);
    if out.Err? {
      return Err(out.error);
    }
    var (dims, vars) := out.value;
    return Ok(Processed(fileName, extracted.value.lats, extracted.value.lons, dims, vars));
  }

  /** A block that can be read is the flattening of the variable in the file it is read from. */
  lemma BlockOfOk(slv: MerraFile, rad: MerraFile, slvName: string, radName: string, tag: string)
    requires ValidFile(slv) && ValidFile(rad)
    requires BlockOf(slv, rad, slvName, radName, tag).Ok?
    ensures var f := if FromRadFile(tag) then rad else slv;
            && tag in f.variables
            && var x := f.variables[tag];
               && WellFormed(x) && x.n0 > 0 && x.n1 > 0
               && BlockOf(slv, rad, slvName, radName, tag).value == Flatten(x)
  {
  }

  /** A block of the day that can be read is the flattening of its variable in its file. */
  lemma DayBlockOk(powSys: string, date: Date, contents: map<string, MerraFile>, tag: string)
    requires ContentsValid(contents) && ValidDate(date) && 1000 <= date.year <= 9999
    requires DayBlock(powSys, date, contents, tag).Ok?
    ensures var name := SourceName(powSys, tag, date);
            && name in contents && tag in contents[name].variables
            && var x := contents[name].variables[tag];
               && WellFormed(x) && x.n0 > 0 && x.n1 > 0
               && DayBlock(powSys, date, contents, tag).value == Flatten(x)
  {
    var slvName := DayFileName(SlvBase(powSys, date.year), date);
    var radName := DayFileName(RadBase(powSys, date.year), date);
    assert slvName in contents && radName in contents;
    var name := SourceName(powSys, tag, date);
    assert name == if FromRadFile(tag) then radName else slvName;
    assert DayBlock(powSys, date, contents, tag) == BlockOf(contents[slvName], contents[radName], slvName, radName, tag);
    BlockOfOk(contents[slvName], contents[radName], slvName, radName, tag);
  }

  /** The block of variable a in day slot d is read from the file of the slot's date. */
  lemma SlotRowAt(powSys: string, year: int, contents: map<string, MerraFile>, d: nat, a: nat)
    requires ContentsValid(contents) && 1000 <= year <= 9999 && d < DaysPerNoLeapYear && a < |RewriteVariables|
    ensures ValidDate(NoLeapDate(year, d)) && NoLeapDate(year, d).year == year
    ensures SlotRow(powSys, year, contents, d)[a] == DayBlock(powSys, NoLeapDate(year, d), contents, RewriteVariables[a])
  {
    NoLeapDateOfSlot(year, d);
  }

  /**
   * Cell (k, d, t) of output variable a is hour t, latLong k of block d in the variable's list,
   * and the day dimension is the length of the U2M list.
   */
  lemma OutputSpecCell(master: Master, a: nat, d: nat, t: nat, k: nat)
    requires OutputSpec(master).Ok? && a < |RewriteVariables|
    requires var dims := OutputSpec(master).value.0; d < dims.days && t < dims.times && k < dims.latLongs
    ensures var (dims, vars) := OutputSpec(master).value;
            && dims.days == |ListOf(master, "U2M")| && |vars| == |RewriteVariables|
            && HasShape(vars[a], dims.latLongs, dims.days, dims.times)
            && CellIn(ListOf(master, RewriteVariables[a]), d, t, k)
            && vars[a].cells[k][d][t] == ListOf(master, RewriteVariables[a])[d][t][k]
  {
  }

  lemma ExtractSpecMaster(powSys: string, year: int, contents: map<string, MerraFile>)
    requires ContentsValid(contents) && 1000 <= year <= 9999
    requires ExtractSpec(powSys, year, contents).Ok?
    ensures YearSpec(powSys, year, contents, DaysPerNoLeapYear) == Ok(ExtractSpec(powSys, year, contents).value.master)
  {
  }

  /**
   * Block d of variable a after a date loop that got through the year is the flattening of the
   * variable in its file of the date of day slot d.
   */
  lemma SlotBlockSource(powSys: string, year: int, contents: map<string, MerraFile>, m: Master, a: nat, d: nat)
    requires ContentsValid(contents) && 1000 <= year <= 9999
    requires YearSpec(powSys, year, contents, DaysPerNoLeapYear) == Ok(m)
    requires a < |RewriteVariables| && d < DaysPerNoLeapYear
    ensures |ListOf(m, "U2M")| == DaysPerNoLeapYear
    ensures var date := NoLeapDate(year, d);
            && ValidDate(date) && date.year == year
            && var name := SourceName(powSys, RewriteVariables[a], date);
               && name in contents && RewriteVariables[a] in contents[name].variables
               && var x := contents[name].variables[RewriteVariables[a]];
                  && WellFormed(x) && x.n0 > 0 && x.n1 > 0
                  && |ListOf(m, RewriteVariables[a])| == DaysPerNoLeapYear
                  && ListOf(m, RewriteVariables[a])[d] == Flatten(x)
  {
    var blocks := YearRowsOf(powSys, year, contents);
    YearListsOfRows(powSys, year, contents, m, blocks);
    assert RewriteVariables[0] == "U2M";
    SlotListAt(powSys, year, contents, m, blocks, d, a);
    SlotRowAt(powSys, year, contents, d, a);
    DayBlockOk(powSys, NoLeapDate(year, d), contents, RewriteVariables[a]);
  }

  /**
   * A processed year holds, variable by variable, the transposed lists of the date loop: cell
   * (k, d, t) of variable a is hour t, latLong k of block d in the variable's list.
   */
  lemma RewriteSpecLists(powSys: string, year: int, contents: map<string, MerraFile>, p: Processed,
                         a: nat, d: nat, t: nat, k: nat)
    requires ContentsValid(contents) && 1000 <= year <= 9999
    requires RewriteSpec(powSys, year, contents) == Ok(p)
    requires a < |RewriteVariables| && d < p.dims.days && t < p.dims.times && k < p.dims.latLongs
    ensures YearSpec(powSys, year, contents, DaysPerNoLeapYear).Ok?
    ensures var m := YearSpec(powSys, year, contents, DaysPerNoLeapYear).value;
            && p.dims.days == |ListOf(m, "U2M")| && |p.vars| == |RewriteVariables|
            && HasShape(p.vars[a], p.dims.latLongs, p.dims.days, p.dims.times)
            && CellIn(ListOf(m, RewriteVariables[a]), d, t, k)
            && p.vars[a].cells[k][d][t] == ListOf(m, RewriteVariables[a])[d][t][k]
  {
    var x := ExtractSpec(powSys, year, contents).value;
    assert ProcessedOf(OutputFileName(powSys, year), x) == Ok(p);
    ExtractSpecMaster(powSys, year, contents);
    OutputSpecCell(x.master, a, d, t, k);
  }

  /** Variable a in the file it is read from on the date of day slot d, if the file holds it. */
  function SlotSource(powSys: string, year: int, contents: map<string, MerraFile>, a: nat, d: nat): (r: Option<Var3>)
    requires ContentsValid(contents) && 1000 <= year <= 9999 && a < |RewriteVariables| && d < DaysPerNoLeapYear
    ensures r.Some? ==> WellFormed(r.value)
  {
    NoLeapDateOfSlot(year, d);
    var name := SourceName(powSys, RewriteVariables[a], NoLeapDate(year, d));
    if name in contents && RewriteVariables[a] in contents[name].variables
    then Some(contents[name].variables[RewriteVariables[a]])
    else None
  }

  /**
   * Every cell of a processed year comes from the daily files: variable a at latLong k, day slot d
   * and hour t holds hour t of that variable in the file of the slot's date, at the grid point
   * (k / nLon, k % nLon). The year has 365 day slots.
   */
  lemma RewriteSpecCell(powSys: string, year: int, contents: map<string, MerraFile>, p: Processed,
                        a: nat, d: nat, t: nat, k: nat)
    requires ContentsValid(contents) && 1000 <= year <= 9999
    requires RewriteSpec(powSys, year, contents) == Ok(p)
    requires a < |RewriteVariables| && d < p.dims.days && t < p.dims.times && k < p.dims.latLongs
    ensures p.dims.days == DaysPerNoLeapYear && |p.vars| == |RewriteVariables|
    ensures HasShape(p.vars[a], p.dims.latLongs, p.dims.days, p.dims.times)
    ensures SlotSource(powSys, year, contents, a, d).Some?
    ensures var x := SlotSource(powSys, year, contents, a, d).value;
            && t < x.n0 && x.n2 > 0 && 0 <= k / x.n2 < x.n1 && 0 <= k % x.n2 < x.n2
            && At(p.vars[a], k, d, t) == At(x, t, k / x.n2, k % x.n2)
  {
    RewriteSpecLists(powSys, year, contents, p, a, d, t, k);
    var m := YearSpec(powSys, year, contents, DaysPerNoLeapYear).value;
    YearListsOfRows(powSys, year, contents, m, YearRowsOf(powSys, year, contents));
    assert RewriteVariables[0] == "U2M";
    SlotBlockSource(powSys, year, contents, m, a, d);
    var x := SlotSource(powSys, year, contents, a, d).value;
    FlatIndexSplit(k, x.n1, x.n2);
  }

  /**
   * The dimensions of a processed year: 365 day slots, the hours of the 1 January U2M variable,
   * and its number of grid points nLat * nLon.
   */
  lemma RewriteSpecDims(powSys: string, year: int, contents: map<string, MerraFile>, p: Processed)
    requires ContentsValid(contents) && 1000 <= year <= 9999
    requires RewriteSpec(powSys, year, contents) == Ok(p)
    ensures SlotSource(powSys, year, contents, 0, 0).Some?
    ensures var x := SlotSource(powSys, year, contents, 0, 0).value;
            p.dims.days == DaysPerNoLeapYear && p.dims.times == x.n0 && p.dims.latLongs == x.n1 * x.n2
  {
    var x := ExtractSpec(powSys, year, contents).value;
    assert ProcessedOf(OutputFileName(powSys, year), x) == Ok(p);
    ExtractSpecMaster(powSys, year, contents);
    var m := x.master;
    SlotBlockSource(powSys, year, contents, m, 0, 0);
    assert RewriteVariables[0] == "U2M";
  }
}
