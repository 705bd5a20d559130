# merra-power-generation, modelled in Dafny

This project models the parts of merra-power-generation that own real logic. That repository turns NASA MERRA-2 reanalysis data into hourly solar and wind resource series and simulated generation for a grid of cells. The model covers five groups of code.

- **Merging daily files into an annual cube.**
  - `CombineMerra` models `src/combine_merra.py`. It groups daily files by the `YYYYMMDD` date in their names and walks the calendar from 1 January to 31 December. It skips 29 February without advancing the day counter, and transposes each daily `(time, lat, lon)` block into hours `[24 d, 24 d + 24)` of an 8760-hour `(lat, lon, time)` variable.
  - `Rewrite` models the older `rewrite.py`. It flattens `(lat, lon)` to the row-major position `lat * nLon + lon`, keeps one block per day and variable, and writes `(latLong, yearDayIndex, time)` variables.
- **The per-cell drivers.** `PowGenImpl` models `powGen_impl.py`:
  - the latitude/longitude axes, and `get_date` on the 365-day calendar;
  - the padded date strings, and `get_data`'s flat cell index and unit conversions;
  - the SAM resource files as rows, and the day slicing;
  - `write_cord`'s slot write, and the log file through which a run resumes at the next longitude and marks the last one with `done`. A negative number in the log is accepted, as numpy and netCDF4 accept negative indices: it selects a longitude and a file row counted from the end.

  `PowGenBeta` models `beta/powGen_impl_beta.py`. It truncates the axes to three points, normalises to capacity factors, and visits every (lon, lat) pair in a nested loop. `PowGenBeta.RunGrid` takes the longitude count it passes to `get_data` as a parameter: the truncated count models the script as written, and the file's full count models the corrected script (see Findings). `CheckForFinish` models the two `checkForFinish.py` scripts, which derive the batch job's exit status from the log.
- **Derived variables and classification.**
  - `PowerGeneration` models the `MerraPowerGeneration` class of `src/power_generation.py`. It covers unit conversions, wind speeds at three heights, wind direction, the wind-shear formula, the IEC turbine class from the hourly median, the power-curve columns, and the solar resource record.
  - `WindDirection` holds the six-mask direction code that three scripts share.
  - `WindClass` models `wind_class_generation.py`. It sums yearly medians and then applies the five-stage `np.where` relabelling chain.
- **Region masks.** `Boundaries` models `generate_boundaries.py` and `OffshoreBounds` models `generate_offshore_bounds.py`. Each cell looks up the nearest raster point with a first argmin and is marked 1 when that point holds 1. In state mode the maps of all states are summed, and the result is transposed.
- **Shared pieces.**
  - `Calendar`: Gregorian dates, the day step, and the 365-day table.
  - `Text`: `str()`/`int()`, `strip()`, and the lines of a file.
  - `Grids`: axes.
  - `MerraData`: variable shapes, flat indices, and the fill value.
  - `ResourceRows`: CSV and `.srw` rows.
  - `Numerics`: the float library passed as a value.
  - `Wrappers`: `Option`/`Result`.

Floats are modelled as `real`. `sqrt`, `arctan`, `log`, `2 **` and `np.median` are fields of a `MathLib` value that the operations take as a parameter. Division by zero yields a stand-in value from the same record, since numpy only warns. Exceptions become `Err`/`None` results that name the Python error. Files are passed in as their contents. The simulators (PySAM PVWatts and Windpower) and the DNI/DHI split are function parameters. Code that mutates state is modelled as methods on arrays or classes, and each is proved against a reference function.

## Model

| member | source | states |
|---|---|---|
| CheckForFinish.HasDoneLine | checkForFinish.py:12-14 | true exactly when some line of the log is equal to "done" |
| CheckForFinish.ExitCode | checkForFinish.py:8-16 | the status is 0 or 1; it is 1 exactly when the log exists and one of its lines equals "done", and 0 when there is no log |
| CheckForFinish.DoneLineIsUnterminated | checkForFinish.py:12-13 | since lines keep their newline, a line equals "done" exactly when the text is "done" or ends with a newline followed by "done": a final "done\n" is not detected |
| CheckForFinish.EndsWithDoneLineAfterNewline | checkForFinish.py:12-13 | dropping the text up to a newline does not change whether it ends with an unterminated "done" line |
| MultiyearCheckForFinish.ExitCode | multiyear/checkForFinish.py:8-20 | 1 when no log path is given (the IndexError); otherwise 1 exactly when the named file exists and ends with an unterminated "done" line, else 0 |
| WindClass.Chain | wind_class_generation.py:23-35 | the five stages in order give every mean speed its class: 1 from 9 m/s, 2 in [8, 9), 3 in [6.5, 8), 0 in [0, 6.5), 4 when negative |
| WindClass.LaterStagesKeepCodes | wind_class_generation.py:23-35 | a code written by one stage is left alone by every later stage |
| WindClass.SwappedStagesMisclassify | wind_class_generation.py:26-29 | with the 8 m/s stage before the 9 m/s one, a speed from 9 m/s would end as 2 instead of 1 |
| WindClass.ApplyStage | wind_class_generation.py:23-35 | one np.where stage rewrites every cell of the grid in place with that stage's relabelling |
| WindClass.Classify | wind_class_generation.py:23-35 | after the five stages every cell holds the IEC class code of its former value |
| WindClass.AddYear | wind_class_generation.py:3-16 | each cell grows by the median of its hourly 100 m speeds for the year |
| WindClass.AddYears | wind_class_generation.py:16 | after all years each cell grows by the sum of its yearly medians |
| WindClass.DivideAll | wind_class_generation.py:20 | every cell is divided by the number of years, with numpy's division |
| WindClass.WindClassMap | wind_class_generation.py:3-35 | from a zero grid, each cell ends with the class code of the mean of its yearly medians |
| WindClass.MedianSumOfEqualYears | wind_class_generation.py:16 | years that all have median v at a cell sum to k times v there |
| WindClass.MeanOfEqualYears | wind_class_generation.py:16-20 | when every year has the same median at a cell, the mean is that median, and the class is that median's band |
| Boundaries.Arange | generate_boundaries.py:84-85 | every entry k of np.arange is start + k * step and below stop, and one more step would reach stop |
| Boundaries.KeepAtMost | generate_boundaries.py:87 | the boolean filter keeps no more entries than it had, and every kept entry is at most the bound |
| Boundaries.KeepAtMostPrefix | generate_boundaries.py:87 | on an increasing range the filter keeps a prefix, and every entry after it exceeds the bound |
| Boundaries.LatitudeRange | generate_boundaries.py:84 | entry k is minLat + k * 0.5, every entry is below maxLat + 0.5, and the range stops at the first step that reaches it |
| Boundaries.LongitudeRangeSteps | generate_boundaries.py:85-87 | the longitudes are exactly the steps of 0.625 from minLon that do not pass maxLon |
| Boundaries.RangesIncreasing | generate_boundaries.py:84-87 | both ranges are strictly increasing, so no value occurs twice |
| Boundaries.FirstArgMin | generate_boundaries.py:44-46 | np.where(d == d.min())[0][0] is an index of d whose distance is at most every other, and no earlier index has a distance that small |
| Boundaries.Distances | generate_boundaries.py:44-46 | entry i is the absolute difference between axis point i and the value |
| Boundaries.Nearest | generate_boundaries.py:44-46 | the chosen raster index is in range, a closest point of the axis to the value, and the first of the closest |
| Boundaries.RowsInBandCovers | generate_boundaries.py:43-46 | the first k latitudes pass the lookup check exactly when each of them does |
| Boundaries.BoundsFailure | generate_boundaries.py:43-52 | there is no failure exactly when no .min() is taken over an empty raster axis and every nearest point lies inside Band1 |
| Boundaries.VisitWrites | generate_boundaries.py:49-52 | visiting (lat i, lon j) writes the cell at the first positions of those values, a cell already visited or (j, i) itself, and writes 1 there exactly when the raster marks the point |
| Boundaries.MarkCell | generate_boundaries.py:46-52 | one visit raises for an empty longitude axis or a point outside Band1; otherwise it extends the marked region of the grid by that cell and leaves the rest unchanged |
| Boundaries.MarkColumn | generate_boundaries.py:45-52 | the loop over lon for one latitude detects the first failure, or marks every cell of that latitude |
| Boundaries.GenerateBounds | generate_boundaries.py:16-60 | raises exactly when BoundsFailure finds a failure, with that error; otherwise returns a fresh (lon, lat) grid holding 1 exactly at the cells the raster marks and 0 elsewhere |
| Boundaries.MarkedOnRanges | generate_boundaries.py:50-52 | on the ranges main builds, a cell is marked exactly when the raster point nearest to it holds 1 (also lines 84-87) |
| Boundaries.MarkCountBound | generate_boundaries.py:95-96 | a cell counts at most one per state raster, and reaches the number of states exactly when all of them mark it |
| Boundaries.FirstFailure | generate_boundaries.py:95-96 | a failure it reports is the failure of one of the state rasters |
| Boundaries.FirstFailureNone | generate_boundaries.py:95-96 | no failure is found exactly when every state raster's map can be built |
| Boundaries.FirstFailureIsFirst | generate_boundaries.py:95-96 | the failure reported is that of a raster all of whose predecessors succeed |
| Boundaries.FirstFailureStops | generate_boundaries.py:95-96 | once a prefix of the state files fails, the whole loop fails in the same way |
| Boundaries.AddInto | generate_boundaries.py:96 | regionArray += g adds g cell by cell and changes nothing else |
| Boundaries.StateBounds | generate_boundaries.py:91-96 | raises with the first state's failure; otherwise each cell counts the state rasters that mark it |
| Boundaries.Transposed | generate_boundaries.py:108 | the transpose has one row per latitude and one column per longitude, with entry [q][p] equal to grid cell [p, q] |
| Boundaries.RegionTable | generate_boundaries.py:64-108 | in state mode the table counts the states marking each cell, and otherwise it is the offshore map; it is transposed to latitude rows and longitude columns, and raises exactly when the map cannot be built |
| OffshoreBounds.OffshoreTable | generate_offshore_bounds.py:16-75 | raises exactly when the map cannot be built; otherwise there is one row per latitude and one column per longitude, every entry is 0 or 1, and an entry is 1 exactly when the raster point nearest to the cell holds 1 |
| CombineMerra.MerraVariablesDistinct | src/combine_merra.py:18-28 | the nine MERRA variable names are pairwise distinct |
| CombineMerra.FirstDateMatch | src/combine_merra.py:43-44 | the position found is the leftmost match of {year} followed by four digits, and when nothing is found there is no match at all |
| CombineMerra.GlobHasDateMatch | src/combine_merra.py:38-44 | every name the glob pattern accepts contains a match, so findall(...)[0] never raises |
| CombineMerra.DateField | src/combine_merra.py:44 | the string strptime reads is eight digits beginning with the year |
| CombineMerra.MerraFileDate | src/combine_merra.py:47 | a date strptime accepts is a valid calendar date in the glob's year |
| CombineMerra.BadDateName | src/combine_merra.py:41-47 | a name it reports is one the glob matched whose date strptime rejects |
| CombineMerra.BadDateNameNone | src/combine_merra.py:41-47 | no name is reported exactly when every matched name's date parses |
| CombineMerra.FilesOnMembers | src/combine_merra.py:41-50 | a name is in the list of a date exactly when the glob matches it and its name carries that date |
| CombineMerra.GetMerraFilesByDate | src/combine_merra.py:30-52 | raises ValueError at the first matched name whose date strptime rejects; otherwise the defaultdict holds, for every date, exactly the matched files of that date, in glob order |
| CombineMerra.GroupStep | src/combine_merra.py:41-50 | after one more name, only the list of that name's date grows, by that name; or the name is the first with a rejected date |
| CombineMerra.GroupKeeps | src/combine_merra.py:41 | a name the glob does not match leaves every list as it was |
| CombineMerra.GroupAppends | src/combine_merra.py:50 | a matched name with an accepted date joins the end of its date's list and no other |
| CombineMerra.FilesOnSnoc | src/combine_merra.py:50 | one more name joins the end of the file list of its own date |
| CombineMerra.FirstBadDate | src/combine_merra.py:41-47 | a rejected date after a run of accepted ones is the first rejected one |
| CombineMerra.Reorder | src/combine_merra.py:82 | np.transpose with axes [1, 2, 0] turns a (time, lat, lon) block into a (lat, lon, time) one |
| CombineMerra.ReorderCell | src/combine_merra.py:82 | cell (i, j, t) of the transposed block is cell (t, i, j) of the daily block |
| CombineMerra.WriteSlot | src/combine_merra.py:87 | the slice assignment keeps the shape of the combined variable |
| CombineMerra.WriteSlotCell | src/combine_merra.py:87 | inside the slot a cell holds the block, broadcast along axes of length 1; outside the slot it holds what it held |
| CombineMerra.SlotReadBack | src/combine_merra.py:84-87 | hours [24 day, 24 day + 24) hold the transposed daily block and every other hour is unchanged; for a full (24, lat, lon) block, cell [i][j][24 day + t] equals daily[t][i][j] |
| CombineMerra.CornerCheck | src/combine_merra.py:89-93 | each corner the asserts compare (first or last index of every axis) is equal in the written slot and the daily block |
| CombineMerra.TransferAsserts | src/combine_merra.py:89-93 | the five assert statements after each copy hold for every block that fits its slot, so they never fail |
| CombineMerra.TransferVariablesStep | src/combine_merra.py:77-95 | for the first name: a name missing from either file is skipped (the caught KeyError), a block that does not fit stops the transfer, and a block that fits is written before the next name |
| CombineMerra.TransferVariablesOk | src/combine_merra.py:76-95 | transfer_merra_file succeeds exactly when every variable present in both files fits its slot |
| CombineMerra.TransferVariablesWrites | src/combine_merra.py:76-95 | after a successful transfer each variable present in both files holds the daily block in that day's slot; every other variable, and every other hour, is unchanged |
| CombineMerra.TransferVariablesKeepsShapes | src/combine_merra.py:76-95 | a transfer keeps every variable's name and shape |
| CombineMerra.TransferFiles | src/combine_merra.py:124-127 | transferring a day's files keeps every variable's name and shape |
| CombineMerra.TransferFilesCell | src/combine_merra.py:124-127 | transferring the files of one day changes only that day's slot, where each cell holds what the day's files leave there (the last file holding the variable wins) |
| CombineMerra.TransferFilesOk | src/combine_merra.py:124-127 | a day's transfers all succeed exactly when every file of the day opens and fits the grid |
| CombineMerra.DayFiles | src/combine_merra.py:115-124 | there are 365 day slots, and slot d holds the files of the d-th date of the year other than 29 February |
| CombineMerra.CombineDays | src/combine_merra.py:113-128 | the calendar walk keeps every variable's name and shape |
| CombineMerra.CombineDaysStep | src/combine_merra.py:124-128 | one more day of the walk transfers that day's files into its slot |
| CombineMerra.CombineDaysLast | src/combine_merra.py:114-128 | the walk through k slots is the walk through k - 1, then slot k - 1 |
| CombineMerra.CombineDaysErrStays | src/combine_merra.py:114-128 | a failure on some day is the failure of the whole walk; later days are never reached |
| CombineMerra.CombineDaysSlots | src/combine_merra.py:114-128 | after the walk through k slots, each slot walked holds what the files of its date left there, and every other slot is untouched |
| CombineMerra.CombineDaysOk | src/combine_merra.py:114-128 | the walk through k slots succeeds exactly when every one of those days fits |
| CombineMerra.CombineDaysOkStep | src/combine_merra.py:124-128 | after a successful walk through k slots, slot k succeeds exactly when its day fits |
| CombineMerra.DaysFitAll | src/combine_merra.py:114-128 | the slot-by-slot fitting condition says exactly that each of the first k slots fits |
| CombineMerra.InitialVars | src/combine_merra.py:60-74 | initialize_dataset creates exactly the nine MERRA variables, each a (lat, lon, 8760) cube |
| CombineMerra.CellAfterFilesNone | src/combine_merra.py:124-127 | a cell that no file of the day writes keeps the value it had |
| CombineMerra.CellAfterFilesSnoc | src/combine_merra.py:124-127 | one more file of the day either overwrites the cell, when it holds the variable, or leaves it |
| CombineMerra.CombineSpecOk | src/combine_merra.py:97-128 | combine succeeds exactly when every date parses, some file is dated 1 January, the first of them opens, pandas can represent the year, and every file of every date except 29 February opens and fits that file's grid |
| CombineMerra.CombineSpecCells | src/combine_merra.py:97-128 | the output has the grid of the first 1 January file and the year, and hour t of slot d of every variable and cell holds what the files of the d-th date other than 29 February left there, or the fill value where none holds the variable |
| CombineMerra.CombinedDataset.constructor | src/combine_merra.py:60-74 | the new dataset holds the given axes and year and the nine unwritten variables |
| CombineMerra.CombinedDataset.TransferMerraFile | src/combine_merra.py:76-95 | the variables become what TransferVariables computes, and it reports whether an exception other than KeyError escaped; the axes and the year are unchanged |
| CombineMerra.CombinedDataset.TransferVariable | src/combine_merra.py:79-93 | the try block for one variable in both files: a block that does not fit stops with the variables unchanged; otherwise the slot is written, and it stops only when the corner asserts index an empty grid |
| CombineMerra.CombinedDataset.AddFiles | src/combine_merra.py:124-127 | opening and transferring each of one day's files leaves the variables TransferFiles computes, or the error it raises |
| CombineMerra.CombinedDataset.AddYear | src/combine_merra.py:113-128 | the date loop leaves the variables CombineDays computes over the 365 slots, or raises its error |
| CombineMerra.CombinedDataset.AddDate | src/combine_merra.py:119-128 | one pass of the date loop does nothing on 29 February without advancing the counter; on any other date it extends the walk by that date's slot, or reports the walk's error |
| CombineMerra.Combine | src/combine_merra.py:97-128 | succeeds exactly when the reference CombineSpec does, raises the same error otherwise, and on success the dataset holds exactly what CombineSpec computes |
| ResourceRows.DayRowsLayout | powGen_impl.py:215-221 | write_day2csv's 24 rows have the eight data columns, the same year, month and day, hour i in row i, and entry i of the wind speed and temperature series |
| ResourceRows.SrwLayout | powGen_impl.py:105-115 | the .srw file is five header rows and then one six-field row per hour in column order; the header ends with 1 and 8760, and that count matches the data rows exactly when the series has 8760 hours (also lines 224-230) |
| ResourceRows.ResourceFile.Create | powGen_impl.py:94-115 | a new file holds exactly its header rows |
| ResourceRows.ResourceFile.WriteRow | powGen_impl.py:219 | one writerow appends exactly that row |
| ResourceRows.CreateCsv | powGen_impl.py:94-102 | the solar CSV starts with the location header (time zone 0, elevation 500) and the column names |
| ResourceRows.CreateSrw | powGen_impl.py:105-115 | the .srw file starts with its five header rows |
| ResourceRows.WriteDay2Csv | powGen_impl.py:215-221 | the loop appends exactly the day's 24 rows |
| ResourceRows.Write2Srw | powGen_impl.py:224-230 | the loop appends one row per hour of the temperature series, six fields in column order |
| Rewrite.Join | rewrite.py:21-30 | os.path.join keeps the first part as a prefix and the second as a suffix, unless the second part is absolute, which replaces the first |
| Rewrite.DayFileNameDate | rewrite.py:75-77 | a daily file name is the base, eight characters of date and ".SUB.nc", and the date reads back from it |
| Rewrite.Flatten | rewrite.py:34 | the flattened block has one row per hour, each lat * lon long |
| Rewrite.FlattenCell | rewrite.py:37-43 | cell (t, lat, lon) lands at row t, position lat * nLon + lon |
| Rewrite.Rows | rewrite.py:34 | the rows of the filled array have the array's shape |
| Rewrite.FillRow | rewrite.py:38-43 | one pass of the hour loop fills row t with the flattened grid of hour t and changes no other row |
| Rewrite.RewriteData | rewrite.py:33-44 | rewriteData raises KeyError for a missing variable and IndexError for an empty time or latitude axis; otherwise it returns a fresh array whose rows are the flattening of the variable |
| Rewrite.AppendEntry | rewrite.py:85-104 | appending to masterDataset adds the tag to the keys, puts the block at the end of its own list, and leaves every other list unchanged |
| Rewrite.AppendDayOk | rewrite.py:85-104 | one pass of appends succeeds exactly when every variable can be read, and otherwise fails with the error of a variable that cannot be read |
| Rewrite.AppendDayLists | rewrite.py:85-104 | a pass that succeeds appends exactly one block to each variable's list, its own block, and leaves every other list alone |
| Rewrite.YearSpecErrStays | rewrite.py:69-113 | once a day slot fails, every later number of slots gives the same error |
| Rewrite.YearSpecStep | rewrite.py:69-113 | slot k of the date loop is the pass on the k-th date of the year other than 29 February |
| Rewrite.RewriteVariablesDistinct | rewrite.py:85-104 | the ten variable names are pairwise distinct |
| Rewrite.DayRow | rewrite.py:85-104 | a day yields one block per variable |
| Rewrite.AppendDayPass | rewrite.py:85-104 | the appends of one pass are a run step over the blocks they read |
| Rewrite.DayPassRead | rewrite.py:79-104 | with both files of the day open, a pass is the ten appends in order |
| Rewrite.DaySpecMeaning | rewrite.py:79-104 | one pass succeeds exactly when all ten blocks of the day can be read, and then appends each variable's block to its own list |
| Rewrite.RunOk | rewrite.py:69-113 | the loop gets through k passes exactly when every block of those passes can be read |
| Rewrite.RunErr | rewrite.py:69-113 | a loop that stopped within k passes stopped with the error of one of their blocks |
| Rewrite.RunLists | rewrite.py:69-113 | after k passes without error the lists are exactly those of the variables (when k > 0), each holding its k blocks in pass order |
| Rewrite.SlotRow | rewrite.py:69-104 | each day slot yields one block per variable |
| Rewrite.SlotPass | rewrite.py:69-104 | pass d of the date loop works on the blocks of day slot d |
| Rewrite.YearRun | rewrite.py:69-113 | the date loop of a year is a run of 365 passes over the blocks of its day slots |
| Rewrite.YearSpecOk | rewrite.py:69-113 | the date loop gets through all 365 slots exactly when every block of every slot can be read |
| Rewrite.YearSpecErr | rewrite.py:69-113 | a date loop that stops stops with the error of a block of one of the day slots |
| Rewrite.YearListsOfRows | rewrite.py:69-113 | a loop that gets through the year leaves the ten lists and no others, each of 365 blocks, block d being the variable's block of slot d |
| Rewrite.YearSpecLists | rewrite.py:69-113 | after the year, block d of each variable's list is that variable's block of day slot d |
| Rewrite.LoopStep | rewrite.py:69-73 | on 29 February of a year divisible by 4 the loop first steps one day; the date worked on is then the date of slot daysPassed, and the next date is that of the next slot or, after 31 December, past end_date with daysPassed + 1 == 365 (also lines 112-113) |
| Rewrite.ReadBlock | rewrite.py:85-104 | rewriteData reads SWGDN from the radiation file and every other variable from the single-level file |
| Rewrite.AppendBlocks | rewrite.py:85-104 | the appends, variable by variable in order, compute what AppendDay computes |
| Rewrite.AppendDayBlocks | rewrite.py:75-104 | opening both files of the day and appending the ten blocks computes the reference pass |
| Rewrite.DatePass | rewrite.py:69-113 | one turn of the while loop gives the state after daysPassed + 1 slots, moves the date strictly closer to the end, and keeps daysPassed equal to the slot of the date, reaching 365 past 31 December |
| Rewrite.DateLoop | rewrite.py:69-113 | the while loop leaves the state after 365 slots, and daysPassed is 365 whatever the year |
| Rewrite.ExtractYear | rewrite.py:59-113 | reading the grid of the 1 January file and then the date loop compute the reference extraction |
| Rewrite.OutputDims | rewrite.py:129-131 | the dimensions exist exactly when U2M has a block with at least one hour (otherwise IndexError), and yearDayIndex is the length of the U2M list |
| Rewrite.Transposed | rewrite.py:151-183 | the output variable has shape (latLong, yearDayIndex, time), with [k, d, t] equal to list[d][t][k] |
| Rewrite.OutVar | rewrite.py:151-160 | each slice of the output cube has the shape (latLong, yearDayIndex, time) |
| Rewrite.OutVars | rewrite.py:151-160 | there is one output variable per slice of the cube |
| Rewrite.WriteCell | rewrite.py:174-183 | the ten assignments succeed exactly when every variable's cell exists, write masterDataset[tag][d][t][k] into each, and change no other cell |
| Rewrite.WriteTimes | rewrite.py:173-184 | the timeLevel loop writes every hour of (k, d), or stops at the first missing cell |
| Rewrite.WriteDays | rewrite.py:171-185 | the yearDayIndex loop writes every day and hour of latLong k, stopping at the first missing cell |
| Rewrite.WriteAll | rewrite.py:167-186 | the latLongIndex loop succeeds exactly when every cell the loops read exists, and then every output cell holds its list's value |
| Rewrite.OutVarsTransposed | rewrite.py:167-186 | after the loops the output holds, variable by variable, the transposed lists |
| Rewrite.WriteOutput | rewrite.py:125-186 | writing the output computes the reference OutputSpec |
| Rewrite.RewriteYear | rewrite.py:1-194 | the whole script for one year and power system computes the reference RewriteSpec |
| Rewrite.BlockOfOk | rewrite.py:85-104 | a block that can be read is the flattening of the variable in the file it is read from |
| Rewrite.DayBlockOk | rewrite.py:75-104 | a block of the day that can be read is the flattening of the variable in its file of that date |
| Rewrite.SlotRowAt | rewrite.py:69-104 | the block of variable a in slot d is read from the file of the slot's date |
| Rewrite.OutputSpecCell | rewrite.py:167-186 | cell (k, d, t) of output variable a is hour t, latLong k of block d in that variable's list |
| Rewrite.ExtractSpecMaster | rewrite.py:59-113 | the lists the extraction leaves are those of the 365-slot date loop |
| Rewrite.SlotBlockSource | rewrite.py:69-104 | after a full year, block d of variable a is the flattening of the variable in its file of the date of slot d |
| Rewrite.RewriteSpecLists | rewrite.py:1-194 | a processed year holds the transposed lists of the date loop |
| Rewrite.SlotSource | rewrite.py:75-104 | a variable found in its file of a slot's date is a well-formed array |
| Rewrite.RewriteSpecCell | rewrite.py:1-194 | every cell of a processed year comes from the daily files: variable a at latLong k, slot d and hour t holds hour t of that variable in the file of the slot's date at grid point (k / nLon, k % nLon) |
| Rewrite.RewriteSpecDims | rewrite.py:129-131 | a processed year has 365 day slots, the hours of the 1 January U2M variable, and nLat * nLon grid points |
| WindDirection.MasksPartition | src/power_generation.py:57-81 | the six masks are pairwise disjoint, together they select every cell except calm air, and the value assigned through the mask that selects a cell is the reference direction of its (u, v) |
| WindDirection.Direction | src/power_generation.py:83-91 | calm air and a pure south wind give 0 and a pure north wind 180; under np.arctan's range every direction lies in [0, 360), a wind with an eastward part strictly between 180 and 360 and one with a westward part strictly between 0 and 180 (also powGen_impl.py lines 175-180) |
| WindDirection.ArctanDegrees | src/power_generation.py:86-87 | under np.arctan's range, arctan(x) / pi * 180 lies strictly between -90 and 90 |
| WindDirection.SixAssignments | src/power_generation.py:83-91 | the six masked assignments, in the scripts' order and starting from 0, leave every cell at its reference direction |
| WindDirection.AssignMask | powGen_impl.py:175-180 | direction[mask] = value changes exactly the cells the mask selects, to the mask's value, and keeps the rest |
| WindDirection.GetWindDirection | powGen_impl.py:166-181 | the returned series has one entry per hour, each equal to the reference direction of that hour's (u, v) |
| WindDirection.DirectionSeries | beta/powGen_impl_beta.py:139-155 | the direction series has one entry per hour, each the reference direction of that hour's (u, v) |
| WindDirection.Contents3 | src/power_generation.py:84 | the cells of the (lat, lon, time) array read back as a value of the same shape |
| WindDirection.AssignMask3 | src/power_generation.py:86-91 | direction[mask] = value on a (lat, lon, time) array changes exactly the selected cells, to the mask's value |
| WindDirection.DirectionGrid | src/power_generation.py:49-93 | the direction grid has the shape of the velocities and holds the reference direction in every cell |
| WindDirection.GetWindDirectionGrid | src/power_generation.py:49-93 | the array built from zeros through the six masks is the direction grid |
| Calendar.DaysInMonth | rewrite.py:47 | every month of the Gregorian calendar has 28 to 31 days (also line 113) |
| Calendar.NextDate | rewrite.py:47 | the day after a valid date is a valid date (also line 113) |
| Calendar.NextDateDatesLeft | src/combine_merra.py:115-118 | stepping a day at a time through one year only lowers a non-negative measure, so the walk through the year ends |
| Calendar.NoLeapMonthLength | powGen_impl.py:120 | every month of the 365-day year has 28 to 31 days |
| Calendar.CumulativeDaysAreSums | powGen_impl.py:120 | each entry of the days-before-month table adds the length of its month to reach the next entry, and the last reaches 365 |
| Calendar.DaysBeforeStep | src/combine_merra.py:114-128 | within a year, the day counter advances by one per date, except on stepping off 29 February, which it skips |
| Calendar.DaysBeforeBounds | src/combine_merra.py:114-128 | the counter of every date lies in [0, 365), and 31 December gets slot 364 |
| Calendar.WalkMonthsLands | powGen_impl.py:118-128 | walking through the months from month m lands on a real day of a real month at the same position of the year |
| Calendar.MonthOfPositionUnique | powGen_impl.py:120 | a position of the 365-day year belongs to one month and one day only |
| Calendar.NoLeapMonthDayValid | powGen_impl.py:118-128 | the jd-th day of the year, for jd from 1 to 365, is a real day of a real month jd days into the year |
| Calendar.NoLeapDateOfSlot | src/combine_merra.py:114-128 | the date written to day slot k is a valid date other than 29 February, and its counter is k |
| Calendar.SlotOfNoLeapDate | src/combine_merra.py:114-128 | every date other than 29 February is the date of the slot its counter names |
| Calendar.NoLeapDateRoundTrip | src/combine_merra.py:114-128 | day slots and the dates of a year other than 29 February determine each other |
| Calendar.CalendarStep | src/combine_merra.py:114-128 | one step of the date loop keeps the counter equal to the slot of the current date, and the counter reaches 365 when the year is over |
| Calendar.ParseYmd | src/combine_merra.py:47 | strptime with '%Y%m%d' yields only valid dates of years from 1 on |
| Calendar.FormatYmd | rewrite.py:75 | strftime('%Y%m%d') of a four-digit year writes eight digits |
| Calendar.ParseFormatYmd | rewrite.py:75 | strptime with '%Y%m%d' reads back the date that strftime wrote |
| Text.DigitChar | powGen_impl.py:349 | each decimal digit is written as a digit character |
| Text.DigitValue | powGen_impl.py:321 | a digit character reads as a value below 10 |
| Text.NatToString | src/power_generation.py:146-147 | str() of a non-negative integer is a non-empty string of digits with no leading zero |
| Text.IntToString | src/combine_merra.py:38-43 | str() of any integer is non-empty |
| Text.NatToStringRoundTrip | src/power_generation.py:146-147 | the digits str() writes read back as the number |
| Text.DigitsValueSnoc | powGen_impl.py:321 | appending a digit multiplies the value read so far by ten and adds that digit |
| Text.DigitValueOfChar | powGen_impl.py:321 | the character written for a digit reads back as that digit |
| Text.AllDigitsSlice | src/combine_merra.py:43 | every slice of a string of digits is a string of digits |
| Text.FourDigitYear | src/combine_merra.py:38-43 | str(year) of a year from 1000 to 9999 is four digits, the first not '0' |
| Text.TwoDigits | powGen_impl.py:185-194 | a number below 100 is written as two digits that read back as the number |
| Text.StripOfLine | powGen_impl.py:319-321 | strip() of a line whose text has no white space at either end drops only the newline |
| Text.StripLeftMeaning | powGen_impl.py:321 | the leading white space is dropped: the result is the longest suffix that does not start with white space |
| Text.StripRightMeaning | powGen_impl.py:321 | the trailing white space is dropped: the result is the longest prefix that does not end in white space |
| Text.StripMeaning | powGen_impl.py:321 | strip() keeps the stretch between the leading and the trailing white space, which neither starts nor ends with white space |
| Text.ParseIntMeaning | powGen_impl.py:321 | a text int() accepts strips to digits after an optional sign, ending in a digit, with a minus sign before a negative value; a text without a digit is refused |
| Text.ParseSignedOfString | powGen_impl.py:321 | int() reads back the signed digits str() writes (also line 349) |
| Text.ParseSignedOfNat | powGen_impl.py:321 | int() reads back the digits of a non-negative integer (also line 349) |
| Text.ParseSignedOfNegative | powGen_impl.py:321 | int() reads back a minus sign followed by the digits of the magnitude (also line 349) |
| Text.ParseIntOfLine | powGen_impl.py:321 | int() of a line that "%d\n" wrote is the number written (also line 349) |
| Text.ParseIntOfWord | powGen_impl.py:321 | int() of the word "done" raises, since it is not a number (also line 351) |
| Text.FirstNewline | powGen_impl.py:319-320 | the position found is inside the text and holds a newline, or is the end of the text |
| Text.FirstNewlineIsFirst | powGen_impl.py:319-320 | no newline comes before the one found |
| Text.LinesCons | powGen_impl.py:319-320 | a text that starts with a line ending in its only newline yields that line, then the lines of the rest |
| Text.LinesAppendStep | powGen_impl.py:348-352 | appending text after a first complete line leaves that line first |
| Text.SplitFirstLine | powGen_impl.py:319-320 | a non-empty text at a line boundary splits into a complete first line and a shorter rest at a line boundary |
| Text.LinesAppend | powGen_impl.py:348-352 | appending to a file that ends at a line boundary appends the new text's lines to the old ones |
| Text.LinesOfOneLine | checkForFinish.py:11-13 | a text with no newline is one line as it is, and with a newline added it is one line that keeps it |
| Text.LinesShape | powGen_impl.py:319-320 | iterating over a file yields no lines exactly for an empty text; every line is non-empty, every line but the last ends in a newline, and no line holds a newline before its end (also checkForFinish.py lines 11-13) |
| Text.LinesJoin | powGen_impl.py:319-320 | the lines, joined, give the file's text back |
| Grids.Spaced | powGen_impl.py:52-56 | np.arange(n) * step + start has n points |
| Grids.SpacedIncreasing | powGen_impl.py:52-56 | with a positive step the axis is strictly increasing, starts at start, and consecutive points are step apart |
| Grids.FirstIndex | generate_boundaries.py:50-51 | np.where(xs == x)[0][0] is a position holding x, and no earlier position holds it |
| Grids.FirstIndexOfDistinct | generate_boundaries.py:50-51 | on a strictly increasing axis the lookup of the value at position i gives back i |
| MerraData.Unwritten | src/combine_merra.py:70-73 | a variable just created has the shape of its dimensions and reads as netCDF's double fill value in every cell |
| MerraData.PyIndex | src/combine_merra.py:89-93 | x[i] is in range exactly when -n <= i < n, and then reads position i, or n + i for a negative i |
| MerraData.MulMonotone | rewrite.py:40-43 | multiplying by a row length keeps the order of row numbers |
| MerraData.FlatIndexInverse | powGen_impl.py:133 | the flat position latitude * num_lons + longitude gives back the latitude as its quotient and the longitude as its remainder |
| MerraData.FlatIndexRange | rewrite.py:40-43 | the flat positions of an m by n grid lie below m * n |
| MerraData.FlatIndexSplit | rewrite.py:40-43 | every position below m * n is the flat position of one cell of the grid |
| MerraData.FlatIndexInjective | rewrite.py:40-43 | distinct cells have distinct flat positions |
| MerraData.Var3Equal | src/combine_merra.py:89-93 | two variables of the same shape that agree on every cell are equal |
| PowGenImpl.GetLatLon | powGen_impl.py:52-56 | num_lats latitudes and num_lons longitudes |
| PowGenImpl.GetLatLonAxes | powGen_impl.py:52-56 | lat[i] = start_lat + 0.5 i and lon[j] = start_lon + 0.625 j; both axes strictly increase, so a coordinate's first position on its axis is its index |
| PowGenImpl.MonthAssignedIsLast | powGen_impl.py:120-123 | after i rounds the loop holds no month exactly when i = 0 or jd <= 0; otherwise the last month whose cumulative entry is below jd |
| PowGenImpl.GetDateArithmetic | powGen_impl.py:118-128 | for jd > 0 a month between 1 and 12 is assigned, and past January jd % cum[month - 1] is jd - cum[month - 1], so the pair returned is the reference day of the year |
| PowGenImpl.GetDate | powGen_impl.py:118-128 | the loop and the modulo return exactly the reference month and day (None for jd <= 0, where month is never bound) |
| PowGenImpl.DayOfYearValid | powGen_impl.py:118-128 | for 1 <= jd <= 365 the month is in 1..12, the day is in 1..its length, cum[month - 1] + day = jd, and the date is slot jd - 1 of a year without 29 February |
| PowGenImpl.DayOfYearPastEnd | powGen_impl.py:118-128 | with no upper check, day 366 comes out as (12, 32) |
| PowGenImpl.DayOfYear | powGen_impl.py:118-128 | get_date fails (month is never assigned) exactly for jd <= 0; for a day of a 365-day year it returns a valid (month, day) whose cumulative position is jd; past the end the month is 12 |
| PowGenImpl.PaddedTwoDigits | powGen_impl.py:184-194 | every month or day below 100 is padded to its two decimal digits |
| PowGenImpl.DateRangeStartOfDay | powGen_impl.py:184-196 | for a four-digit year and a day of the year, the date_range start is a ten-character "YYYY-MM-DD" whose fields read back as that year, month and day |
| PowGenImpl.CellSeries | powGen_impl.py:135-136 | the squeezed, reshaped series of a cell has days times hours entries |
| PowGenImpl.CellSeriesAt | powGen_impl.py:135-136 | hour t of day d of a cell is entry d * hours + t of its series |
| PowGenImpl.ReadSeries | powGen_impl.py:135-154 | the reads succeed exactly when every name exists and the cell index is in range, giving each variable's series in order; otherwise the error names the first read that fails |
| PowGenImpl.FirstFailureShift | powGen_impl.py:135-154 | the first failing read after a successful one is the first failing read of the whole list |
| PowGenImpl.Minus | powGen_impl.py:161 | t2m - 273.15 entry by entry, same length |
| PowGenImpl.Over | powGen_impl.py:156 | pressure_Pa / 101325.0 entry by entry, same length |
| PowGenImpl.Speed | powGen_impl.py:157-159 | (v ** 2 + u ** 2) ** .5 entry by entry, same length |
| PowGenImpl.GetDataResult | powGen_impl.py:131-163 | get_data succeeds exactly when latLon = latitude * num_lons + longitude names a row of the file under numpy indexing (negative values count from the end) and all ten variables can be read there; it then returns the series computed from the variables of those names; a latLon outside the file fails, and otherwise the error is the first failing read in its order |
| PowGenImpl.GetData | powGen_impl.py:131-163 | success exactly when the row that latLon indexes exists and every read succeeds there, with the series computed from that row; a latLon outside the file is refused with the first variable's read error |
| PowGenImpl.DataRowOfCell | powGen_impl.py:133 | for a non-negative longitude the row read is latitude * num_lons + longitude itself when the file has that many rows, and otherwise there is none |
| PowGenImpl.CellDataMeaning | powGen_impl.py:156-163 | hour by hour: ghi is SWGDN, temperature is T2M - 273.15, pressure is PS / 101325, each speed is sqrt(V^2 + U^2) at its height, and the direction is that of U50M and V50M; all seven series have the same length |
| PowGenImpl.Slice | powGen_impl.py:339-340 | Python's xs[lo:hi]: the ordinary slice when it lies within the sequence, never longer than the sequence |
| PowGenImpl.DaySliceHours | powGen_impl.py:339-340 | a day inside the series gets exactly its 24 hours, xs[24 jd + h] |
| PowGenImpl.SolarDays | powGen_impl.py:337-340 | the solar rows of the first n days are 24 n rows |
| PowGenImpl.SolarDayHours | powGen_impl.py:337-340 | each day adds 24 rows |
| PowGenImpl.FirstUndated | powGen_impl.py:184-201 | the first of n day indices whose date pd.date_range rejects (a day past get_date's calendar, or a start outside pandas' Timestamp range), or None exactly when every one of them is accepted |
| PowGenImpl.FirstUndatedStays | powGen_impl.py:337-340 | once a day is rejected, longer day loops stop at that same day |
| PowGenImpl.UndatedPastYearEnd | powGen_impl.py:184-201 | for years 1678 to 2261, every day of the 365-day year is accepted and the first rejected day index is 365 (get_date(366), 32 December) |
| PowGenImpl.WriteSolarDay | powGen_impl.py:338-340 | one pass appends that day's 24 rows to the CSV and changes nothing else, exactly when pd.date_range accepts the day; a rejected day appends nothing and reports it |
| PowGenImpl.WriteSolarDays | powGen_impl.py:337-340 | the day loop appends the rows of every whole day of the GHI series, in order, when every day is accepted; otherwise it raises at the first rejected day with the rows of the days before it written |
| PowGenImpl.SolarDaysSnoc | powGen_impl.py:337-340 | the rows of jd + 1 days are those of jd days followed by day jd's |
| PowGenImpl.SolarDaysRow | powGen_impl.py:215-221 | row r is hour r % 24 of day r / 24: it carries year, get_date(r / 24 + 1), the hour, and entry r of the wind speed and temperature |
| PowGenImpl.ResumeOfFailed | powGen_impl.py:320-321 | once int() rejects a line, the run fails with that line whatever follows |
| PowGenImpl.ResumeOf | powGen_impl.py:317-322 | no lines resume at 0; a resumed longitude is one past the int() of the last line; a failure names a line of the log that int() rejects |
| PowGenImpl.Resume | powGen_impl.py:317-322 | without a log the run starts at longitude 0; a failure names a line of the log that int() rejects |
| PowGenImpl.NegativeResume | powGen_impl.py:317-322 | a log holding "-3" resumes at longitude -2, which indexes lon[3] of the five longitudes and, via latLon = -2, the second-to-last row of the file, and the run logs "-2" (also lines 329-352) |
| PowGenImpl.ResumeLongitude | powGen_impl.py:317-322 | the resume loop returns 0 without a log, else one past the last line's integer, or the first line int() rejects |
| PowGenImpl.ResumeOfMeaning | powGen_impl.py:317-322 | reading the log succeeds exactly when every line is an integer, and then gives one past the last (0 for none); otherwise the error is the first bad line |
| PowGenImpl.AppendNumberLine | powGen_impl.py:349 | appending "%d\n" to a log ending at a line boundary adds exactly that line |
| PowGenImpl.AppendLastLines | powGen_impl.py:349-351 | appending "%d\n" and then "done" adds those two lines |
| PowGenImpl.ResumeOfSnoc | powGen_impl.py:320-321 | one more line: the run resumes one past it, unless it or an earlier line is rejected |
| PowGenImpl.ResumeOfNumberLine | powGen_impl.py:320-321 | after a written line "%d\n" the next run resumes one past its number (also line 349) |
| PowGenImpl.NoDoneLineAfter | powGen_impl.py:349 | a line ending with a newline never adds a "done" line |
| PowGenImpl.ResumeAfterLine | powGen_impl.py:348-352 | a run that is not the last leaves a log from which the next run resumes one further, still with no "done" line |
| PowGenImpl.ResumeAfterLastLine | powGen_impl.py:348-352 | after the last longitude the log has a "done" line, and a further run would fail on int("done") |
| PowGenImpl.ResumeStep | powGen_impl.py:317-322 | one run on an unfinished log that resumes at i: the next resumes at i + 1, or after the last longitude checkForFinish reports 1 and one more run would stop at "done" (also lines 348-352) |
| PowGenImpl.ResumeStart | powGen_impl.py:317-318 | without a log the first run starts at longitude 0 and the job is unfinished |
| PowGenImpl.ResumeProtocol | powGen_impl.py:317-322 | after the runs for longitudes 0 to k - 1 the next run resumes at k and the job reads unfinished; after the last one checkForFinish reports it finished (also lines 348-352) |
| PowGenImpl.WriteCord | powGen_impl.py:278-290 | a solar series of another length than the slot raises before anything is stored; otherwise the solar [lat, lon, :] slot holds it, and then a wind series of another length raises with only the solar slot written; otherwise the wind slot holds it too. No other slot changes |
| PowGenImpl.CellResourcesPastYearEnd | powGen_impl.py:184-201 | for years 1678 to 2261, a cell whose data reads fails exactly when the file holds more than 365 days, and then with pd.date_range's error on day 366, 32 December |
| PowGenImpl.CellOutputsFit | powGen_impl.py:341-342 | simulations giving one value per output hour give outputs that fit the cell's slot |
| PowGenImpl.CellsFit | powGen_impl.py:341-346 | with such simulations every latitude's outputs fit the slot, and write_cord raises for no latitude whose cell succeeds |
| PowGenImpl.RunCell | powGen_impl.py:329-342 | one latitude returns the simulations run on the two resource files of its cell, or get_data's error, or pd.date_range's error on the first day it rejects |
| PowGenImpl.RunLatitudes | powGen_impl.py:328-346 | the latitudes finished hold their cells' outputs at that longitude, in order; it stops at the first latitude whose cell raises or whose outputs write_cord rejects, with that error; a rejected wind series leaves that latitude's solar slot written; no other slot changes; success exactly when every latitude finished |
| PowGenImpl.CellTable | powGen_impl.py:328-346 | a table of every latitude's outputs at one longitude exists |
| PowGenImpl.ResumeColumn | powGen_impl.py:317-329 | the output column a run resumes at exists exactly when the log parses and names a longitude from -num_lons to num_lons - 1 |
| PowGenImpl.RunMain | powGen_impl.py:293-352 | a bad log line fails first, then a resumed longitude that lon[longitude] cannot index (outside -num_lons to num_lons - 1); otherwise the run works at the column that index names, negative values counting from the end: on success every latitude's slot at that column holds its cell's outputs, nothing else changes, and the log gains "%d\n" of the longitude as read (and "done" after the last one); a cell that raises (get_data, pd.date_range past day 365, or write_cord on outputs of the wrong length) fails the run with that error and leaves the earlier latitudes written, plus the failing latitude's solar slot when only its wind series was rejected |
| PowGenBeta.FirstThree | beta/powGen_impl_beta.py:25-26 | xs[:3]: the first min(3, len) entries |
| PowGenBeta.GetLatLon | beta/powGen_impl_beta.py:22-30 | the axes are the first at most three entries of the file's lat and lon, and num_lats, num_lons are their lengths |
| PowGenBeta.CellIndexAsWrittenRight | beta/powGen_impl_beta.py:106 | the index computed with the truncated num_lons is the file's row-major index exactly when the latitude is 0 or the file has at most three longitudes (also lines 279, 295) |
| PowGenBeta.CellIndexAsWrittenCounterexample | beta/powGen_impl_beta.py:106 | on a file with five longitudes, latitude 1, longitude 0 reads flat cell 3, which holds latitude 0, longitude 3 (also lines 279, 295) |
| PowGenBeta.CellIndexIntendedRight | beta/powGen_impl_beta.py:106 | with the file's full longitude count each cell reads its own flat cell, within the file |
| PowGenBeta.GridRowAsWritten | beta/powGen_impl_beta.py:106 | with the truncated count from get_lat_lon, the row get_data reads for a cell is the as-written flat index, which is a row of the file |
| PowGenBeta.GridRowIntended | beta/powGen_impl_beta.py:106 | with the file's full longitude count, the row get_data reads for a cell is the intended flat index, and that row holds the cell's own (latitude, longitude) |
| PowGenBeta.SolarCf | beta/powGen_impl_beta.py:216-224 | the solar capacity factor is AC output / (1000 kW * 1000), entry by entry |
| PowGenBeta.WindCf | beta/powGen_impl_beta.py:240-248 | the wind capacity factor is generation / 1000 kW, entry by entry |
| PowGenBeta.CapacityFactorInverse | beta/powGen_impl_beta.py:216-224 | scaling the factors back by the nameplate capacity gives the generation; the factors equal the per-cell driver's divided outputs (also lines 240-248) |
| PowGenBeta.GridTable | beta/powGen_impl_beta.py:289-316 | a table of every cell's outputs exists |
| PowGenBeta.RunGrid | beta/powGen_impl_beta.py:289-316 | longitude-major, latitude-minor, with the longitude count get_data is given as a parameter (the truncated count of line 295 as written, the file's full count once corrected): every visited cell's slot holds its outputs, every other slot keeps its value, and the loop stops at the first cell that raises, in get_data, in pd.date_range past day 365 (line 169) or in write_cord (lines 253-265), with that error and with that cell's solar slot written when only its wind series was rejected; success exactly when every cell was visited |
| PowerGeneration.CubeOf | src/power_generation.py:138 | reading an entry of the variables dictionary succeeds exactly when the key is present and holds a (lat, lon, time) array; a missing key raises KeyError, and an entry of any other shape is reported as NotAnArray3 naming the key, a device of the model: Python raises nothing on reading it |
| PowerGeneration.PressureAtm | src/power_generation.py:138 | every cell of pressure_atm is the cell of PS times ATM_PER_PASCAL = 1/101325 (line 21), over the same shape |
| PowerGeneration.TemperatureC | src/power_generation.py:141 | every cell of temperature_c is the cell of T2M minus KELV_CELSIUS_OFFSET = 273.15 (line 22), over the same shape |
| PowerGeneration.WindSpeed | src/power_generation.py:146-149 | every cell of the speed is the square root of the sum of the squares of the northward and eastward components at that cell |
| PowerGeneration.ScaleWindHeight | src/power_generation.py:96-107 | fails with a math domain error exactly when a height is not positive, and with a division by zero exactly when the logarithm of height_1 is zero; otherwise every cell is speed_2 times 2 to the power ln(speed_2 / speed_1) / log(height_2, height_1) |
| PowerGeneration.Shear | src/power_generation.py:104-106 | on reals, a zero speed at the second height gives zero (in numpy only when the first speed is non-zero and the height scale positive; otherwise the float result is NaN), and equal non-zero speeds at both heights give that speed back when the height scale is non-zero |
| PowerGeneration.ScaleWindHeightIgnoresHeight3 | src/power_generation.py:96-107 | the result is the same for any value of height_3, which the formula never reads |
| PowerGeneration.ScaleWindHeightOfEqualSpeeds | src/power_generation.py:104-106 | when both speeds are equal and non-zero everywhere, the scaled speed is the input speed unchanged |
| PowerGeneration.ScaleWindHeightAtZeroSpeed | src/power_generation.py:105 | a zero speed at the first height is not guarded: that cell is computed from numpy's stand-in value for the division by zero |
| PowerGeneration.TurbineClass | src/power_generation.py:130-131 | the class is 1 exactly when the median is at least 9, 2 exactly when it is in [8, 9), and 3 exactly when it is below 8 |
| PowerGeneration.TurbineClasses | src/power_generation.py:110-134 | fails only with a division by zero when the logarithm of 10 is zero; otherwise the grid has one class per (lat, lon) cell, namely the class of the median over the hours of the speed scaled from 10 m and 50 m to 100 m |
| PowerGeneration.HeightStep | src/power_generation.py:146-149 | one turn of the heights loop keeps every array of the (lat, lon, time) shape |
| PowerGeneration.HeightStepOk | src/power_generation.py:146-149 | one turn succeeds exactly when V{h}M and then U{h}M are arrays, and otherwise raises the error of the first one that is not |
| PowerGeneration.HeightStepValue | src/power_generation.py:146-149 | a successful turn adds wind_speed_{h}_m_per_s, computed from V{h}M and U{h}M, and changes nothing else |
| PowerGeneration.HeightStepFrame | src/power_generation.py:144-149 | a turn of the loop does not change whether the components of another height are arrays |
| PowerGeneration.HeightsLoop | src/power_generation.py:144-149 | the loop over the heights keeps every array of the (lat, lon, time) shape |
| PowerGeneration.HeightsLoopSnoc | src/power_generation.py:144-149 | the loop over the first i + 1 heights is the loop over the first i followed by turn i |
| PowerGeneration.HeightsLoopStops | src/power_generation.py:144-149 | once one turn raises, the whole loop raises that same error |
| PowerGeneration.HeightsUnrolled | src/power_generation.py:144 | the loop over [2, 10, 50] is the turn at 2 m, then the turn at 10 m, then the turn at 50 m, stopping at the first error |
| PowerGeneration.HeightsOk | src/power_generation.py:144-149 | the loop succeeds exactly when the six components V2M, U2M, V10M, U10M, V50M and U50M are arrays, and otherwise raises the error of the first one, in that order, that is not |
| PowerGeneration.HeightsValue | src/power_generation.py:144-149 | a successful loop adds the three speeds, each computed from that height's components as the file holds them |
| PowerGeneration.HeightsLookups | src/power_generation.py:152-164 | after the loop, U50M, V50M and SWGDN read as in the file, and the 10 m and 50 m speeds read as the values the loop computed |
| PowerGeneration.FirstBad | src/power_generation.py:136-164 | the entry it names, if any, is one that cannot be read as an array |
| PowerGeneration.FirstBadMeaning | src/power_generation.py:136-164 | it finds nothing exactly when every key holds an array; otherwise it names the first key, in reading order, that does not |
| PowerGeneration.FirstBadAppend | src/power_generation.py:136-164 | over two key lists read one after the other, the first bad key is that of the first list if it has one and otherwise that of the second |
| PowerGeneration.Conversions | src/power_generation.py:138-141 | the two conversions keep every array of the (lat, lon, time) shape |
| PowerGeneration.ConversionsMeaning | src/power_generation.py:138-141 | the conversions succeed exactly when PS and T2M are arrays, raise the error of the first that is not, and otherwise add pressure_atm and temperature_c computed from them |
| PowerGeneration.WindAndSun | src/power_generation.py:152-164 | the last three assignments keep every array of the (lat, lon, time) shape |
| PowerGeneration.WindAndSunOk | src/power_generation.py:152-164 | the last three assignments succeed exactly when U50M and V50M are arrays, the logarithm of 10 is non-zero and SWGDN is an array; otherwise the error is the first of these to fail, in that order |
| PowerGeneration.WindAndSunValue | src/power_generation.py:152-164 | they add wind_direction_deg from U50M and V50M, the class grid from the 10 m and 50 m speeds, and ghi_w_per_m_2 as SWGDN |
| PowerGeneration.WindKeysFrame | src/power_generation.py:138-141 | adding an entry whose name starts with neither V nor U does not change which wind component is first found missing |
| PowerGeneration.WindKeysAllArrays | src/power_generation.py:144-149 | when all the inputs are arrays no wind component is found missing |
| PowerGeneration.Process | src/power_generation.py:136-164 | deriving the variables keeps every array of the (lat, lon, time) shape |
| PowerGeneration.WindStages | src/power_generation.py:144-164 | the stages after the conversions keep every array of the (lat, lon, time) shape |
| PowerGeneration.WindStagesOutcome | src/power_generation.py:144-164 | the stages after the conversions succeed exactly when the six components are arrays, the logarithm of 10 is non-zero and SWGDN is an array, and otherwise raise at the first of these to fail |
| PowerGeneration.WindStagesValue | src/power_generation.py:144-164 | on success they add the three speeds, the direction, the class grid and ghi, each computed from the dictionary as the conversions left it |
| PowerGeneration.ProcessOutcome | src/power_generation.py:136-164 | _process_merra_data succeeds exactly when PS, T2M, the six wind components and SWGDN are arrays and the logarithm of 10 is non-zero; otherwise it raises at the first of them to fail, in the order the assignments read them, with the logarithm checked before SWGDN |
| PowerGeneration.ProcessOkIff | src/power_generation.py:136-164 | processing succeeds exactly when the nine inputs are arrays and the logarithm of 10 is non-zero |
| PowerGeneration.ProcessClosedForm | src/power_generation.py:136-164 | on success the dictionary equals the reference one, in which every derived entry is computed directly from the file's variables |
| PowerGeneration.Entries | src/power_generation.py:136-164 | the dictionary after the eight assignments has the file's keys plus the eight derived ones, keeps every other entry, holds each given derived value under its name, and holds ghi_w_per_m_2 as SWGDN |
| PowerGeneration.DerivedConversions | src/power_generation.py:138-141 | the reference dictionary holds pressure in atmospheres from PS and temperature in Celsius from T2M |
| PowerGeneration.DerivedSpeed | src/power_generation.py:144-149 | for each of the heights 2, 10 and 50, the reference dictionary holds the speed computed from that height's own components |
| PowerGeneration.DerivedWind | src/power_generation.py:152-164 | the reference dictionary holds the direction from the 50 m components, the class grid from the 10 m and 50 m speeds, and ghi as SWGDN |
| PowerGeneration.DerivedKeepsRaw | src/power_generation.py:136-164 | the keys afterwards are the file's keys plus the derived ones, and no other entry of the file changes |
| PowerGeneration.HeightKeys2 | src/power_generation.py:146-147 | the f-strings of height 2 spell wind_speed_2_m_per_s, V2M and U2M |
| PowerGeneration.HeightKeys10 | src/power_generation.py:146-147 | the f-strings of height 10 spell wind_speed_10_m_per_s, V10M and U10M |
| PowerGeneration.HeightKeys50 | src/power_generation.py:146-147 | the f-strings of height 50 spell wind_speed_50_m_per_s, V50M and U50M |
| PowerGeneration.SpeedKeyFacts | src/power_generation.py:146 | every speed name starts with "wind_speed_", and different heights give different names |
| PowerGeneration.AppendRowEffect | src/power_generation.py:171-172 | appending one row adds each of its fields to the end of its column's list, and a key is present afterwards exactly when it was before or the row has it |
| PowerGeneration.CurvesAreColumns | src/power_generation.py:166-172 | after both loops, the list of every key is its column, the fields under that key taken row after row; a key is present exactly when some row has it |
| PowerGeneration.ValuesOfDistinct | src/power_generation.py:171-172 | in a row whose names are distinct, the fields under a row's name are exactly its one field |
| PowerGeneration.ValuesAbsent | src/power_generation.py:171-172 | a row without a name contributes no field to that name |
| PowerGeneration.CurvesOfTable | src/power_generation.py:166-172 | for a file under a header, each header name gets one string per row, entry i being row i's field under that name, and the name is present exactly when the file has rows |
| PowerGeneration.AxisOf | src/power_generation.py:208-209 | reading a coordinate axis succeeds exactly when the key holds a one-dimensional array; a missing key raises KeyError, and any other entry is reported as NotAnAxis naming the key, a device of the model: Python raises nothing on reading it |
| PowerGeneration.CellSeries | src/power_generation.py:281 | the slice [lat_idx, lon_idx, :] succeeds exactly when the entry is an array and the indices are inside it, and then is the hourly series of that cell (also lines 291-292) |
| PowerGeneration.MerraPowerGeneration.Load | src/power_generation.py:42-46 | the object holds the file's year and every variable of the file, and no power curves yet |
| PowerGeneration.MerraPowerGeneration.ConvertUnits | src/power_generation.py:138-141 | the first two assignments update the dictionary in place as Conversions does, raise as it raises, and change no other field |
| PowerGeneration.MerraPowerGeneration.AddWindSpeed | src/power_generation.py:146-149 | one turn of the loop updates the dictionary in place as HeightStep does and raises as it raises |
| PowerGeneration.MerraPowerGeneration.AddWindSpeeds | src/power_generation.py:144-149 | the loop over 2, 10 and 50 m updates the dictionary as HeightsLoop does, stopping at the first error |
| PowerGeneration.MerraPowerGeneration.AddWindAndSun | src/power_generation.py:152-164 | the last three assignments update the dictionary as WindAndSun does and raise as it raises |
| PowerGeneration.MerraPowerGeneration.ProcessMerraData | src/power_generation.py:136-164 | _process_merra_data succeeds or raises as Process does and on success leaves the dictionary Process computes; the year and the curves are untouched |
| PowerGeneration.MerraPowerGeneration.LoadPowerCurves | src/power_generation.py:166-172 | the curves become the columns of the file's rows, read row after row; the year and variables are untouched |
| PowerGeneration.MerraPowerGeneration.InitializeDataset | src/power_generation.py:207-229 | fails exactly when lat or lon is not a coordinate axis; otherwise the dataset has dimensions lat, lon and time of 8760, the year, both axes copied, and the two capacity-factor variables over (lat, lon, time) |
| PowerGeneration.MerraPowerGeneration.SolarResourceData | src/power_generation.py:276-295 | succeeds exactly when ghi, temperature and the 2 m speed are arrays and the cell is inside them; the record then has zone and elevation 0, the location given, irradiance split from the cell's ghi series, and the cell's temperature and 2 m speed series |
| PowerGeneration.Create | src/power_generation.py:25-46 | the object exists exactly when the nine inputs are arrays and the logarithm of 10 is non-zero (otherwise construction raises the error processing raises); it then holds the year, the reference dictionary and the columns of the curve file |

## Left out

- File I/O is not modelled: netCDF open/create/close, `glob`, `os.listdir`, `os.path.exists`, the CSV/`.srw` writers, Excel output, `os.remove`, `mkdir`, `print` and `logging`. Files are given as their contents, an absent file as `None`, and writers produce rows of fields. How `csv.writer` renders a field as text is not modelled.
- `create_netCDF_files` (powGen_impl.py:66-91, and its copy at beta/powGen_impl_beta.py:40-65) is not modelled. As written it closes the solar dataset (powGen_impl.py:77, beta line 51) and then calls `createVariable` on it for the wind file's `lat` and `lon` (powGen_impl.py:86-87, beta lines 60-61). On a closed netCDF dataset that raises. So a first `powGen_impl.py` run, which creates the files, stops at line 314 before it writes the log. Every beta run stops before its cell loop, since beta `main` always calls it. `PowGenImpl.RunMain` and `PowGenBeta.RunGrid` start from the output files a working setup would have left: "ac"/"cf" variables of shape (lat, lon, 8760).
- The PySAM simulator calls (`run_solar`/`run_wp` execute, `simulate_solar`/`simulate_wind`) are function parameters. The model states only what the drivers do with their results.
- `_get_dni_dhi` and `get_dni_dhi` (pvlib geometry and DIRINT) are a function parameter of the solar record. The source's `_get_dni_dhi` refers to undefined names (`julian_date`, `pv.solarposition`) and could not run as written.
- `MerraPowerGeneration.run`, `_initialize_solar_model` and `_initialize_wind_model` are not modelled, because they are unfinished and write nothing. `_add_mask` is a no-op, so the model never reads mask files.
- `_get_wind_resource_data` returns a set holding one empty string, so there is nothing to model. `_load_masks` only lists the mask files that `_add_mask` ignores.
- `get_power_curve` in both drivers reads two CSV columns with pandas. Its result is a parameter (`PowerCurve`) of the wind simulation.
- Exact floating point is not modelled: IEEE rounding, NaN, infinities and the values of `arctan`/`sqrt`/`log`/`2 **`/`np.median` are all outside the model. Real arithmetic stands in for float arithmetic.
- `np.arange` with float steps is modelled on reals: `Arange` counts the steps below the stop exactly, not as floating point would.
- numpy broadcasting is modelled only where the scripts rely on it, on arrays of one shape. A length-1 axis is stretched through `Bcast`.
- Partial state after an exception is modelled only for the netCDF output arrays, which keep what `write_cord` stored before the error, and for the solar CSV's day loop. Otherwise, when a step raises, the model returns the error and not the half-written file.
- `PowerGeneration.CubeOf`, `PowerGeneration.AxisOf`: an entry of the wrong shape stops the model with `NotAnArray3` or `NotAnAxis`. Python reads such an entry without raising, and what numpy later does with it is not modelled.
- `PowerGeneration.Shear`: the zero-speed promise holds on reals. In floating point a zero first speed (0/0) or a non-positive height scale makes the result NaN.
- `PowGenImpl.WriteCord`: any simulator output whose length is not the slot's is an error. netCDF4 would broadcast a one-element series across the slot; the model does not, and does not name netCDF4's exception type.
- `PowGenImpl.DateRangeParses`: pandas' bounds are modelled at whole days, from 1677-09-22 to 2262-04-11, the start days whose 24 hourly stamps fit the Timestamp range. Years outside four digits, which `str(year)` spells differently, are not modelled in the date string.
- `csv.DictReader`'s filling of short rows with `None` is not modelled: the power-curve rows are taken to be complete under their header.
- The wind class script's reading of the yearly netCDF files is not modelled, because that part of wind_class_generation.py is not part of this model. The yearly 100 m speeds are a parameter.
- `CombineMerra.MerraFileDate`, `Calendar.FormatYmd`, `Calendar.ParseFormatYmd`, `PowGenImpl.DateRangeStartOfDay`, `Rewrite.DayFileName`, `Rewrite.DayFileNameDate`, `Rewrite.SourceName`, `Rewrite.DaySpec` and the `Rewrite` members built on them: these need four-digit years (1000 to 9999). That is how `%Y`, `str(year)` in a date string and the `{year}dddd` pattern behave on the years the data has.
- `Text.Lines`: splits a text only at '\n'. Python's text-mode iteration also ends a line at '\r' and "\r\n", and reads both as '\n'. The logs it reads are written only by `"%d\n"` and `"done"`, so they hold no '\r'.
- `Text.ParseInt`: accepts only ASCII digits, without `_` separators. Python's `int()` also accepts `"1_0"` and non-ASCII decimal digits. The log lines it reads are written by `"%d\n"`, which gives ASCII digits only.
- Command-line parsing is not modelled: `sys.argv` in powGen_impl.py:47-49, beta/powGen_impl_beta.py:17-18 and rewrite.py:10-12. The log name, the year and the region are parameters. The `int()` of a malformed year argument is not modelled. `MultiyearCheckForFinish.ExitCode` is the exception: it models its missing argument.
- The functions of `beta/powGen_impl_beta.py` that repeat `get_date`, `get_data`, `get_windDirection`, `get_date_time_index` and the resource writers of `powGen_impl.py` behave the same. Beta `write_day2csv` drops the latitude and longitude parameters, which the original never uses, and writes the same rows. They are modelled once, in `PowGenImpl` and `WindDirection`.
- The ten `append` statements and the ten cell assignments of `rewrite.py` are modelled as a loop over the ten variable names, each doing the same thing.
- There is no concurrency: cluster batching across jobs is not part of this model.
- The job-submission script, the interactive offshore driver, the statistics scripts and the tests are not modelled, because none of them has logic of its own.

## Findings

| source | as written | input that shows it | evidently intended | confidence | as-written member | corrected member |
|---|---|---|---|---|---|---|
| beta/powGen_impl_beta.py:106 | `main` passes the truncated axis length `num_lons` (at most 3) to `get_data`, which computes `latitude * num_lons + longitude` into the file's row-major layout | a processed file with five longitudes: latitude 1, longitude 0 reads flat cell 3, which holds latitude 0, longitude 3 | the index uses the file's own longitude count, so every cell reads its own series; `PowGenBeta.RunGrid` runs with that count for the corrected script (`PowGenBeta.GridRowIntended`) and with the truncated one for the script as written (`PowGenBeta.GridRowAsWritten`) | not executed | PowGenBeta.CellIndexAsWrittenCounterexample | PowGenBeta.CellIndexIntendedRight |
