/**
 * wind_class_generation.py: the map of IEC wind classes. The median 100 m wind speed of every
 * year is added into a (lat, lon) grid, the grid is divided by the number of years, and five
 * whole-grid np.where stages relabel the mean speeds as class codes. The grid is an array2 that
 * every step rewrites in place.
 */
module WindClass {
  import opened Numerics
  import opened MerraData

  /** np.median(finalWindSpeed100) of cell (a, b) of one year's 100 m wind speeds (lat, lon, hour). */
  function YearMedian(m: MathLib, x: Var3, a: nat, b: nat): real
    requires WellFormed(x) && a < x.n0 && b < x.n1
  {
    m.median(x.cells[a][b])
  }

  /** Every year's speeds are a (lat, lon, hour) array over the same n0 x n1 cells. */
  predicate YearsFit(years: seq<Var3>, n0: nat, n1: nat)
  {
    forall y :: 0 <= y < |years| ==> WellFormed(years[y]) && years[y].n0 == n0 && years[y].n1 == n1
  }

  /** The sum of the medians of cell (a, b) over the first k years. */
  function MedianSum(m: MathLib, years: seq<Var3>, k: nat, a: nat, b: nat, n0: nat, n1: nat): real
    requires YearsFit(years, n0, n1) && k <= |years| && a < n0 && b < n1
  {
    if k == 0 then 0.0 else MedianSum(m, years, k - 1, a, b, n0, n1) + YearMedian(m, years[k - 1], a, b)
  }

  /** The five np.where stages, in the order the script applies them. */
  function Stage(k: nat, x: real): real
  {
    if k == 0 then (if x < 6.5 && x >= 0.0 then 0.0 else x)
    else if k == 1 then (if x >= 9.0 then 1.0 else x)
    else if k == 2 then (if x >= 8.0 then 2.0 else x)
    else if k == 3 then (if x >= 6.5 then 3.0 else x)
    else if k == 4 then (if x < 0.0 then 4.0 else x)
    else x
  }

  /** The classes the comments promise: 1 from 9 m/s, 2 from 8, 3 from 6.5, 0 below, 4 when negative. */
  function IecCode(x: real): real
  {
    if x >= 9.0 then 1.0
    else if x >= 8.0 then 2.0
    else if x >= 6.5 then 3.0
    else if x >= 0.0 then 0.0
    else 4.0
  }

  /** The stages applied in turn: the chain gives each mean speed the class of its band. */
  function Chain(x: real): (r: real)
    ensures r == IecCode(x)
  {
    Stage(4, Stage(3, Stage(2, Stage(1, Stage(0, x)))))
  }

  /**
   * The chain is right only because a code set by a stage is left alone by every later stage:
   * each code is non-negative and below the threshold of every stage after the one that set it.
   */
  lemma LaterStagesKeepCodes(j: nat, k: nat, x: real)
    requires j < k <= 4 && Stage(j, x) != x
    ensures Stage(k, Stage(j, x)) == Stage(j, x)
  {
  }

  /** The order matters: with the 8 m/s stage before the 9 m/s one, every speed from 9 m/s would end as 2. */
  lemma SwappedStagesMisclassify(x: real)
    requires x >= 9.0
    ensures Stage(1, Stage(2, x)) == 2.0 && Stage(2, Stage(1, x)) == 1.0
  {
  }

  /** Every cell of the grid, row by row, goes through one stage of the whole-array chain. */
  method ApplyStage(grid: array2<real>, k: nat)
    modifies grid
    ensures forall a, b :: 0 <= a < grid.Length0 && 0 <= b < grid.Length1 ==> grid[a, b] == Stage(k, old(grid[a, b]))
  {
    for a := 0 to grid.Length0
      invariant forall p, q :: 0 <= p < a && 0 <= q < grid.Length1 ==> grid[p, q] == Stage(k, old(grid[p, q]))
      invariant forall p, q :: a <= p < grid.Length0 && 0 <= q < grid.Length1 ==> grid[p, q] == old(grid[p, q])
    {
      for b := 0 to grid.Length1
        invariant forall p, q :: 0 <= p < a && 0 <= q < grid.Length1 ==> grid[p, q] == Stage(k, old(grid[p, q]))
        invariant forall q :: 0 <= q < b ==> grid[a, q] == Stage(k, old(grid[a, q]))
        invariant forall p, q :: a <= p < grid.Length0 && b <= q < grid.Length1 ==> grid[p, q] == old(grid[p, q])
        invariant forall p, q :: a < p < grid.Length0 && 0 <= q < grid.Length1 ==> grid[p, q] == old(grid[p, q])
      {
        grid[a, b] := Stage(k, grid[a, b]);
      }
    }
  }

  /** The five np.where reassignments: every mean speed becomes its IEC class code. */
  method Classify(grid: array2<real>)
    modifies grid
    ensures forall a, b :: 0 <= a < grid.Length0 && 0 <= b < grid.Length1 ==> grid[a, b] == IecCode(old(grid[a, b]))
  {
    ApplyStage(grid, 0);
    ApplyStage(grid, 1);
    ApplyStage(grid, 2);
    ApplyStage(grid, 3);
    ApplyStage(grid, 4);
    assert forall a, b :: 0 <= a < grid.Length0 && 0 <= b < grid.Length1 ==> grid[a, b] == Chain(old(grid[a, b]));
  }

  /** One year of the loop over cells: windSpeedArrayCul[lat][lon] += finalWindSpeed. */
  method AddYear(m: MathLib, grid: array2<real>, x: Var3)
    requires WellFormed(x) && x.n0 == grid.Length0 && x.n1 == grid.Length1
    modifies grid
    ensures forall a, b :: 0 <= a < grid.Length0 && 0 <= b < grid.Length1 ==>
              grid[a, b] == old(grid[a, b]) + YearMedian(m, x, a, b)
  {
    for a := 0 to grid.Length0
      invariant forall p, q :: 0 <= p < a && 0 <= q < grid.Length1 ==> grid[p, q] == old(grid[p, q]) + YearMedian(m, x, p, q)
      invariant forall p, q :: a <= p < grid.Length0 && 0 <= q < grid.Length1 ==> grid[p, q] == old(grid[p, q])
    {
      for b := 0 to grid.Length1
        invariant forall p, q :: 0 <= p < a && 0 <= q < grid.Length1 ==> grid[p, q] == old(grid[p, q]) + YearMedian(m, x, p, q)
        invariant forall q :: 0 <= q < b ==> grid[a, q] == old(grid[a, q]) + YearMedian(m, x, a, q)
        invariant forall p, q :: a <= p < grid.Length0 && b <= q < grid.Length1 ==> grid[p, q] == old(grid[p, q])
        invariant forall p, q :: a < p < grid.Length0 && 0 <= q < grid.Length1 ==> grid[p, q] == old(grid[p, q])
      {
        grid[a, b] := grid[a, b] + m.median(x.cells[a][b]);
      }
    }
  }

  /** The loop over the years: each cell gathers the sum of its yearly medians. */
  method AddYears(m: MathLib, grid: array2<real>, years: seq<Var3>)
    requires YearsFit(years, grid.Length0, grid.Length1)
    modifies grid
    ensures forall a, b :: 0 <= a < grid.Length0 && 0 <= b < grid.Length1 ==>
              grid[a, b] == old(grid[a, b]) + MedianSum(m, years, |years|, a, b, grid.Length0, grid.Length1)
  {
    for y := 0 to |years|
      invariant forall a, b :: 0 <= a < grid.Length0 && 0 <= b < grid.Length1 ==>
                  grid[a, b] == old(grid[a, b]) + MedianSum(m, years, y, a, b, grid.Length0, grid.Length1)
    {
      AddYear(m, grid, years[y]);
    }
  }

  /** windSpeedArrayCul / len(yearList), cell by cell (numpy's stand-in value when there are no years). */
  method DivideAll(m: MathLib, grid: array2<real>, count: nat)
    modifies grid
    ensures forall a, b :: 0 <= a < grid.Length0 && 0 <= b < grid.Length1 ==>
              grid[a, b] == Div(m, old(grid[a, b]), count as real)
  {
    for a := 0 to grid.Length0
      invariant forall p, q :: 0 <= p < a && 0 <= q < grid.Length1 ==> grid[p, q] == Div(m, old(grid[p, q]), count as real)
      invariant forall p, q :: a <= p < grid.Length0 && 0 <= q < grid.Length1 ==> grid[p, q] == old(grid[p, q])
    {
      for b := 0 to grid.Length1
        invariant forall p, q :: 0 <= p < a && 0 <= q < grid.Length1 ==> grid[p, q] == Div(m, old(grid[p, q]), count as real)
        invariant forall q :: 0 <= q < b ==> grid[a, q] == Div(m, old(grid[a, q]), count as real)
        invariant forall p, q :: a <= p < grid.Length0 && b <= q < grid.Length1 ==> grid[p, q] == old(grid[p, q])
        invariant forall p, q :: a < p < grid.Length0 && 0 <= q < grid.Length1 ==> grid[p, q] == old(grid[p, q])
      {
        grid[a, b] := Div(m, grid[a, b], count as real);
      }
    }
  }

  /** The mean over the years of the medians of cell (a, b). */
  function MeanMedian(m: MathLib, years: seq<Var3>, a: nat, b: nat, n0: nat, n1: nat): real
    requires YearsFit(years, n0, n1) && a < n0 && b < n1
  {
    Div(m, MedianSum(m, years, |years|, a, b, n0, n1), |years| as real)
  }

  /**
   * The script from a zero grid: the sum of the yearly medians, the mean, then the classes. Each
   * cell ends with the class code of its mean median speed.
   */
  method WindClassMap(m: MathLib, years: seq<Var3>, n0: nat, n1: nat) returns (grid: array2<real>)
    requires YearsFit(years, n0, n1)
    ensures fresh(grid) && grid.Length0 == n0 && grid.Length1 == n1
    ensures forall a, b :: 0 <= a < n0 && 0 <= b < n1 ==> grid[a, b] == IecCode(MeanMedian(m, years, a, b, n0, n1))
  {
    grid := new real[n0, n1]((a, b) => 0.0);
    AddYears(m, grid, years);
    DivideAll(m, grid, |years|);
    Classify(grid);
  }

  /** Years whose medians at a cell are all v sum to k times v there. */
  lemma {:induction false} MedianSumOfEqualYears(m: MathLib, years: seq<Var3>, k: nat, a: nat, b: nat, n0: nat, n1: nat, v: real)
    requires YearsFit(years, n0, n1) && k <= |years| && a < n0 && b < n1
    requires forall y :: 0 <= y < |years| ==> YearMedian(m, years[y], a, b) == v
    ensures MedianSum(m, years, k, a, b, n0, n1) == k as real * v
  {
    if k > 0 {
      MedianSumOfEqualYears(m, years, k - 1, a, b, n0, n1, v);
    }
  }

  /** When every year has the same median at a cell, the mean is that median, and the class is its band. */
  lemma MeanOfEqualYears(m: MathLib, years: seq<Var3>, a: nat, b: nat, n0: nat, n1: nat, v: real)
    requires YearsFit(years, n0, n1) && |years| > 0 && a < n0 && b < n1
    requires forall y :: 0 <= y < |years| ==> YearMedian(m, years[y], a, b) == v
    ensures MeanMedian(m, years, a, b, n0, n1) == v
    ensures IecCode(MeanMedian(m, years, a, b, n0, n1)) == IecCode(v)
  {
    MedianSumOfEqualYears(m, years, |years|, a, b, n0, n1, v);
  }
}
