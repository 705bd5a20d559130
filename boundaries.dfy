/**
 * generate_boundaries.py: the 0/1 map of the MERRA grid cells that fall in a region. A region is a
 * raster (latitude axis, longitude axis, Band1 values); each MERRA cell looks up the raster point
 * nearest to it and is marked when that point holds 1. In state mode the maps of all state rasters
 * are added, so a cell counts the states that mark it.
 */
module Boundaries {
  import opened Wrappers
  import opened Grids
  import opened Numerics

  /** A region file: its lat and lon axes and Band1, indexed [lat][lon]. */
  datatype Raster = Raster(lat: seq<real>, lon: seq<real>, band: seq<seq<real>>)

  /** The two exceptions generateBounds can raise. */
  datatype BoundsError =
    | EmptyAxis        // .min() of an empty raster axis (numpy's ValueError)
    | BandIndexError   // the nearest raster point lies outside Band1 (IndexError)

  // ----- ranges -----

  /** The least integer at or above x. */
  function Ceil(x: real): (n: int)
    ensures (n - 1) as real < x <= n as real
  {
    var f := x.Floor;
    if f as real == x then f else f + 1
  }

  /**
   * np.arange(start, stop, step) with a positive step: start, start + step, ... for as long as the
   * value stays below stop, and no further.
   */
  function Arange(start: real, stop: real, step: real): (r: seq<real>)
    requires step > 0.0
    ensures forall k :: 0 <= k < |r| ==> r[k] == start + k as real * step && r[k] < stop
    ensures start + |r| as real * step >= stop
  {
    if stop <= start then []
    else
      var x := (stop - start) / step;
      QuotientTimes(stop - start, step);
      var n := Ceil(x);
      StepsBelow(start, stop, step, x, n);
      seq(n, k => StepValue(start, step, k))
  }

  lemma QuotientTimes(a: real, b: real)
    requires b > 0.0
    ensures (a / b) * b == a
  {
  }

  /** Entry k of np.arange(start, stop, step). */
  function StepValue(start: real, step: real, k: int): real { start + k as real * step }

  /** With x steps from start to stop and n the least integer at or above x, n steps reach stop and fewer stay below it. */
  lemma StepsBelow(start: real, stop: real, step: real, x: real, n: int)
    requires step > 0.0 && x * step == stop - start && (n - 1) as real < x <= n as real
    ensures start + n as real * step >= stop
    ensures forall k: int :: 0 <= k < n ==> StepValue(start, step, k) < stop
  {
    StepBelow(x, n as real, step);
    forall k: int | 0 <= k < n
      ensures StepValue(start, step, k) < stop
    {
      StepBelow(k as real, x, step);
    }
  }

  lemma StepBelow(a: real, b: real, step: real)
    requires step > 0.0
    ensures a < b ==> a * step < b * step
    ensures a <= b ==> a * step <= b * step
  {
    assert (b - a) * step == b * step - a * step;
  }

  /** xs[xs <= bound]: the entries at most bound, in their order. */
  function KeepAtMost(xs: seq<real>, bound: real): (r: seq<real>)
    ensures |r| <= |xs|
    ensures forall i :: 0 <= i < |r| ==> r[i] <= bound
  {
    if xs == [] then []
    else if xs[0] <= bound then [xs[0]] + KeepAtMost(xs[1..], bound)
    else KeepAtMost(xs[1..], bound)
  }

  /** On an increasing sequence the filter keeps a prefix, and everything after it exceeds the bound. */
  lemma {:induction false} KeepAtMostPrefix(xs: seq<real>, bound: real)
    requires StrictlyIncreasing(xs)
    ensures KeepAtMost(xs, bound) == xs[..|KeepAtMost(xs, bound)|]
    ensures forall i :: |KeepAtMost(xs, bound)| <= i < |xs| ==> xs[i] > bound
  {
    if xs != [] {
      KeepAtMostPrefix(xs[1..], bound);
      var k := |KeepAtMost(xs[1..], bound)|;
      if xs[0] <= bound {
        assert KeepAtMost(xs, bound) == [xs[0]] + xs[1..][..k];
        assert [xs[0]] + xs[1..][..k] == xs[..k + 1];
      } else {
        assert forall i :: 1 <= i < |xs| ==> xs[i] == xs[1..][i - 1];
      }
    }
  }

  /** latitudeRange: every half degree from minLat, up to below maxLat + 0.5. */
  function LatitudeRange(minLat: real, maxLat: real): (r: seq<real>)
    ensures forall k :: 0 <= k < |r| ==> r[k] == minLat + k as real * 0.5 && r[k] < maxLat + 0.5
    ensures minLat + |r| as real * 0.5 >= maxLat + 0.5
  {
    Arange(minLat, maxLat + 0.5, 0.5)
  }

  /** longitudeRange: every 0.625 degree from minLon, cut to values at most maxLon. */
  function LongitudeRange(minLon: real, maxLon: real): seq<real>
  {
    KeepAtMost(Arange(minLon, maxLon + 0.625, 0.625), maxLon)
  }

  /** The longitudes are exactly the steps of 0.625 from minLon that do not pass maxLon. */
  lemma LongitudeRangeSteps(minLon: real, maxLon: real)
    ensures var r := LongitudeRange(minLon, maxLon);
            && (forall k :: 0 <= k < |r| ==> r[k] == minLon + k as real * 0.625 && r[k] <= maxLon)
            && minLon + |r| as real * 0.625 > maxLon
  {
    var xs := Arange(minLon, maxLon + 0.625, 0.625);
    assert StrictlyIncreasing(xs) by {
      forall i, j | 0 <= i < j < |xs|
        ensures xs[i] < xs[j]
      {
        assert i as real * 0.625 < j as real * 0.625;
      }
    }
    KeepAtMostPrefix(xs, maxLon);
    var k := |KeepAtMost(xs, maxLon)|;
    if k < |xs| {
      assert xs[k] > maxLon;
    }
  }

  /** Both ranges are increasing, so no value occurs twice. */
  lemma RangesIncreasing(minLon: real, maxLon: real, minLat: real, maxLat: real)
    ensures StrictlyIncreasing(LatitudeRange(minLat, maxLat))
    ensures StrictlyIncreasing(LongitudeRange(minLon, maxLon))
  {
    LongitudeRangeSteps(minLon, maxLon);
    var lats, lons := LatitudeRange(minLat, maxLat), LongitudeRange(minLon, maxLon);
    forall i, j | 0 <= i < j < |lats|
      ensures lats[i] < lats[j]
    {
      assert i as real * 0.5 < j as real * 0.5;
    }
    forall i, j | 0 <= i < j < |lons|
      ensures lons[i] < lons[j]
    {
      assert i as real * 0.625 < j as real * 0.625;
    }
  }

  // ----- nearest raster point -----

  /**
   * The first index of the least value of d: np.where(d == d.min())[0][0]. It holds a least
   * value, and no earlier entry is as small.
   */
  function FirstArgMin(d: seq<real>): (k: nat)
    requires |d| > 0
    ensures k < |d|
    ensures forall i :: 0 <= i < |d| ==> d[k] <= d[i]
    ensures forall i :: 0 <= i < k ==> d[i] > d[k]
    decreases |d|
  {
    if |d| == 1 then 0
    else
      var front := d[..|d| - 1];
      var k := FirstArgMin(front);
      assert forall i :: 0 <= i < |d| - 1 ==> front[i] == d[i];
      if d[|d| - 1] < d[k] then |d| - 1 else k
  }

  /** The distances |axis - x| of the whole axis. */
  function Distances(axis: seq<real>, x: real): (d: seq<real>)
    ensures |d| == |axis| && forall i :: 0 <= i < |axis| ==> d[i] == Abs(axis[i] - x)
  {
    seq(|axis|, i requires 0 <= i < |axis| => Abs(axis[i] - x))
  }

  /**
   * closestLatIndex / closestLonIndex: the first axis index nearest to x. It is a closest point
   * of the axis, and the first of them.
   */
  function Nearest(axis: seq<real>, x: real): (k: nat)
    requires |axis| > 0
    ensures k < |axis|
    ensures forall i :: 0 <= i < |axis| ==> Abs(axis[k] - x) <= Abs(axis[i] - x)
    ensures forall i :: 0 <= i < k ==> Abs(axis[i] - x) > Abs(axis[k] - x)
  {
    FirstArgMin(Distances(axis, x))
  }

  /** The condition on the ranges under which no .min() is taken over an empty raster axis. */
  predicate AxesUsed(r: Raster, lats: seq<real>, lons: seq<real>)
  {
    (|lats| > 0 ==> |r.lat| > 0) && (|lats| > 0 && |lons| > 0 ==> |r.lon| > 0)
  }

  /** The raster point nearest to (x, y) lies inside Band1. */
  predicate InBand(r: Raster, x: real, y: real)
    requires |r.lat| > 0 && |r.lon| > 0
  {
    var ci, cj := Nearest(r.lat, x), Nearest(r.lon, y);
    ci < |r.band| && cj < |r.band[ci]|
  }

  /** Every lon of the range, at latitude x, finds its raster point inside Band1. */
  predicate RowInBand(r: Raster, x: real, lons: seq<real>)
  {
    (|lons| > 0 ==> |r.lon| > 0) && forall j :: 0 <= j < |lons| ==> |r.lat| > 0 && |r.lon| > 0 && InBand(r, x, lons[j])
  }

  /** A longitude whose nearest raster point lies outside Band1 spoils its row. */
  lemma OutOfBandRow(r: Raster, x: real, lons: seq<real>, j: nat)
    requires j < |lons| && |r.lat| > 0 && |r.lon| > 0 && !InBand(r, x, lons[j])
    ensures !RowInBand(r, x, lons)
  {
  }

  /** Every cell of the ranges finds its raster point inside Band1. */
  predicate BandCovers(r: Raster, lats: seq<real>, lons: seq<real>)
  {
    forall i :: 0 <= i < |lats| ==> RowInBand(r, lats[i], lons)
  }

  /** The first k lats of the range pass RowInBand, as the loop over lat establishes them. */
  predicate RowsInBand(r: Raster, lats: seq<real>, lons: seq<real>, k: nat)
    requires k <= |lats|
  {
    k == 0 || (RowsInBand(r, lats, lons, k - 1) && RowInBand(r, lats[k - 1], lons))
  }

  /** RowsInBand over the whole range is BandCovers. */
  lemma {:induction false} RowsInBandCovers(r: Raster, lats: seq<real>, lons: seq<real>, k: nat)
    requires k <= |lats|
    ensures RowsInBand(r, lats, lons, k) <==> forall i :: 0 <= i < k ==> RowInBand(r, lats[i], lons)
  {
    if k > 0 {
      RowsInBandCovers(r, lats, lons, k - 1);
      assert RowsInBand(r, lats, lons, k) == (RowsInBand(r, lats, lons, k - 1) && RowInBand(r, lats[k - 1], lons));
    }
  }

  /** The raster marks (x, y): the nearest raster point holds 1. */
  predicate Hit(r: Raster, x: real, y: real)
    requires |r.lat| > 0 && |r.lon| > 0 && InBand(r, x, y)
  {
    r.band[Nearest(r.lat, x)][Nearest(r.lon, y)] == 1.0
  }

  /** Position p holds the first occurrence of its value. */
  predicate IsFirst(xs: seq<real>, p: nat)
    requires p < |xs|
  {
    FirstIndex(xs, xs[p]) == p
  }

  /**
   * Entry [lonIndex][latIndex] of the map generateBounds returns. The loop writes only at first
   * positions of values, so a repeated value leaves its later positions 0.
   */
  predicate Marked(r: Raster, lats: seq<real>, lons: seq<real>, p: nat, q: nat)
    requires p < |lons| && q < |lats|
  {
    && IsFirst(lons, p) && IsFirst(lats, q)
    && |r.lat| > 0 && |r.lon| > 0 && InBand(r, lats[q], lons[p]) && Hit(r, lats[q], lons[p])
  }

  /** Why generateBounds raises, if it does: the empty axis comes first, then an index outside Band1. */
  function BoundsFailure(r: Raster, lats: seq<real>, lons: seq<real>): (e: Option<BoundsError>)
    ensures e.None? <==> AxesUsed(r, lats, lons) && BandCovers(r, lats, lons)
  {
    if !AxesUsed(r, lats, lons) then Some(EmptyAxis)
    else if !BandCovers(r, lats, lons) then Some(BandIndexError)
    else None
  }

  /** Cells (p, q) of the (lon, lat) grid the loop has visited before lat i, lon j. */
  predicate Visited(i: nat, j: nat, p: nat, q: nat)
  {
    q < i || (q == i && p < j)
  }

  /** The grid once the loops have visited every cell before (lat i, lon j): 1 at the marked cells visited, 0 elsewhere. */
  ghost predicate PaintedTo(g: array2<real>, r: Raster, lats: seq<real>, lons: seq<real>, i: nat, j: nat)
    reads g
  {
    g.Length0 == |lons| && g.Length1 == |lats| &&
    forall p, q :: 0 <= p < |lons| && 0 <= q < |lats| ==>
      g[p, q] == if Visited(i, j, p, q) && Marked(r, lats, lons, p, q) then 1.0 else 0.0
  }

  /**
   * Visiting lat i, lon j writes cell (d, c) = (FirstIndex of lon j, FirstIndex of lat i): a cell
   * visited by then, marked exactly when the raster point holds 1. For every other cell, being
   * visited and marked is the same before and after this visit.
   */
  lemma VisitWrites(r: Raster, lats: seq<real>, lons: seq<real>, i: nat, j: nat, d: nat, c: nat)
    requires i < |lats| && j < |lons| && |r.lat| > 0 && |r.lon| > 0 && InBand(r, lats[i], lons[j])
    requires d == FirstIndex(lons, lons[j]) && c == FirstIndex(lats, lats[i])
    ensures d < |lons| && c < |lats| && Visited(i, j + 1, d, c)
    ensures Marked(r, lats, lons, d, c) <==> Hit(r, lats[i], lons[j])
    ensures forall p, q :: 0 <= p < |lons| && 0 <= q < |lats| && (p != d || q != c) ==>
              ((Visited(i, j + 1, p, q) && Marked(r, lats, lons, p, q))
               <==> (Visited(i, j, p, q) && Marked(r, lats, lons, p, q)))
  {
    assert Marked(r, lats, lons, j, i) ==> d == j && c == i;
  }

  /** One visit of the loop over lon: checks the raster point, then marks the cell if it holds 1. */
  method MarkCell(g: array2<real>, r: Raster, lats: seq<real>, lons: seq<real>, i: nat, j: nat)
    returns (e: Option<BoundsError>)
    requires i < |lats| && j < |lons| && |r.lat| > 0 && g.Length0 == |lons| && g.Length1 == |lats|
    requires PaintedTo(g, r, lats, lons, i, j)
    modifies g
    ensures e.None? ==> |r.lon| > 0 && InBand(r, lats[i], lons[j])
    ensures e.None? ==> PaintedTo(g, r, lats, lons, i, j + 1)
    ensures e == Some(EmptyAxis) ==> |r.lon| == 0
    ensures e == Some(BandIndexError) ==> |r.lon| > 0 && !InBand(r, lats[i], lons[j])
    ensures e.Some? ==> e == Some(EmptyAxis) || e == Some(BandIndexError)
  {
    if |r.lon| == 0 {
      return Some(EmptyAxis);
    }
    var ci, cj := Nearest(r.lat, lats[i]), Nearest(r.lon, lons[j]);
    if !(ci < |r.band| && cj < |r.band[ci]|) {
      return Some(BandIndexError);
    }
    var d, c := FirstIndex(lons, lons[j]), FirstIndex(lats, lats[i]);
    VisitWrites(r, lats, lons, i, j, d, c);
    if r.band[ci][cj] == 1.0 {
      g[d, c] := 1.0;
    }
    return None;
  }

  /** The loop over lon of one lat: marks column FirstIndex(lats, lats[i]), or finds why it cannot. */
  method MarkColumn(g: array2<real>, r: Raster, lats: seq<real>, lons: seq<real>, i: nat) returns (e: Option<BoundsError>)
    requires i < |lats| && |r.lat| > 0 && g.Length0 == |lons| && g.Length1 == |lats|
    requires PaintedTo(g, r, lats, lons, i, 0)
    modifies g
    ensures e.None? ==> RowInBand(r, lats[i], lons)
    ensures e.None? ==> PaintedTo(g, r, lats, lons, i + 1, 0)
    ensures e == Some(EmptyAxis) ==> |lons| > 0 && |r.lon| == 0
    ensures e == Some(BandIndexError) ==> |r.lon| > 0 && !RowInBand(r, lats[i], lons)
    ensures e.Some? ==> e == Some(EmptyAxis) || e == Some(BandIndexError)
  {
    for j := 0 to |lons|
      invariant j > 0 ==> |r.lon| > 0
      invariant forall j' :: 0 <= j' < j ==> |r.lon| > 0 && InBand(r, lats[i], lons[j'])
      invariant PaintedTo(g, r, lats, lons, i, j)
    {
      e := MarkCell(g, r, lats, lons, i, j);
      if e.Some? {
        if e == Some(BandIndexError) {
          OutOfBandRow(r, lats[i], lons, j);
        }
        return;
      }
    }
    assert forall p: nat, q: nat | p < |lons| :: Visited(i, |lons|, p, q) == Visited(i + 1, 0, p, q);
    return None;
  }

  /**
   * generateBounds(regionFile, latitudeRange, longitudeRange): a fresh (lon, lat) grid of zeros in
   * which each cell whose nearest raster point holds 1 is set to 1, lat by lat and lon by lon.
   */
  method GenerateBounds(r: Raster, lats: seq<real>, lons: seq<real>) returns (res: Result<array2<real>, BoundsError>)
    ensures res.Err? <==> BoundsFailure(r, lats, lons).Some?
    ensures res.Err? ==> res.error == BoundsFailure(r, lats, lons).value
    ensures res.Ok? ==> var g := res.value;
              && fresh(g) && g.Length0 == |lons| && g.Length1 == |lats|
              && forall p, q :: 0 <= p < |lons| && 0 <= q < |lats| ==>
                   g[p, q] == if Marked(r, lats, lons, p, q) then 1.0 else 0.0
  {
    var g := new real[|lons|, |lats|]((p, q) => 0.0);
    for i := 0 to |lats|
      invariant fresh(g) && g.Length0 == |lons| && g.Length1 == |lats|
      invariant i > 0 ==> |r.lat| > 0
      invariant RowsInBand(r, lats, lons, i)
      invariant PaintedTo(g, r, lats, lons, i, 0)
    {
      if |r.lat| == 0 {
        return Err(EmptyAxis);
      }
      var e := MarkColumn(g, r, lats, lons, i);
      if e.Some? {
        return Err(e.value);
      }
    }
    RowsInBandCovers(r, lats, lons, |lats|);
    assert |lats| > 0 ==> RowInBand(r, lats[0], lons);
    return Ok(g);
  }

  /** In the ranges main builds no value repeats, so a cell is marked exactly when the raster marks its point. */
  lemma MarkedOnRanges(r: Raster, minLon: real, maxLon: real, minLat: real, maxLat: real, p: nat, q: nat)
    requires p < |LongitudeRange(minLon, maxLon)| && q < |LatitudeRange(minLat, maxLat)|
    ensures var lats, lons := LatitudeRange(minLat, maxLat), LongitudeRange(minLon, maxLon);
            Marked(r, lats, lons, p, q) <==>
              |r.lat| > 0 && |r.lon| > 0 && InBand(r, lats[q], lons[p]) && Hit(r, lats[q], lons[p])
  {
    RangesIncreasing(minLon, maxLon, minLat, maxLat);
    FirstIndexOfDistinct(LatitudeRange(minLat, maxLat), q);
    FirstIndexOfDistinct(LongitudeRange(minLon, maxLon), p);
  }

  // ----- state mode: the maps of all state rasters, added -----

  /** The number of rasters among rs that mark cell (p, q). */
  function MarkCount(rs: seq<Raster>, lats: seq<real>, lons: seq<real>, p: nat, q: nat): nat
    requires p < |lons| && q < |lats|
  {
    if rs == [] then 0
    else MarkCount(rs[..|rs| - 1], lats, lons, p, q) + if Marked(rs[|rs| - 1], lats, lons, p, q) then 1 else 0
  }

  /** A cell counts at most one per state, and all of them exactly when every state marks it. */
  lemma {:induction false} MarkCountBound(rs: seq<Raster>, lats: seq<real>, lons: seq<real>, p: nat, q: nat)
    requires p < |lons| && q < |lats|
    ensures MarkCount(rs, lats, lons, p, q) <= |rs|
    ensures MarkCount(rs, lats, lons, p, q) == |rs| <==> forall k :: 0 <= k < |rs| ==> Marked(rs[k], lats, lons, p, q)
  {
    if rs != [] {
      var front := rs[..|rs| - 1];
      MarkCountBound(front, lats, lons, p, q);
      assert forall k :: 0 <= k < |rs| - 1 ==> front[k] == rs[k];
    }
  }

  /** The exception of the first raster in rs whose generateBounds raises. */
  function FirstFailure(rs: seq<Raster>, lats: seq<real>, lons: seq<real>): (e: Option<BoundsError>)
    ensures e.Some? ==> exists k :: 0 <= k < |rs| && e == BoundsFailure(rs[k], lats, lons)
  {
    if rs == [] then None
    else
      var f := FirstFailure(rs[..|rs| - 1], lats, lons);
      if f.Some? then f else BoundsFailure(rs[|rs| - 1], lats, lons)
  }

  /** FirstFailure finds a failure exactly when some raster fails. */
  lemma {:induction false} FirstFailureNone(rs: seq<Raster>, lats: seq<real>, lons: seq<real>)
    ensures FirstFailure(rs, lats, lons).None? <==> forall k :: 0 <= k < |rs| ==> BoundsFailure(rs[k], lats, lons).None?
  {
    if rs != [] {
      var front := rs[..|rs| - 1];
      FirstFailureNone(front, lats, lons);
      assert forall k :: 0 <= k < |rs| - 1 ==> front[k] == rs[k];
    }
  }

  /** The failure FirstFailure finds is that of a raster all of whose predecessors succeed. */
  lemma {:induction false} FirstFailureIsFirst(rs: seq<Raster>, lats: seq<real>, lons: seq<real>)
    requires FirstFailure(rs, lats, lons).Some?
    ensures exists k :: 0 <= k < |rs| && FirstFailure(rs, lats, lons) == BoundsFailure(rs[k], lats, lons)
                        && forall k' :: 0 <= k' < k ==> BoundsFailure(rs[k'], lats, lons).None?
  {
    var front := rs[..|rs| - 1];
    assert forall k :: 0 <= k < |rs| - 1 ==> front[k] == rs[k];
    if FirstFailure(front, lats, lons).Some? {
      FirstFailureIsFirst(front, lats, lons);
      var k :| 0 <= k < |front| && FirstFailure(front, lats, lons) == BoundsFailure(front[k], lats, lons)
               && forall k' :: 0 <= k' < k ==> BoundsFailure(front[k'], lats, lons).None?;
      assert FirstFailure(rs, lats, lons) == BoundsFailure(rs[k], lats, lons);
    } else {
      FirstFailureNone(front, lats, lons);
    }
  }

  /** Once a prefix of the rasters fails, the whole sequence fails in the same way. */
  lemma {:induction false} FirstFailureStops(rs: seq<Raster>, k: nat, lats: seq<real>, lons: seq<real>)
    requires k <= |rs| && FirstFailure(rs[..k], lats, lons).Some?
    ensures FirstFailure(rs, lats, lons) == FirstFailure(rs[..k], lats, lons)
    decreases |rs| - k
  {
    if k < |rs| {
      assert rs[..k + 1][..k] == rs[..k];
      FirstFailureStops(rs, k + 1, lats, lons);
    } else {
      assert rs[..k] == rs;
    }
  }

  /** regionArray += g, cell by cell. */
  method AddInto(acc: array2<real>, g: array2<real>)
    requires acc != g && g.Length0 == acc.Length0 && g.Length1 == acc.Length1
    modifies acc
    ensures forall p, q :: 0 <= p < acc.Length0 && 0 <= q < acc.Length1 ==> acc[p, q] == old(acc[p, q]) + g[p, q]
  {
    for p := 0 to acc.Length0
      invariant forall p', q :: 0 <= p' < p && 0 <= q < acc.Length1 ==> acc[p', q] == old(acc[p', q]) + g[p', q]
      invariant forall p', q :: p <= p' < acc.Length0 && 0 <= q < acc.Length1 ==> acc[p', q] == old(acc[p', q])
    {
      for q := 0 to acc.Length1
        invariant forall p', q' :: 0 <= p' < p && 0 <= q' < acc.Length1 ==> acc[p', q'] == old(acc[p', q']) + g[p', q']
        invariant forall q' :: 0 <= q' < q ==> acc[p, q'] == old(acc[p, q']) + g[p, q']
        invariant forall p', q' :: p < p' < acc.Length0 && 0 <= q' < acc.Length1 ==> acc[p', q'] == old(acc[p', q'])
        invariant forall q' :: q <= q' < acc.Length1 ==> acc[p, q'] == old(acc[p, q'])
      {
        acc[p, q] := acc[p, q] + g[p, q];
      }
    }
  }

  /**
   * The loop over the state files: a zero grid to which each state's map is added, so that every
   * cell counts the states marking it. The first state whose map cannot be built ends the loop.
   */
  method StateBounds(rs: seq<Raster>, lats: seq<real>, lons: seq<real>) returns (res: Result<array2<real>, BoundsError>)
    ensures res.Err? <==> FirstFailure(rs, lats, lons).Some?
    ensures res.Err? ==> res.error == FirstFailure(rs, lats, lons).value
    ensures res.Ok? ==> var acc := res.value;
              && fresh(acc) && acc.Length0 == |lons| && acc.Length1 == |lats|
              && forall p, q :: 0 <= p < |lons| && 0 <= q < |lats| ==> acc[p, q] == MarkCount(rs, lats, lons, p, q) as real
  {
    var acc := new real[|lons|, |lats|]((p, q) => 0.0);
    for k := 0 to |rs|
      invariant fresh(acc) && acc.Length0 == |lons| && acc.Length1 == |lats|
      invariant FirstFailure(rs[..k], lats, lons).None?
      invariant forall p, q :: 0 <= p < |lons| && 0 <= q < |lats| ==> acc[p, q] == MarkCount(rs[..k], lats, lons, p, q) as real
    {
      assert rs[..k + 1][..k] == rs[..k];
      var g := GenerateBounds(rs[k], lats, lons);
      if g.Err? {
        FirstFailureStops(rs, k + 1, lats, lons);
        return Err(g.error);
      }
      AddInto(acc, g.value);
    }
    assert rs[..|rs|] == rs;
    return Ok(acc);
  }

  /** pd.DataFrame(regionArray).T: one row per latitude, one column per longitude. */
  function Transposed(g: array2<real>): (t: seq<seq<real>>)
    reads g
    ensures |t| == g.Length1
    ensures forall q :: 0 <= q < |t| ==> |t[q]| == g.Length0 && forall p :: 0 <= p < g.Length0 ==> t[q][p] == g[p, q]
  {
    seq(g.Length1, q requires 0 <= q < g.Length1 reads g => seq(g.Length0, p requires 0 <= p < g.Length0 reads g => g[p, q]))
  }

  /**
   * main(minLon, maxLon, minLat, maxLat, implementStateBounds): the ranges, the map of the state
   * rasters (in the order the folder lists them) or of the offshore raster, transposed to lat rows
   * and lon columns for the spreadsheet.
   */
  method RegionTable(minLon: real, maxLon: real, minLat: real, maxLat: real, implementStateBounds: bool,
                     stateRasters: seq<Raster>, offshore: Raster)
    returns (res: Result<seq<seq<real>>, BoundsError>)
    ensures var lats, lons := LatitudeRange(minLat, maxLat), LongitudeRange(minLon, maxLon);
            var failure := if implementStateBounds then FirstFailure(stateRasters, lats, lons)
                           else BoundsFailure(offshore, lats, lons);
            && (res.Err? <==> failure.Some?)
            && (res.Err? ==> res.error == failure.value)
            && (res.Ok? ==> && |res.value| == |lats|
                            && forall q :: 0 <= q < |lats| ==>
                                 (&& |res.value[q]| == |lons|
                                  && forall p :: 0 <= p < |lons| ==>
                                       res.value[q][p] == if implementStateBounds then MarkCount(stateRasters, lats, lons, p, q) as real
                                                          else if Marked(offshore, lats, lons, p, q) then 1.0 else 0.0))
  {
    var lats := LatitudeRange(minLat, maxLat);
    var lons := LongitudeRange(minLon, maxLon);
    var g;
    if implementStateBounds {
      g := StateBounds(stateRasters, lats, lons);
    } else {
      g := GenerateBounds(offshore, lats, lons);
    }
    if g.Err? {
      return Err(g.error);
    }
    return Ok(Transposed(g.value));
  }
}
