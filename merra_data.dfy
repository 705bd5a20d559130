/**
 * The in-memory shapes the scripts pass around: three-dimensional netCDF variables read into
 * arrays, Python's negative indexing, and the fill value netCDF reports for cells never written.
 */
module MerraData {
  import opened Wrappers

  /**
   * A three-dimensional variable: its shape (n0, n1, n2) and its values, cells[a][b][c].
   * A daily MERRA variable is (time, lat, lon); a combined one is (lat, lon, time).
   */
  datatype Var3 = Var3(n0: nat, n1: nat, n2: nat, cells: seq<seq<seq<real>>>)

  predicate WellFormed(x: Var3)
  {
    && |x.cells| == x.n0
    && (forall a :: 0 <= a < x.n0 ==> |x.cells[a]| == x.n1)
    && (forall a, b :: 0 <= a < x.n0 && 0 <= b < x.n1 ==> |x.cells[a][b]| == x.n2)
  }

  predicate HasShape(x: Var3, n0: nat, n1: nat, n2: nat)
  {
    WellFormed(x) && x.n0 == n0 && x.n1 == n1 && x.n2 == n2
  }

  /** The cell x[a, b, c] of a well-formed variable. */
  function At(x: Var3, a: nat, b: nat, c: nat): real
    requires WellFormed(x) && a < x.n0 && b < x.n1 && c < x.n2
  {
    x.cells[a][b][c]
  }

  /** An opened daily netCDF file: its coordinate variables and its data variables by name. */
  datatype MerraFile = MerraFile(lat: seq<real>, lon: seq<real>, variables: map<string, Var3>)

  predicate ValidFile(f: MerraFile)
  {
    forall v :: v in f.variables ==> WellFormed(f.variables[v])
  }

  predicate ContentsValid(contents: map<string, MerraFile>)
  {
    forall f :: f in contents ==> ValidFile(contents[f])
  }

  /** netCDF's default fill value for a double variable: what a cell reads as before any write. */
  const DefaultFillDouble: real := 9969209968386869000000000000000000000.0

  /** A variable just created by createVariable: every cell reads as the fill value. */
  function Unwritten(n0: nat, n1: nat, n2: nat): (x: Var3)
    ensures HasShape(x, n0, n1, n2)
    ensures forall a, b, c :: 0 <= a < n0 && 0 <= b < n1 && 0 <= c < n2 ==>
              x.cells[a][b][c] == DefaultFillDouble
  {
    Var3(n0, n1, n2, seq(n0, a => seq(n1, b => seq(n2, c => DefaultFillDouble))))
  }

  /** Python's x[i] on a sequence of length n: negative indices count from the end. */
  function PyIndex(i: int, n: nat): (r: Option<nat>)
    ensures r.Some? <==> -(n as int) <= i < n
    ensures r.Some? ==> r.value < n && (r.value == i || r.value == n + i)
  {
    if 0 <= i < n then Some(i) else if -(n as int) <= i < 0 then Some(n + i) else None
  }

  /**
   * Position read along an axis of length n when it is broadcast against a longer axis:
   * an axis of length 1 is stretched, so every position reads its only element.
   */
  function Bcast(n: nat, i: nat): nat
  {
    if n == 1 then 0 else i
  }

  /** Row-major position of (i, j) when rows of n entries are laid end to end: i * n + j. */
  function FlatIndex(i: nat, j: nat, n: nat): nat { i * n + j }

  lemma {:induction false} MulMonotone(a: nat, b: nat, n: nat)
    requires a <= b
    ensures a * n <= b * n
    decreases b - a
  {
    if a < b {
      MulMonotone(a, b - 1, n);
      assert (b - 1) * n + n == b * n;
    }
  }

  /** The flat position gives back its row and column: k / n and k % n. */
  lemma FlatIndexInverse(i: nat, j: nat, n: nat)
    requires j < n
    ensures FlatIndex(i, j, n) / n == i && FlatIndex(i, j, n) % n == j
  {
    var k := FlatIndex(i, j, n);
    var q, r := k / n, k % n;
    assert k == q * n + r;
    if q > i {
      assert (i + 1) * n == i * n + n;
      MulMonotone(i + 1, q, n);
    } else if q < i {
      assert (q + 1) * n == q * n + n;
      MulMonotone(q + 1, i, n);
    }
  }

  /** Positions of an m by n grid fill exactly the range [0, m * n). */
  lemma FlatIndexRange(i: nat, j: nat, m: nat, n: nat)
    requires i < m && j < n
    ensures FlatIndex(i, j, n) < m * n
  {
    MulMonotone(i + 1, m, n);
    assert (i + 1) * n == i * n + n;
  }

  lemma FlatIndexSplit(k: nat, m: nat, n: nat)
    requires k < m * n
    ensures n > 0 && 0 <= k / n < m && 0 <= k % n < n && FlatIndex(k / n, k % n, n) == k
  {
    assert n > 0;
    if k / n >= m {
      MulMonotone(m, k / n, n);
    }
  }

  /** Distinct cells of a grid have distinct flat positions. */
  lemma FlatIndexInjective(i: nat, j: nat, i': nat, j': nat, n: nat)
    requires j < n && j' < n && FlatIndex(i, j, n) == FlatIndex(i', j', n)
    ensures i == i' && j == j'
  {
    FlatIndexInverse(i, j, n);
    FlatIndexInverse(i', j', n);
  }

  /** Two variables of the same shape that agree on every cell are the same variable. */
  lemma Var3Equal(x: Var3, y: Var3)
    requires WellFormed(x) && WellFormed(y) && x.n0 == y.n0 && x.n1 == y.n1 && x.n2 == y.n2
    requires forall a, b, c :: 0 <= a < x.n0 && 0 <= b < x.n1 && 0 <= c < x.n2 ==> x.cells[a][b][c] == y.cells[a][b][c]
    ensures x == y
  {
    forall a | 0 <= a < x.n0 ensures x.cells[a] == y.cells[a] {
      forall b | 0 <= b < x.n1 ensures x.cells[a][b] == y.cells[a][b] {
        assert forall c :: 0 <= c < x.n2 ==> x.cells[a][b][c] == y.cells[a][b][c];
      }
    }
    assert x.cells == y.cells;
  }
}
