/** The index transform between DMD mirror space and the rectangular
    "real-space" buffer, and the partition of the real buffer into pixels a
    mirror maps to and background pixels. */
module Mapping {
  import opened Grid
  import opened Validation

  /** Device geometry: mirror rows and columns of the DMD. */
  datatype Geometry = Geometry(rows: int, cols: int)

  /** The device the program is configured for. */
  const DMD: Geometry := Geometry(1140, 912)

  /** The configured orientation: frames flip the DMD rows unless told
      otherwise. */
  const DmdFlip: bool := true

  predicate ValidGeometry(g: Geometry) { g.rows >= 1 && g.cols >= 1 }

  /** `real_nrows = ceil((rows - 1) / 2) + cols`; for every integer n,
      ceil(n / 2) is floor((n + 1) / 2), which is Dafny's `(n + 1) / 2`. */
  function RealRows(g: Geometry): int { g.rows / 2 + g.cols }

  /** `real_ncols = cols + (rows - 1) // 2`. */
  function RealCols(g: Geometry): int { g.cols + (g.rows - 1) / 2 }

  /** The configured device uses a 1482 x 1481 real-space buffer. */
  lemma DmdRealSize()
    ensures RealRows(DMD) == 1482 && RealCols(DMD) == 1481
  {
  }

  predicate InMirror(g: Geometry, m: Point) { 0 <= m.0 < g.rows && 0 <= m.1 < g.cols }

  predicate InReal(g: Geometry, p: Point) { 0 <= p.0 < RealRows(g) && 0 <= p.1 < RealCols(g) }

  /** Mirror (row, col) to real-space (row, col). The flipped variant mirrors
      the DMD rows first. */
  function RealSpace(g: Geometry, flip: bool, row: int, col: int): (p: Point)
    ensures InMirror(g, (row, col)) ==> InReal(g, p)
    // the anti-diagonal of the real pixel fixes the mirror row
    ensures !flip ==> p.0 + p.1 == row + g.cols - 1
    ensures flip ==> p.0 + p.1 == (g.rows - 1 - row) + g.cols - 1
  {
    var r := if flip then g.rows - 1 - row else row;
    ((r + 1) / 2 + col, g.cols - 1 + r / 2 - col)
  }

  /** The inverse transform: the mirror a real-space pixel comes from. */
  function MirrorOf(g: Geometry, flip: bool, p: Point): Point
  {
    var r := p.0 + p.1 - g.cols + 1;
    (if flip then g.rows - 1 - r else r, p.0 - (r + 1) / 2)
  }

  lemma HalvesAdd(r: int)
    ensures (r + 1) / 2 + r / 2 == r
  {
  }

  /** MirrorOf undoes RealSpace for every mirror index. */
  lemma RealSpaceRoundTrip(g: Geometry, flip: bool, row: int, col: int)
    ensures MirrorOf(g, flip, RealSpace(g, flip, row, col)) == (row, col)
  {
    var r := if flip then g.rows - 1 - row else row;
    HalvesAdd(r);
  }

  /** RealSpace undoes MirrorOf for every real-space pixel. */
  lemma MirrorOfRoundTrip(g: Geometry, flip: bool, p: Point)
    ensures RealSpace(g, flip, MirrorOf(g, flip, p).0, MirrorOf(g, flip, p).1) == p
  {
    HalvesAdd(p.0 + p.1 - g.cols + 1);
  }

  /** No two mirrors share a real-space pixel. */
  lemma RealSpaceInjective(g: Geometry, flip: bool, a: Point, b: Point)
    requires RealSpace(g, flip, a.0, a.1) == RealSpace(g, flip, b.0, b.1)
    ensures a == b
  {
    RealSpaceRoundTrip(g, flip, a.0, a.1);
    RealSpaceRoundTrip(g, flip, b.0, b.1);
  }

  /** `realSpace(row.flatten(), col.flatten())` over the meshgrid of all
      mirrors: the images of mirror row 0, then of row 1, and so on, so that
      entry k is the image of mirror (k / cols, k % cols) (Frame's
      `dmd_rows, dmd_cols`). */
  function Mapped(g: Geometry, flip: bool): (s: seq<Point>)
    requires ValidGeometry(g)
    ensures |s| == g.rows * g.cols
    ensures forall k :: 0 <= k < |s| ==> InReal(g, s[k])
    ensures Distinct(s)
  {
    var s := MappedRows(g, flip, g.rows);
    forall k | 0 <= k < |s| ensures s[k] == RealSpace(g, flip, k / g.cols, k % g.cols) && InReal(g, s[k]) {
      FlatIndexBounds(k, g.cols, g.rows);
      RowMajorEntry(g, flip, g.rows, k);
    }
    forall a, b | 0 <= a < b < |s| ensures s[a] != s[b] {
      if s[a] == s[b] {
        RealSpaceInjective(g, flip, (a / g.cols, a % g.cols), (b / g.cols, b % g.cols));
        FlatIndexInjective(a, b, g.cols);
      }
    }
    s
  }

  /** The images of mirror rows 0 .. n - 1, row after row, each row from
      column 0 to column cols - 1. */
  function MappedRows(g: Geometry, flip: bool, n: nat): (s: seq<Point>)
    requires g.cols >= 1
    ensures |s| == n * g.cols
    decreases n
  {
    if n == 0 then []
    else
      var init := MappedRows(g, flip, n - 1);
      assert (n - 1) * g.cols + g.cols == n * g.cols;
      init + seq(g.cols, c => RealSpace(g, flip, n - 1, c))
  }

  /** Mirror (r, c) of the first n rows sits at position r * cols + c. */
  lemma {:induction false} MappedRowsAt(g: Geometry, flip: bool, n: nat, r: int, c: int)
    requires g.cols >= 1 && 0 <= r < n && 0 <= c < g.cols
    ensures 0 <= r * g.cols + c < |MappedRows(g, flip, n)|
    ensures MappedRows(g, flip, n)[r * g.cols + c] == RealSpace(g, flip, r, c)
    decreases n
  {
    RowMajorBound(r, c, g.cols, n);
    var init := MappedRows(g, flip, n - 1);
    assert MappedRows(g, flip, n) == init + seq(g.cols, c => RealSpace(g, flip, n - 1, c));
    if r == n - 1 {
      assert r * g.cols + c == |init| + c;
    } else {
      MappedRowsAt(g, flip, n - 1, r, c);
    }
  }

  /** Entry k of the first n rows is the image of mirror (k / cols, k % cols). */
  lemma RowMajorEntry(g: Geometry, flip: bool, n: nat, k: int)
    requires g.cols >= 1 && 0 <= k < |MappedRows(g, flip, n)|
    ensures MappedRows(g, flip, n)[k] == RealSpace(g, flip, k / g.cols, k % g.cols)
  {
    var r, c := k / g.cols, k % g.cols;
    FlatIndexBounds(k, g.cols, n);
    FlatIndexSplit(k, g.cols);
    MappedRowsAt(g, flip, n, r, c);
  }

  /** The image of mirror (r, c) sits at flat position r * cols + c, which is
      what reshaping to (rows, cols) relies on. */
  lemma MappedAt(g: Geometry, flip: bool, r: int, c: int)
    requires ValidGeometry(g) && InMirror(g, (r, c))
    ensures 0 <= r * g.cols + c < |Mapped(g, flip)|
    ensures Mapped(g, flip)[r * g.cols + c] == RealSpace(g, flip, r, c)
  {
    MappedRowsAt(g, flip, g.rows, r, c);
  }

  /** A real pixel is mapped exactly when the mirror it comes from exists. */
  lemma {:induction false} MappedMembership(g: Geometry, flip: bool, p: Point)
    requires ValidGeometry(g)
    ensures p in Mapped(g, flip) <==> InMirror(g, MirrorOf(g, flip, p))
  {
    var s := Mapped(g, flip);
    var m := MirrorOf(g, flip, p);
    if p in s {
      var k :| 0 <= k < |s| && s[k] == p;
      FlatIndexBounds(k, g.cols, g.rows);
      RowMajorEntry(g, flip, g.rows, k);
      RealSpaceRoundTrip(g, flip, k / g.cols, k % g.cols);
    }
    if InMirror(g, m) {
      MirrorOfRoundTrip(g, flip, p);
      MappedAt(g, flip, m.0, m.1);
    }
  }


  /** The real-space meshgrid flattened in row-major order. */
  function RealIndices(g: Geometry): (s: seq<Point>)
    requires ValidGeometry(g)
    ensures |s| == RealRows(g) * RealCols(g)
    ensures Distinct(s)
    ensures forall p :: p in s <==> InReal(g, p)
  {
    GridPoints(RealRows(g), RealCols(g))
  }

  /** `np.meshgrid(np.arange(m), np.arange(n), indexing='ij')`, both
      flattened: point k is (k // n, k % n). */
  function GridPoints(m: int, n: int): (s: seq<Point>)
    requires m >= 0 && n > 0
    ensures |s| == m * n
    ensures Distinct(s)
    ensures forall p :: p in s <==> 0 <= p.0 < m && 0 <= p.1 < n
  {
    MulMonotone(0, m, n);
    var s := seq(m * n, k => (k / n, k % n));
    RowMajorGrid(s, m, n);
    s
  }


  /** The flattened meshgrid of an m x n grid lists every cell once. */
  lemma RowMajorGrid(s: seq<Point>, m: int, n: int)
    requires n > 0 && |s| == m * n
    requires forall k :: 0 <= k < |s| ==> s[k] == (k / n, k % n)
    ensures Distinct(s)
    ensures forall p :: p in s <==> 0 <= p.0 < m && 0 <= p.1 < n
  {
    forall a, b | 0 <= a < b < |s| ensures s[a] != s[b] {
      if s[a] == s[b] { FlatIndexInjective(a, b, n); }
    }
    forall p: Point | p in s ensures 0 <= p.0 < m && 0 <= p.1 < n {
      var k :| 0 <= k < |s| && s[k] == p;
      FlatIndexBounds(k, n, m);
    }
    forall p: Point | 0 <= p.0 < m && 0 <= p.1 < n ensures p in s {
      RowMajorBound(p.0, p.1, n, m);
      RowMajorIndex(p.0, p.1, n);
      assert s[p.0 * n + p.1] == p;
    }
  }

  /** `real_row[mask], real_col[mask]`: the real pixels no mirror maps to,
      in row-major order (Frame's `bg_rows, bg_cols`). */
  function Background(g: Geometry, flip: bool): (s: seq<Point>)
    requires ValidGeometry(g)
    ensures Distinct(s)
    ensures forall p :: p in s <==> InReal(g, p) && p !in Mapped(g, flip)
    ensures forall k :: 0 <= k < |s| ==> InReal(g, s[k])
  {
    var mapped := Mapped(g, flip);
    var s := Filter(RealIndices(g), p => p !in mapped);
    assert forall k :: 0 <= k < |s| ==> s[k] in s;
    s
  }

  /** Mapped and background pixels tile the real buffer: their counts add
      up to real_nrows * real_ncols. */
  lemma PartitionComplete(g: Geometry, flip: bool)
    requires ValidGeometry(g)
    ensures |Background(g, flip)| + |Mapped(g, flip)| == RealRows(g) * RealCols(g)
  {
    var grid, mapped, bg := RealIndices(g), Mapped(g, flip), Background(g, flip);
    DistinctCardinality(grid);
    DistinctCardinality(mapped);
    DistinctCardinality(bg);
    var S, I, B := Elements(grid), Elements(mapped), Elements(bg);
    assert I <= S;
    assert B == S - I;
    assert S == B + I && B * I == {};
  }

  /** The constructor's final check: it never raises, for any geometry and
      either orientation. */
  function ConstructionCheck(g: Geometry, flip: bool): (res: Outcome)
    requires ValidGeometry(g)
    ensures res == Pass
  {
    PartitionComplete(g, flip);
    if |Background(g, flip)| + |Mapped(g, flip)| != RealRows(g) * RealCols(g) then
      Fail(ValueError("Number of pixels in the DMD image does not match the number of pixels in the real space image"))
    else Pass
  }
}
