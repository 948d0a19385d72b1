/** The integer pattern primitives of the painter: each one lists the
    pixels of a shape on an nrows x ncols grid as a numpy coordinate array,
    and the array-of-shapes patterns join such arrays with np.concatenate. */
module Painters {
  import opened Grid
  import opened Validation

  /** A painter for a grid of nrows x ncols pixels. */
  datatype Painter = Painter(nrows: int, ncols: int)

  predicate OnGrid(p: Painter, q: Point) { 0 <= q.0 < p.nrows && 0 <= q.1 < p.ncols }

  /** `nrows // 2` and `ncols // 2`: Python floors, as Dafny's `/` by 2 does. */
  function CenterRow(p: Painter): int { p.nrows / 2 }

  function CenterCol(p: Painter): int { p.ncols / 2 }

  function Abs(x: int): int { if x < 0 then -x else x }

  function Max(a: int, b: int): int { if a < b then b else a }

  function Min(a: int, b: int): int { if a < b then a else b }

  function SquaredDistance(q: Point, c: Point): int
  {
    (q.0 - c.0) * (q.0 - c.0) + (q.1 - c.1) * (q.1 - c.1)
  }

  /** numpy's `//` on integer arrays: floor division, and 0 for a zero
      divisor (numpy warns instead of raising). */
  function FloorDiv(a: int, b: int): (q: int)
    ensures b > 0 ==> q * b <= a < q * b + b
    ensures b < 0 ==> q * b >= a > q * b + b
    ensures b == 0 ==> q == 0
  {
    if b > 0 then a / b
    else if b < 0 then
      var q := (-a) / (-b);
      assert q * (-b) <= -a < q * (-b) + (-b);
      q
    else 0
  }

  // ---------------------------------------------------------------------
  // np.concatenate
  // ---------------------------------------------------------------------

  const NothingToConcatenate: Error := ValueError("need at least one array to concatenate")
  const DimensionMismatch: Error := ValueError("all the input arrays must have same number of dimensions")

  /** Every point of a list of coordinate arrays, in order. */
  function Flatten(arrs: seq<CoordArray>): seq<Point>
    decreases |arrs|
  {
    if arrs == [] then [] else Flatten(arrs[..|arrs| - 1]) + PointsOf(arrs[|arrs| - 1])
  }

  /** A point is in the flattening exactly when one of the arrays lists it. */
  lemma {:induction false} FlattenMembers(arrs: seq<CoordArray>, q: Point)
    ensures q in Flatten(arrs) <==> exists a :: a in arrs && q in PointsOf(a)
    decreases |arrs|
  {
    if arrs != [] {
      var init, last := arrs[..|arrs| - 1], arrs[|arrs| - 1];
      assert arrs == init + [last];
      FlattenMembers(init, q);
    }
  }

  /** The same, by position. */
  lemma {:induction false} FlattenIndexed(arrs: seq<CoordArray>, q: Point)
    ensures q in Flatten(arrs) <==> exists k :: 0 <= k < |arrs| && q in PointsOf(arrs[k])
  {
    FlattenMembers(arrs, q);
    if q in Flatten(arrs) {
      var a :| a in arrs && q in PointsOf(a);
      var k :| 0 <= k < |arrs| && arrs[k] == a;
    }
    if exists k :: 0 <= k < |arrs| && q in PointsOf(arrs[k]) {
      var k :| 0 <= k < |arrs| && q in PointsOf(arrs[k]);
      assert arrs[k] in arrs;
    }
  }

  /** The flattening is empty exactly when every array is. */
  lemma {:induction false} FlattenEmpty(arrs: seq<CoordArray>)
    ensures Flatten(arrs) == [] <==> forall k :: 0 <= k < |arrs| ==> Empty(arrs[k])
    decreases |arrs|
  {
    if arrs != [] {
      var init, last := arrs[..|arrs| - 1], arrs[|arrs| - 1];
      FlattenEmpty(init);
      var f, g := Flatten(init), PointsOf(last);
      assert Flatten(arrs) == f + g;
      assert |f + g| == |f| + |g|;
      assert Flatten(arrs) == [] <==> f == [] && g == [];
      AllEmptySplit(arrs, init);
    }
  }

  /** Every array is empty exactly when all but the last are and the last is. */
  lemma AllEmptySplit(arrs: seq<CoordArray>, init: seq<CoordArray>)
    requires arrs != [] && init == arrs[..|arrs| - 1]
    ensures (forall k :: 0 <= k < |arrs| ==> Empty(arrs[k])) <==>
            (forall k :: 0 <= k < |init| ==> Empty(init[k])) && Empty(arrs[|arrs| - 1])
  {
    assert forall k :: 0 <= k < |init| ==> init[k] == arrs[k];
  }



  /** `np.concatenate(arrs, axis=0)`: the arrays must all have the
      one-dimensional shape (0,) or all the shape (N, 2). */
  function Concatenate(arrs: seq<CoordArray>): (res: Result<CoordArray>)
    ensures res.Success? <==>
              arrs != [] && ((forall k :: 0 <= k < |arrs| ==> arrs[k].Flat?) ||
                             (forall k :: 0 <= k < |arrs| ==> arrs[k].Table?))
    ensures res.Success? ==> PointsOf(res.value) == Flatten(arrs) && (res.value.Flat? <==> arrs[0].Flat?)
    ensures arrs == [] ==> res == Failure(NothingToConcatenate)
  {
    if arrs == [] then Failure(NothingToConcatenate)
    else if forall k :: 0 <= k < |arrs| ==> arrs[k].Flat? then
      FlattenEmpty(arrs);
      Success(Flat)
    else if forall k :: 0 <= k < |arrs| ==> arrs[k].Table? then Success(Table(Flatten(arrs)))
    else Failure(DimensionMismatch)
  }

  /** `shape[0] == 0`: the array lists no point. */
  predicate Empty(a: CoordArray) { PointsOf(a) == [] }

  /** What the array-of-shapes loops compute: the shapes that are not empty,
      joined; when every shape is empty nothing is left to concatenate. */
  function Gather(shapes: seq<CoordArray>): (res: Result<CoordArray>)
    ensures res.Success? <==> exists k :: 0 <= k < |shapes| && !Empty(shapes[k])
    ensures res.Failure? ==> res.error == NothingToConcatenate
    ensures res.Success? ==> res.value.Table?
  {
    FlattenEmpty(shapes);
    if Flatten(shapes) == [] then Failure(NothingToConcatenate) else Success(Table(Flatten(shapes)))
  }

  /** The shapes an array-of-shapes loop keeps, in order: `if
      new.shape[0] != 0: corr.append(new)`. */
  function NonEmpty(shapes: seq<CoordArray>): (kept: seq<CoordArray>)
    ensures forall k :: 0 <= k < |kept| ==> kept[k].Table? && kept[k].points != []
    ensures Flatten(kept) == Flatten(shapes)
    decreases |shapes|
  {
    if shapes == [] then []
    else
      var init, last := shapes[..|shapes| - 1], shapes[|shapes| - 1];
      var kept := NonEmpty(init);
      if Empty(last) then kept
      else
        assert (kept + [last])[..|kept|] == kept;
        kept + [last]
  }

  lemma {:induction false} NonEmptySnoc(shapes: seq<CoordArray>, shape: CoordArray)
    ensures NonEmpty(shapes + [shape]) == if Empty(shape) then NonEmpty(shapes) else NonEmpty(shapes) + [shape]
  {
    assert (shapes + [shape])[..|shapes|] == shapes;
  }

  /** Concatenating the kept shapes is Gather of all of them. */
  lemma {:induction false} NonEmptyGather(shapes: seq<CoordArray>)
    ensures Concatenate(NonEmpty(shapes)) == Gather(shapes)
  {
    var kept := NonEmpty(shapes);
    FlattenEmpty(kept);
    FlattenEmpty(shapes);
  }

  // ---------------------------------------------------------------------
  // Single shapes
  // ---------------------------------------------------------------------

  lemma SquareGrows(x: int, r: int)
    requires 0 <= r < x
    ensures r * r < x * x
  {
    MulMonotone(r, x, r);
    MulMonotone(r, x - 1, x);
  }

  lemma SquareNonNegative(x: int)
    ensures x * x >= 0
  {
    if x >= 0 { MulMonotone(0, x, x); } else { MulMonotone(0, -x, -x); }
  }

  /** A point within distance r of a centre lies in the box of half side r
      around it. */
  /** The bounding box drawCircle scans holds every pixel of the disc. */
  lemma CircleWindow(p: Painter, c: Point, radius: int, q: Point)
    ensures (radius >= 0 && OnGrid(p, q) && SquaredDistance(q, c) <= radius * radius) <==>
            (Max(0, c.0 - radius) <= q.0 < Min(c.0 + radius + 1, p.nrows) &&
             Max(0, c.1 - radius) <= q.1 < Min(c.1 + radius + 1, p.ncols) &&
             SquaredDistance(q, c) <= radius * radius)
  {
    if radius >= 0 && SquaredDistance(q, c) <= radius * radius {
      SquareBound(q, c, radius);
    }
  }

  lemma SquareBound(q: Point, c: Point, r: int)
    requires r >= 0 && SquaredDistance(q, c) <= r * r
    ensures Abs(q.0 - c.0) <= r && Abs(q.1 - c.1) <= r
  {
    var x, y := q.0 - c.0, q.1 - c.1;
    SquareNonNegative(x);
    SquareNonNegative(y);
    if x > r { SquareGrows(x, r); }
    if x < -r { SquareGrows(-x, r); }
    if y > r { SquareGrows(y, r); }
    if y < -r { SquareGrows(-y, r); }
  }

  /** drawCircle: the grid pixels within `radius` of the centre shifted by
      the offsets; a negative radius draws nothing. */
  function DrawCircle(p: Painter, rowOffset: int, colOffset: int, radius: int): (a: CoordArray)
    ensures a.Flat? <==> Empty(a)
    ensures forall q :: q in PointsOf(a) <==>
              radius >= 0 && OnGrid(p, q) &&
              SquaredDistance(q, (CenterRow(p) + rowOffset, CenterCol(p) + colOffset)) <= radius * radius
  {
    var row, col := CenterRow(p) + rowOffset, CenterCol(p) + colOffset;
    var rows := Range(Max(0, row - radius), Min(row + radius + 1, p.nrows));
    var cols := Range(Max(0, col - radius), Min(col + radius + 1, p.ncols));
    var inside := (i, j) => (i - row) * (i - row) + (j - col) * (j - col) <= radius * radius;
    var ans := RowMajor(rows, cols, inside);
    forall q: Point
      ensures q in ans <==> radius >= 0 && OnGrid(p, q) && SquaredDistance(q, (row, col)) <= radius * radius
    {
      assert inside(q.0, q.1) <==> SquaredDistance(q, (row, col)) <= radius * radius;
      assert q in ans <==> q.0 in rows && q.1 in cols && inside(q.0, q.1);
      CircleWindow(p, (row, col), radius, q);
    }
    FromList(ans)
  }

  /** A circle of radius 0 is its centre alone: it holds the centre when the
      centre is on the grid, and no other pixel. */
  lemma CircleRadiusZero(p: Painter, rowOffset: int, colOffset: int)
    ensures var c := (CenterRow(p) + rowOffset, CenterCol(p) + colOffset);
            var pts := PointsOf(DrawCircle(p, rowOffset, colOffset, 0));
            (forall q :: q in pts <==> q == c && OnGrid(p, c)) && (pts != [] <==> OnGrid(p, c))
  {
    var c := (CenterRow(p) + rowOffset, CenterCol(p) + colOffset);
    var pts := PointsOf(DrawCircle(p, rowOffset, colOffset, 0));
    forall q ensures q in pts <==> q == c && OnGrid(p, c) {
      SquareNonNegative(q.0 - c.0);
      SquareNonNegative(q.1 - c.1);
    }
    if pts != [] {
      assert pts[0] in pts;
    }
  }

  /** drawSquare: the box of half side `radius` around the shifted centre,
      clipped to the grid. */
  function DrawSquare(p: Painter, radius: int, rowOffset: int, colOffset: int): (a: CoordArray)
    ensures a.Flat? <==> Empty(a)
    ensures forall q :: q in PointsOf(a) <==>
              OnGrid(p, q) &&
              Abs(q.0 - (CenterRow(p) + rowOffset)) <= radius && Abs(q.1 - (CenterCol(p) + colOffset)) <= radius
  {
    var row, col := CenterRow(p) + rowOffset, CenterCol(p) + colOffset;
    FromList(RowMajor(Range(Max(0, row - radius), Min(row + radius + 1, p.nrows)),
                      Range(Max(0, col - radius), Min(col + radius + 1, p.ncols)),
                      (i, j) => true))
  }

  /** The circle lies inside the square of the same radius and centre. */
  lemma CircleInSquare(p: Painter, rowOffset: int, colOffset: int, radius: int, q: Point)
    requires q in PointsOf(DrawCircle(p, rowOffset, colOffset, radius))
    ensures q in PointsOf(DrawSquare(p, radius, rowOffset, colOffset))
  {
    var c := (CenterRow(p) + rowOffset, CenterCol(p) + colOffset);
    assert radius >= 0 && OnGrid(p, q) && SquaredDistance(q, c) <= radius * radius;
    SquareBound(q, c, radius);
    assert Abs(q.0 - c.0) <= radius && Abs(q.1 - c.1) <= radius;
    var square := DrawSquare(p, radius, rowOffset, colOffset);
    assert q in PointsOf(square) <==>
             OnGrid(p, q) && Abs(q.0 - c.0) <= radius && Abs(q.1 - c.1) <= radius;
  }

  /** drawHorizontalLine: every column of the rows within `halfWidth` of the
      shifted centre row that lie on the grid, column by column. */
  function DrawHorizontalLine(p: Painter, rowOffset: int, halfWidth: int): (a: CoordArray)
    ensures a.Flat? <==> Empty(a)
    ensures forall q :: q in PointsOf(a) <==>
              OnGrid(p, q) && Abs(q.0 - (CenterRow(p) + rowOffset)) <= halfWidth
  {
    var row := CenterRow(p) + rowOffset;
    FromList(ColumnMajor(Range(row - halfWidth, row + halfWidth + 1), Range(0, p.ncols),
                         (i, j) => 0 <= i < p.nrows))
  }

  /** drawVerticalLine: every row of the columns within `halfWidth` of the
      shifted centre column that lie on the grid, row by row. */
  function DrawVerticalLine(p: Painter, colOffset: int, halfWidth: int): (a: CoordArray)
    ensures a.Flat? <==> Empty(a)
    ensures forall q :: q in PointsOf(a) <==>
              OnGrid(p, q) && Abs(q.1 - (CenterCol(p) + colOffset)) <= halfWidth
  {
    var col := CenterCol(p) + colOffset;
    FromList(RowMajor(Range(0, p.nrows), Range(col - halfWidth, col + halfWidth + 1),
                      (i, j) => 0 <= j < p.ncols))
  }

  /** drawCross: the horizontal line followed by the vertical line. The
      cross is the union of the two lines, unless exactly one of them is
      empty: then np.concatenate meets a (0,) array beside an (N, 2) one. */
  function DrawCross(p: Painter, rowOffset: int, colOffset: int, halfWidth: int): (res: Result<CoordArray>)
    ensures var h, v := DrawHorizontalLine(p, rowOffset, halfWidth), DrawVerticalLine(p, colOffset, halfWidth);
            (res.Success? <==> (Empty(h) <==> Empty(v))) &&
            (res.Failure? ==> res.error == DimensionMismatch) &&
            (res.Success? ==> forall q :: q in PointsOf(res.value) <==> q in PointsOf(h) || q in PointsOf(v))
  {
    var h, v := DrawHorizontalLine(p, rowOffset, halfWidth), DrawVerticalLine(p, colOffset, halfWidth);
    var arrs := [h, v];
    assert forall a :: a in arrs <==> a == h || a == v;
    assert forall q :: q in Flatten(arrs) <==> q in PointsOf(h) || q in PointsOf(v) by {
      forall q ensures q in Flatten(arrs) <==> q in PointsOf(h) || q in PointsOf(v) {
        FlattenMembers(arrs, q);
      }
    }
    Concatenate(arrs)
  }

  /** Two arrays joined list the points of both. */
  lemma PairPoints(a: CoordArray, b: CoordArray, q: Point)
    ensures Concatenate([a, b]).Success? ==>
              (q in PointsOf(Concatenate([a, b]).value) <==> q in PointsOf(a) || q in PointsOf(b))
  {
    var arrs := [a, b];
    assert arrs[..1] == [a];
    assert Flatten([a]) == Flatten([]) + PointsOf(a);
  }

  /** drawAngledLine at a multiple of 90 degrees: 0 (mod 180) is the
      horizontal line and 90 (mod 180) the vertical line through the same
      offsets. */
  function DrawAngledLine(p: Painter, angle: int, rowOffset: int, colOffset: int, halfWidth: int): (a: CoordArray)
    requires angle % 180 == 0 || angle % 180 == 90
    ensures angle % 180 == 0 ==> forall q :: q in PointsOf(a) <==>
              OnGrid(p, q) && Abs(q.0 - (CenterRow(p) + rowOffset)) <= halfWidth
    ensures angle % 180 == 90 ==> forall q :: q in PointsOf(a) <==>
              OnGrid(p, q) && Abs(q.1 - (CenterCol(p) + colOffset)) <= halfWidth
  {
    if angle % 180 == 0 then DrawHorizontalLine(p, rowOffset, halfWidth)
    else DrawVerticalLine(p, colOffset, halfWidth)
  }

  /** drawCheckerBoard: the grid pixels whose row block and column block
      (blocks of `size`) differ in parity, in row-major order. The result
      always has shape (N, 2), even when N is 0. */
  function DrawCheckerBoard(p: Painter, size: int): (a: CoordArray)
    ensures a.Table?
    ensures forall q :: q in a.points <==>
              OnGrid(p, q) && FloorDiv(q.0, size) % 2 != FloorDiv(q.1, size) % 2
  {
    var ans := RowMajor(Range(0, p.nrows), Range(0, p.ncols),
                        (i, j) => (FloorDiv(i, size) % 2 + FloorDiv(j, size) % 2) % 2 != 0);
    forall q: Point
      ensures q in ans <==> OnGrid(p, q) && FloorDiv(q.0, size) % 2 != FloorDiv(q.1, size) % 2
    {
      ParityDiffers(FloorDiv(q.0, size), FloorDiv(q.1, size));
    }
    Table(ans)
  }

  /** The mask's sum of parities is odd exactly when the parities differ. */
  lemma ParityDiffers(a: int, b: int)
    ensures (a % 2 + b % 2) % 2 != 0 <==> a % 2 != b % 2
  {
  }

  lemma FloorDivNext(a: int, b: int)
    requires b > 0
    ensures FloorDiv(a + b, b) == FloorDiv(a, b) + 1
  {
    var q := a / b;
    assert a + b == (q + 1) * b + (a - q * b);
    RowMajorIndex(q + 1, a - q * b, b);
  }

  /** Moving `size` pixels along a row crosses into the next block, so
      exactly one of the two pixels is selected. */
  lemma CheckerBoardAlternates(p: Painter, size: int, i: int, j: int)
    requires size > 0 && OnGrid(p, (i, j)) && OnGrid(p, (i, j + size))
    ensures (i, j) in DrawCheckerBoard(p, size).points <==> (i, j + size) !in DrawCheckerBoard(p, size).points
  {
    var pts := DrawCheckerBoard(p, size).points;
    assert (i, j) in pts <==> FloorDiv(i, size) % 2 != FloorDiv(j, size) % 2;
    assert (i, j + size) in pts <==> FloorDiv(i, size) % 2 != FloorDiv(j + size, size) % 2;
    NextBlockParity(j, size);
  }

  /** The block after a pixel's block has the other parity. */
  lemma NextBlockParity(j: int, size: int)
    requires size > 0
    ensures FloorDiv(j + size, size) % 2 != FloorDiv(j, size) % 2
  {
    FloorDivNext(j, size);
  }

  /** drawHorizontalStrip: rows top .. top + width - 1 across the grid,
      column by column, where top is the shifted centre row; the top must
      satisfy 0 <= top < nrows - width. */
  function DrawHorizontalStrip(p: Painter, width: int, rowOffset: int): (res: Result<CoordArray>)
    ensures var top := CenterRow(p) + rowOffset;
            (res.Success? <==> 0 <= top < p.nrows - width) &&
            (res.Failure? ==> res.error == AssertionError("Row offset out of range")) &&
            (res.Success? ==> forall q :: q in PointsOf(res.value) <==>
                               top <= q.0 < top + width && 0 <= q.1 < p.ncols) &&
            (res.Success? ==> (res.value.Flat? <==> width <= 0 || p.ncols <= 0))
  {
    var top := CenterRow(p) + rowOffset;
    if !(0 <= top < p.nrows - width) then Failure(AssertionError("Row offset out of range"))
    else
      var cells := ColumnMajor(Range(top, top + width), Range(0, p.ncols), (i, j) => true);
      assert width > 0 && p.ncols > 0 ==> (top, 0) in cells;
      assert cells != [] ==> cells[0] in cells;
      Success(FromList(cells))
  }

  /** drawVerticalStrip: columns left .. left + width - 1 down the grid, row
      by row; the left column must satisfy 0 <= left < ncols - width. */
  function DrawVerticalStrip(p: Painter, width: int, colOffset: int): (res: Result<CoordArray>)
    ensures var left := CenterCol(p) + colOffset;
            (res.Success? <==> 0 <= left < p.ncols - width) &&
            (res.Failure? ==> res.error == AssertionError("Column offset out of range")) &&
            (res.Success? ==> forall q :: q in PointsOf(res.value) <==>
                               0 <= q.0 < p.nrows && left <= q.1 < left + width) &&
            (res.Success? ==> (res.value.Flat? <==> width <= 0 || p.nrows <= 0))
  {
    var left := CenterCol(p) + colOffset;
    if !(0 <= left < p.ncols - width) then Failure(AssertionError("Column offset out of range"))
    else
      var cells := RowMajor(Range(0, p.nrows), Range(left, left + width), (i, j) => true);
      assert width > 0 && p.nrows > 0 ==> (0, left) in cells;
      assert cells != [] ==> cells[0] in cells;
      Success(FromList(cells))
  }

  /** drawHorizontalHalfPlane: rows top .. nrows - 1, row by row; the top
      must lie on the grid. */
  function DrawHorizontalHalfPlane(p: Painter, rowOffset: int): (res: Result<CoordArray>)
    ensures var top := CenterRow(p) + rowOffset;
            (res.Success? <==> 0 <= top < p.nrows) &&
            (res.Failure? ==> res.error == AssertionError("Row offset out of range")) &&
            (res.Success? ==> forall q :: q in PointsOf(res.value) <==> OnGrid(p, q) && q.0 >= top)
  {
    var top := CenterRow(p) + rowOffset;
    if !(0 <= top < p.nrows) then Failure(AssertionError("Row offset out of range"))
    else Success(FromList(RowMajor(Range(top, p.nrows), Range(0, p.ncols), (i, j) => true)))
  }

  /** drawVerticalHalfPlane: columns left .. ncols - 1, row by row; the left
      column must lie on the grid. */
  function DrawVerticalHalfPlane(p: Painter, colOffset: int): (res: Result<CoordArray>)
    ensures var left := CenterCol(p) + colOffset;
            (res.Success? <==> 0 <= left < p.ncols) &&
            (res.Failure? ==> res.error == AssertionError("Column offset out of range")) &&
            (res.Success? ==> forall q :: q in PointsOf(res.value) <==> OnGrid(p, q) && q.1 >= left)
  {
    var left := CenterCol(p) + colOffset;
    if !(0 <= left < p.ncols) then Failure(AssertionError("Column offset out of range"))
    else Success(FromList(RowMajor(Range(0, p.nrows), Range(left, p.ncols), (i, j) => true)))
  }

  // ---------------------------------------------------------------------
  // Arrays of circles and squares
  // ---------------------------------------------------------------------

  /** The shape drawArrayOfCircles / drawArrayOfSquares puts at each node. */
  datatype Stamp = CircleStamp(radius: int) | SquareStamp(radius: int)

  function DrawStamp(p: Painter, s: Stamp, rowOffset: int, colOffset: int): CoordArray
  {
    match s
    case CircleStamp(r) => DrawCircle(p, rowOffset, colOffset, r)
    case SquareStamp(r) => DrawSquare(p, r, rowOffset, colOffset)
  }

  /** The shape a stamp draws for given row and column offsets. */
  function StampShape(p: Painter, s: Stamp): (int, int) -> CoordArray
  {
    (rowOffset, colOffset) => DrawStamp(p, s, rowOffset, colOffset)
  }

  lemma StampPoints(p: Painter, s: Stamp, rowOffset: int, colOffset: int)
    ensures StampShape(p, s)(rowOffset, colOffset) == DrawStamp(p, s, rowOffset, colOffset)
  {
  }

  /** The node offsets of the lattice: `i * spacing + offset`. */
  function NodeOffset(i: int, spacing: int, offset: int): int { i * spacing + offset }

  /** The inner loop `for j in ys` of one lattice row. */
  function LatticeRow(shape: (int, int) -> CoordArray, rowOffset: int, ys: seq<int>, colSpacing: int, colOffset: int)
    : (r: seq<CoordArray>)
    ensures |r| == |ys|
    ensures forall b :: 0 <= b < |ys| ==> r[b] == shape(rowOffset, NodeOffset(ys[b], colSpacing, colOffset))
  {
    seq(|ys|, b requires 0 <= b < |ys| => shape(rowOffset, NodeOffset(ys[b], colSpacing, colOffset)))
  }

  lemma LatticeRowSnoc(shape: (int, int) -> CoordArray, rowOffset: int, ys: seq<int>, b: int, colSpacing: int, colOffset: int)
    requires 0 <= b < |ys|
    ensures LatticeRow(shape, rowOffset, ys[..b + 1], colSpacing, colOffset) ==
            LatticeRow(shape, rowOffset, ys[..b], colSpacing, colOffset) +
            [shape(rowOffset, NodeOffset(ys[b], colSpacing, colOffset))]
  {
    var longer := LatticeRow(shape, rowOffset, ys[..b + 1], colSpacing, colOffset);
    var shorter := LatticeRow(shape, rowOffset, ys[..b], colSpacing, colOffset);
    assert forall k :: 0 <= k < b ==> ys[..b + 1][k] == ys[..b][k];
    assert longer[..b] == shorter;
  }

  /** The shapes `for i in xs: for j in ys` draws, row by row. */
  function Lattice(shape: (int, int) -> CoordArray, xs: seq<int>, ys: seq<int>,
                   rowSpacing: int, colSpacing: int, rowOffset: int, colOffset: int): seq<CoordArray>
    decreases |xs|
  {
    if xs == [] then []
    else
      Lattice(shape, xs[..|xs| - 1], ys, rowSpacing, colSpacing, rowOffset, colOffset) +
      LatticeRow(shape, NodeOffset(xs[|xs| - 1], rowSpacing, rowOffset), ys, colSpacing, colOffset)
  }

  /** The lattice holds the shape of every node and nothing else. */
  lemma {:induction false} LatticeMembers(shape: (int, int) -> CoordArray, xs: seq<int>, ys: seq<int>,
                                          rowSpacing: int, colSpacing: int, rowOffset: int, colOffset: int)
    ensures forall a :: a in Lattice(shape, xs, ys, rowSpacing, colSpacing, rowOffset, colOffset) <==>
              exists i, j {:trigger shape(NodeOffset(xs[i], rowSpacing, rowOffset), NodeOffset(ys[j], colSpacing, colOffset))} :: 0 <= i < |xs| && 0 <= j < |ys| &&
                a == shape(NodeOffset(xs[i], rowSpacing, rowOffset), NodeOffset(ys[j], colSpacing, colOffset))
    decreases |xs|
  {
    if xs != [] {
      var init := xs[..|xs| - 1];
      var row := LatticeRow(shape, NodeOffset(xs[|xs| - 1], rowSpacing, rowOffset), ys, colSpacing, colOffset);
      var r := Lattice(shape, xs, ys, rowSpacing, colSpacing, rowOffset, colOffset);
      LatticeMembers(shape, init, ys, rowSpacing, colSpacing, rowOffset, colOffset);
      assert r == Lattice(shape, init, ys, rowSpacing, colSpacing, rowOffset, colOffset) + row;
      assert forall i :: 0 <= i < |init| ==> init[i] == xs[i];
      forall a | a in row
        ensures exists i, j {:trigger shape(NodeOffset(xs[i], rowSpacing, rowOffset), NodeOffset(ys[j], colSpacing, colOffset))} :: 0 <= i < |xs| && 0 <= j < |ys| &&
                  a == shape(NodeOffset(xs[i], rowSpacing, rowOffset), NodeOffset(ys[j], colSpacing, colOffset))
      {
        var j :| 0 <= j < |row| && row[j] == a;
        assert a == shape(NodeOffset(xs[|xs| - 1], rowSpacing, rowOffset), NodeOffset(ys[j], colSpacing, colOffset));
      }
      forall i, j | 0 <= i < |xs| && 0 <= j < |ys|
        ensures shape(NodeOffset(xs[i], rowSpacing, rowOffset), NodeOffset(ys[j], colSpacing, colOffset)) in r
      {
        if i == |xs| - 1 {
          assert row[j] in r;
        }
      }
    }
  }

  lemma {:induction false} LatticeSnoc(shape: (int, int) -> CoordArray, xs: seq<int>, a: int, ys: seq<int>,
                    rowSpacing: int, colSpacing: int, rowOffset: int, colOffset: int)
    requires 0 <= a < |xs|
    ensures Lattice(shape, xs[..a + 1], ys, rowSpacing, colSpacing, rowOffset, colOffset) ==
            Lattice(shape, xs[..a], ys, rowSpacing, colSpacing, rowOffset, colOffset) +
            LatticeRow(shape, NodeOffset(xs[a], rowSpacing, rowOffset), ys, colSpacing, colOffset)
  {
    assert xs[..a + 1][..a] == xs[..a];
  }

  /** Some node (xs[i], ys[j]) of the lattice draws q. */
  predicate DrawnAtNode(shape: (int, int) -> CoordArray, xs: seq<int>, ys: seq<int>,
                        rowSpacing: int, colSpacing: int, rowOffset: int, colOffset: int, q: Point)
  {
    exists i, j {:trigger shape(NodeOffset(xs[i], rowSpacing, rowOffset), NodeOffset(ys[j], colSpacing, colOffset))} ::
      0 <= i < |xs| && 0 <= j < |ys| &&
      q in PointsOf(shape(NodeOffset(xs[i], rowSpacing, rowOffset), NodeOffset(ys[j], colSpacing, colOffset)))
  }

  /** q lies in the stamp around some node (xs[i], ys[j]) of the lattice. */
  predicate StampedAtNode(p: Painter, s: Stamp, xs: seq<int>, ys: seq<int>,
                          rowSpacing: int, colSpacing: int, rowOffset: int, colOffset: int, q: Point)
  {
    exists i, j {:trigger InStamp(p, s, NodeOffset(xs[i], rowSpacing, rowOffset), NodeOffset(ys[j], colSpacing, colOffset), q)} ::
      0 <= i < |xs| && 0 <= j < |ys| &&
      InStamp(p, s, NodeOffset(xs[i], rowSpacing, rowOffset), NodeOffset(ys[j], colSpacing, colOffset), q)
  }

  /** A pixel of the lattice's shapes is a pixel of the shape at some node. */
  lemma {:induction false} LatticePoints(shape: (int, int) -> CoordArray, xs: seq<int>, ys: seq<int>,
                      rowSpacing: int, colSpacing: int, rowOffset: int, colOffset: int, q: Point)
    ensures q in Flatten(Lattice(shape, xs, ys, rowSpacing, colSpacing, rowOffset, colOffset)) <==>
              DrawnAtNode(shape, xs, ys, rowSpacing, colSpacing, rowOffset, colOffset, q)
  {
    LatticePointFrom(shape, xs, ys, rowSpacing, colSpacing, rowOffset, colOffset, q);
    LatticePointTo(shape, xs, ys, rowSpacing, colSpacing, rowOffset, colOffset, q);
  }

  lemma {:induction false} LatticePointFrom(shape: (int, int) -> CoordArray, xs: seq<int>, ys: seq<int>,
                         rowSpacing: int, colSpacing: int, rowOffset: int, colOffset: int, q: Point)
    ensures q in Flatten(Lattice(shape, xs, ys, rowSpacing, colSpacing, rowOffset, colOffset)) ==>
              DrawnAtNode(shape, xs, ys, rowSpacing, colSpacing, rowOffset, colOffset, q)
  {
    var shapes := Lattice(shape, xs, ys, rowSpacing, colSpacing, rowOffset, colOffset);
    if q in Flatten(shapes) {
      FlattenMembers(shapes, q);
      var a :| a in shapes && q in PointsOf(a);
      LatticeMembers(shape, xs, ys, rowSpacing, colSpacing, rowOffset, colOffset);
      var i, j :| 0 <= i < |xs| && 0 <= j < |ys| &&
                  a == shape(NodeOffset(xs[i], rowSpacing, rowOffset), NodeOffset(ys[j], colSpacing, colOffset));
    }
  }

  lemma {:induction false} LatticePointTo(shape: (int, int) -> CoordArray, xs: seq<int>, ys: seq<int>,
                       rowSpacing: int, colSpacing: int, rowOffset: int, colOffset: int, q: Point)
    ensures DrawnAtNode(shape, xs, ys, rowSpacing, colSpacing, rowOffset, colOffset, q) ==>
            q in Flatten(Lattice(shape, xs, ys, rowSpacing, colSpacing, rowOffset, colOffset))
  {
    var shapes := Lattice(shape, xs, ys, rowSpacing, colSpacing, rowOffset, colOffset);
    if DrawnAtNode(shape, xs, ys, rowSpacing, colSpacing, rowOffset, colOffset, q) {
      var i, j :| 0 <= i < |xs| && 0 <= j < |ys| &&
                  q in PointsOf(shape(NodeOffset(xs[i], rowSpacing, rowOffset), NodeOffset(ys[j], colSpacing, colOffset)));
      var a := shape(NodeOffset(xs[i], rowSpacing, rowOffset), NodeOffset(ys[j], colSpacing, colOffset));
      LatticeMembers(shape, xs, ys, rowSpacing, colSpacing, rowOffset, colOffset);
      assert a in shapes;
      FlattenMembers(shapes, q);
    }
  }

  /** What drawArrayOfCircles / drawArrayOfSquares return for a shape: both
      counts are parsed, then the non-empty shapes of the lattice are
      joined. */
  function LatticeArray(shape: (int, int) -> CoordArray, rowSpacing: int, colSpacing: int,
                        rowOffset: int, colOffset: int, nx: RangeSpec, ny: RangeSpec): Result<CoordArray>
  {
    var xs, ys := ParseRange(nx), ParseRange(ny);
    if xs.Failure? then Failure(xs.error)
    else if ys.Failure? then Failure(ys.error)
    else Gather(Lattice(shape, xs.value, ys.value, rowSpacing, colSpacing, rowOffset, colOffset))
  }

  /** A negative count fails its assertion; otherwise the only failure is
      that every shape is empty; a success is a table. */
  lemma LatticeArrayErrors(shape: (int, int) -> CoordArray, rowSpacing: int, colSpacing: int,
                           rowOffset: int, colOffset: int, nx: RangeSpec, ny: RangeSpec)
    ensures var res := LatticeArray(shape, rowSpacing, colSpacing, rowOffset, colOffset, nx, ny);
            (ParseRange(nx).Failure? || ParseRange(ny).Failure? ==> res.Failure? && res.error.AssertionError?) &&
            (ParseRange(nx).Success? && ParseRange(ny).Success? && res.Failure? ==> res.error == NothingToConcatenate) &&
            (res.Success? ==> res.value.Table?)
  {
  }

  /** The array is the union of the shapes at its nodes, and it exists as
      soon as one node draws a pixel. */
  lemma LatticeArrayMembership(shape: (int, int) -> CoordArray, rowSpacing: int, colSpacing: int,
                               rowOffset: int, colOffset: int, nx: RangeSpec, ny: RangeSpec, q: Point)
    requires ParseRange(nx).Success? && ParseRange(ny).Success?
    ensures var res := LatticeArray(shape, rowSpacing, colSpacing, rowOffset, colOffset, nx, ny);
            var xs, ys := ParseRange(nx).value, ParseRange(ny).value;
            var onNode := DrawnAtNode(shape, xs, ys, rowSpacing, colSpacing, rowOffset, colOffset, q);
            (onNode ==> res.Success?) && (res.Success? ==> (q in PointsOf(res.value) <==> onNode))
  {
    var xs, ys := ParseRange(nx).value, ParseRange(ny).value;
    var shapes := Lattice(shape, xs, ys, rowSpacing, colSpacing, rowOffset, colOffset);
    assert LatticeArray(shape, rowSpacing, colSpacing, rowOffset, colOffset, nx, ny) == Gather(shapes);
    LatticePoints(shape, xs, ys, rowSpacing, colSpacing, rowOffset, colOffset, q);
    FlattenMembers(shapes, q);
    if q in Flatten(shapes) {
      var a :| a in shapes && q in PointsOf(a);
      var k :| 0 <= k < |shapes| && shapes[k] == a;
      assert !Empty(shapes[k]);
    }
  }

  /** The pixels a stamp at offsets (r, c) covers, in closed form. */
  predicate InStamp(p: Painter, s: Stamp, r: int, c: int, q: Point)
  {
    match s
    case CircleStamp(radius) =>
      radius >= 0 && OnGrid(p, q) &&
      SquaredDistance(q, (CenterRow(p) + r, CenterCol(p) + c)) <= radius * radius
    case SquareStamp(radius) =>
      OnGrid(p, q) && Abs(q.0 - (CenterRow(p) + r)) <= radius && Abs(q.1 - (CenterCol(p) + c)) <= radius
  }

  lemma StampMembership(p: Painter, s: Stamp, r: int, c: int, q: Point)
    ensures q in PointsOf(StampShape(p, s)(r, c)) <==> InStamp(p, s, r, c, q)
  {
    StampPoints(p, s, r, c);
    match s {
      case CircleStamp(radius) =>
        assert DrawStamp(p, s, r, c) == DrawCircle(p, r, c, radius);
      case SquareStamp(radius) =>
        assert DrawStamp(p, s, r, c) == DrawSquare(p, radius, r, c);
    }
  }

  /** The circles of drawArrayOfCircles and the squares of
      drawArrayOfSquares, in closed form: a pixel is drawn exactly when it
      lies in the circle (square) around some node. */
  lemma ArrayOfStampsMembership(p: Painter, s: Stamp, rowSpacing: int, colSpacing: int, rowOffset: int, colOffset: int,
                                nx: RangeSpec, ny: RangeSpec, q: Point)
    requires LatticeArray(StampShape(p, s), rowSpacing, colSpacing, rowOffset, colOffset, nx, ny).Success?
    ensures q in PointsOf(LatticeArray(StampShape(p, s), rowSpacing, colSpacing, rowOffset, colOffset, nx, ny).value) <==>
            StampedAtNode(p, s, ParseRange(nx).value, ParseRange(ny).value, rowSpacing, colSpacing, rowOffset, colOffset, q)
  {
    var shape := StampShape(p, s);
    LatticeArrayErrors(shape, rowSpacing, colSpacing, rowOffset, colOffset, nx, ny);
    var xs, ys := ParseRange(nx).value, ParseRange(ny).value;
    LatticeArrayMembership(shape, rowSpacing, colSpacing, rowOffset, colOffset, nx, ny, q);
    NodesAgree(p, s, xs, ys, rowSpacing, colSpacing, rowOffset, colOffset, q);
  }

  /** A pixel is drawn by the stamp at some node iff it lies in the stamp's
      closed form at that node. */
  lemma NodesAgree(p: Painter, s: Stamp, xs: seq<int>, ys: seq<int>, rowSpacing: int, colSpacing: int,
                   rowOffset: int, colOffset: int, q: Point)
    ensures DrawnAtNode(StampShape(p, s), xs, ys, rowSpacing, colSpacing, rowOffset, colOffset, q) <==>
            StampedAtNode(p, s, xs, ys, rowSpacing, colSpacing, rowOffset, colOffset, q)
  {
    var shape := StampShape(p, s);
    if DrawnAtNode(shape, xs, ys, rowSpacing, colSpacing, rowOffset, colOffset, q) {
      var i, j :| 0 <= i < |xs| && 0 <= j < |ys| &&
                  q in PointsOf(shape(NodeOffset(xs[i], rowSpacing, rowOffset), NodeOffset(ys[j], colSpacing, colOffset)));
      StampMembership(p, s, NodeOffset(xs[i], rowSpacing, rowOffset), NodeOffset(ys[j], colSpacing, colOffset), q);
    }
    if StampedAtNode(p, s, xs, ys, rowSpacing, colSpacing, rowOffset, colOffset, q) {
      var i, j :| 0 <= i < |xs| && 0 <= j < |ys| &&
                  InStamp(p, s, NodeOffset(xs[i], rowSpacing, rowOffset), NodeOffset(ys[j], colSpacing, colOffset), q);
      StampMembership(p, s, NodeOffset(xs[i], rowSpacing, rowOffset), NodeOffset(ys[j], colSpacing, colOffset), q);
    }
  }

  /** The outer loop shared by drawArrayOfCircles and drawArrayOfSquares:
      draws the lattice row by row and keeps the non-empty shapes. */
  method CollectLattice(stamp: (int, int) -> CoordArray, xs: seq<int>, ys: seq<int>,
                        rowSpacing: int, colSpacing: int, rowOffset: int, colOffset: int)
    returns (corr: seq<CoordArray>)
    ensures corr == NonEmpty(Lattice(stamp, xs, ys, rowSpacing, colSpacing, rowOffset, colOffset))
  {
    corr := [];
    for a := 0 to |xs|
      invariant corr == NonEmpty(Lattice(stamp, xs[..a], ys, rowSpacing, colSpacing, rowOffset, colOffset))
    {
      ghost var drawn := Lattice(stamp, xs[..a], ys, rowSpacing, colSpacing, rowOffset, colOffset);
      corr := CollectRow(stamp, NodeOffset(xs[a], rowSpacing, rowOffset), ys, colSpacing, colOffset, corr, drawn);
      LatticeSnoc(stamp, xs, a, ys, rowSpacing, colSpacing, rowOffset, colOffset);
    }
    assert xs[..|xs|] == xs;
  }

  /** The inner loop: draws one lattice row and appends its non-empty
      shapes to those kept so far. */
  method CollectRow(stamp: (int, int) -> CoordArray, rowOff: int, ys: seq<int>, colSpacing: int, colOffset: int,
                    kept: seq<CoordArray>, ghost drawn: seq<CoordArray>) returns (corr: seq<CoordArray>)
    requires kept == NonEmpty(drawn)
    ensures corr == NonEmpty(drawn + LatticeRow(stamp, rowOff, ys, colSpacing, colOffset))
  {
    corr := kept;
    ghost var done := drawn;
    assert ys[..0] == [];
    for b := 0 to |ys|
      invariant done == drawn + LatticeRow(stamp, rowOff, ys[..b], colSpacing, colOffset)
      invariant corr == NonEmpty(done)
    {
      var shape := stamp(rowOff, NodeOffset(ys[b], colSpacing, colOffset));
      RowStep(stamp, rowOff, ys, b, colSpacing, colOffset, drawn, done);
      if !Empty(shape) {
        corr := corr + [shape];
      }
      done := done + [shape];
    }
    assert ys[..|ys|] == ys;
  }

  /** One step of the inner loop: the next node's shape extends the row
      drawn so far and is kept when it is not empty. */
  lemma {:induction false} RowStep(stamp: (int, int) -> CoordArray, rowOff: int, ys: seq<int>, b: int, colSpacing: int, colOffset: int,
                drawn: seq<CoordArray>, done: seq<CoordArray>)
    requires 0 <= b < |ys|
    requires done == drawn + LatticeRow(stamp, rowOff, ys[..b], colSpacing, colOffset)
    ensures var shape := stamp(rowOff, NodeOffset(ys[b], colSpacing, colOffset));
            done + [shape] == drawn + LatticeRow(stamp, rowOff, ys[..b + 1], colSpacing, colOffset) &&
            NonEmpty(done + [shape]) == if Empty(shape) then NonEmpty(done) else NonEmpty(done) + [shape]
  {
    var shape := stamp(rowOff, NodeOffset(ys[b], colSpacing, colOffset));
    var row := LatticeRow(stamp, rowOff, ys[..b], colSpacing, colOffset);
    LatticeRowSnoc(stamp, rowOff, ys, b, colSpacing, colOffset);
    assert drawn + (row + [shape]) == (drawn + row) + [shape];
    NonEmptySnoc(done, shape);
  }

  /** drawArrayOfCircles / drawArrayOfSquares for a shape: parse both
      counts, collect the non-empty shapes, concatenate them. */
  method DrawLattice(stamp: (int, int) -> CoordArray, rowSpacing: int, colSpacing: int, rowOffset: int, colOffset: int,
                     nx: RangeSpec, ny: RangeSpec) returns (res: Result<CoordArray>)
    ensures res == LatticeArray(stamp, rowSpacing, colSpacing, rowOffset, colOffset, nx, ny)
  {
    var parsedX := ParseRange(nx);
    if parsedX.Failure? {
      return Failure(parsedX.error);
    }
    var parsedY := ParseRange(ny);
    if parsedY.Failure? {
      return Failure(parsedY.error);
    }
    var corr := CollectLattice(stamp, parsedX.value, parsedY.value, rowSpacing, colSpacing, rowOffset, colOffset);
    NonEmptyGather(Lattice(stamp, parsedX.value, parsedY.value, rowSpacing, colSpacing, rowOffset, colOffset));
    res := Concatenate(corr);
  }

  /** drawArrayOfCircles. */
  method DrawArrayOfCircles(p: Painter, rowSpacing: int, colSpacing: int, rowOffset: int, colOffset: int,
                            nx: RangeSpec, ny: RangeSpec, radius: int) returns (res: Result<CoordArray>)
    ensures res == LatticeArray(StampShape(p, CircleStamp(radius)), rowSpacing, colSpacing, rowOffset, colOffset, nx, ny)
  {
    res := DrawLattice(StampShape(p, CircleStamp(radius)), rowSpacing, colSpacing, rowOffset, colOffset, nx, ny);
  }

  /** drawArrayOfSquares. */
  method DrawArrayOfSquares(p: Painter, rowSpacing: int, colSpacing: int, rowOffset: int, colOffset: int,
                            nx: RangeSpec, ny: RangeSpec, radius: int) returns (res: Result<CoordArray>)
    ensures res == LatticeArray(StampShape(p, SquareStamp(radius)), rowSpacing, colSpacing, rowOffset, colOffset, nx, ny)
  {
    res := DrawLattice(StampShape(p, SquareStamp(radius)), rowSpacing, colSpacing, rowOffset, colOffset, nx, ny);
  }

  // ---------------------------------------------------------------------
  // Arrays of lines and crosses
  // ---------------------------------------------------------------------

  /** The line drawHorizontalLines / drawVerticalLines puts at each offset. */
  datatype LineKind = HorizontalLines(halfWidth: int) | VerticalLines(halfWidth: int)

  function DrawLine(p: Painter, kind: LineKind, offset: int): CoordArray
  {
    match kind
    case HorizontalLines(halfWidth) => DrawHorizontalLine(p, offset, halfWidth)
    case VerticalLines(halfWidth) => DrawVerticalLine(p, offset, halfWidth)
  }

  /** An array of lines is a single lattice row whose shape ignores the row
      offset: the line at offset `i * spacing + offset` for each i. */
  function LineShape(p: Painter, kind: LineKind): (int, int) -> CoordArray
  {
    (unused, offset) => DrawLine(p, kind, offset)
  }

  /** The pixels of the line of a kind at an offset, in closed form. */
  predicate InLine(p: Painter, kind: LineKind, offset: int, q: Point)
  {
    match kind
    case HorizontalLines(halfWidth) => OnGrid(p, q) && Abs(q.0 - (CenterRow(p) + offset)) <= halfWidth
    case VerticalLines(halfWidth) => OnGrid(p, q) && Abs(q.1 - (CenterCol(p) + offset)) <= halfWidth
  }

  lemma LineShapeMembership(p: Painter, kind: LineKind, offset: int, q: Point)
    ensures q in PointsOf(LineShape(p, kind)(0, offset)) <==> InLine(p, kind, offset, q)
  {
    assert LineShape(p, kind)(0, offset) == DrawLine(p, kind, offset);
  }

  /** What drawHorizontalLines / drawVerticalLines return: the count is
      parsed, then the non-empty lines are joined. */
  function LinesArray(p: Painter, kind: LineKind, spacing: int, offset: int, n: RangeSpec): Result<CoordArray>
  {
    var ns := ParseRange(n);
    if ns.Failure? then Failure(ns.error)
    else Gather(LatticeRow(LineShape(p, kind), 0, ns.value, spacing, offset))
  }

  /** The non-empty shapes of one lattice row, joined, are the union of
      the row's shapes, and exist as soon as one shape has a pixel. */
  lemma RowArrayMembership(shape: (int, int) -> CoordArray, ns: seq<int>, spacing: int, offset: int, q: Point)
    ensures var res := Gather(LatticeRow(shape, 0, ns, spacing, offset));
            var onNode := exists k :: 0 <= k < |ns| && q in PointsOf(shape(0, NodeOffset(ns[k], spacing, offset)));
            (onNode ==> res.Success?) && (res.Success? ==> (q in PointsOf(res.value) <==> onNode))
  {
    var row := LatticeRow(shape, 0, ns, spacing, offset);
    FlattenIndexed(row, q);
    if q in Flatten(row) {
      var k :| 0 <= k < |row| && q in PointsOf(row[k]);
      assert !Empty(row[k]);
    }
  }

  /** On one of the lines at offsets `ns[k] * spacing + offset`. */
  predicate OnLines(p: Painter, kind: LineKind, ns: seq<int>, spacing: int, offset: int, q: Point)
  {
    exists k :: 0 <= k < |ns| && InLine(p, kind, NodeOffset(ns[k], spacing, offset), q)
  }

  /** The array of lines is the union of its lines; it exists as soon as one
      line is on the grid, and otherwise nothing is left to concatenate. */
  lemma LinesArrayMembership(p: Painter, kind: LineKind, spacing: int, offset: int, n: RangeSpec, q: Point)
    requires ParseRange(n).Success?
    ensures var res := LinesArray(p, kind, spacing, offset, n);
            var ns := ParseRange(n).value;
            var onLine := OnLines(p, kind, ns, spacing, offset, q);
            (onLine ==> res.Success?) &&
            (res.Success? ==> res.value.Table? && (q in PointsOf(res.value) <==> onLine)) &&
            (res.Failure? ==> res.error == NothingToConcatenate)
  {
    var ns := ParseRange(n).value;
    var shape := LineShape(p, kind);
    RowArrayMembership(shape, ns, spacing, offset, q);
    forall k | 0 <= k < |ns|
      ensures q in PointsOf(shape(0, NodeOffset(ns[k], spacing, offset))) <==> InLine(p, kind, NodeOffset(ns[k], spacing, offset), q)
    {
      LineShapeMembership(p, kind, NodeOffset(ns[k], spacing, offset), q);
    }
  }

  /** The loop of drawHorizontalLines / drawVerticalLines: parse the count,
      keep the lines that are not empty, concatenate them. */
  method DrawLines(p: Painter, kind: LineKind, spacing: int, offset: int, n: RangeSpec) returns (res: Result<CoordArray>)
    ensures res == LinesArray(p, kind, spacing, offset, n)
  {
    var parsed := ParseRange(n);
    if parsed.Failure? {
      return Failure(parsed.error);
    }
    var row := LatticeRow(LineShape(p, kind), 0, parsed.value, spacing, offset);
    var corr := CollectRow(LineShape(p, kind), 0, parsed.value, spacing, offset, [], []);
    assert [] + row == row;
    NonEmptyGather(row);
    res := Concatenate(corr);
  }

  /** drawHorizontalLines. */
  method DrawHorizontalLines(p: Painter, rowSpacing: int, rowOffset: int, halfWidth: int, ny: RangeSpec)
    returns (res: Result<CoordArray>)
    ensures res == LinesArray(p, HorizontalLines(halfWidth), rowSpacing, rowOffset, ny)
  {
    res := DrawLines(p, HorizontalLines(halfWidth), rowSpacing, rowOffset, ny);
  }

  /** drawVerticalLines. */
  method DrawVerticalLines(p: Painter, colSpacing: int, colOffset: int, halfWidth: int, nx: RangeSpec)
    returns (res: Result<CoordArray>)
    ensures res == LinesArray(p, VerticalLines(halfWidth), colSpacing, colOffset, nx)
  {
    res := DrawLines(p, VerticalLines(halfWidth), colSpacing, colOffset, nx);
  }

  /** What drawCrosses returns: both counts parsed (nx first), the
      horizontal lines at the ny offsets, then the vertical lines at the nx
      offsets, joined. */
  function CrossesArray(p: Painter, rowSpacing: int, colSpacing: int, rowOffset: int, colOffset: int,
                        halfWidth: int, nx: RangeSpec, ny: RangeSpec): Result<CoordArray>
  {
    var xs := ParseRange(nx);
    if xs.Failure? then Failure(xs.error)
    else
      var ys := ParseRange(ny);
      if ys.Failure? then Failure(ys.error)
      else
        JoinLines(LinesArray(p, HorizontalLines(halfWidth), rowSpacing, rowOffset, Items(ys.value)),
                  LinesArray(p, VerticalLines(halfWidth), colSpacing, colOffset, Items(xs.value)))
  }

  /** The horizontal lines, then the vertical lines, joined; the first
      exception wins. */
  function JoinLines(h: Result<CoordArray>, v: Result<CoordArray>): (res: Result<CoordArray>)
    ensures h.Success? && v.Success? && h.value.Table? && v.value.Table? ==> res.Success?
    ensures h.Failure? ==> res == h
    ensures h.Success? && v.Failure? ==> res == v
  {
    if h.Failure? then Failure(h.error)
    else if v.Failure? then Failure(v.error)
    else
      var arrs := [h.value, v.value];
      assert h.value.Table? && v.value.Table? ==> forall k :: 0 <= k < |arrs| ==> arrs[k].Table?;
      Concatenate(arrs)
  }

  /** drawCrosses. */
  method DrawCrosses(p: Painter, rowSpacing: int, colSpacing: int, rowOffset: int, colOffset: int,
                     halfWidth: int, nx: RangeSpec, ny: RangeSpec) returns (res: Result<CoordArray>)
    ensures res == CrossesArray(p, rowSpacing, colSpacing, rowOffset, colOffset, halfWidth, nx, ny)
  {
    var xs := ParseRange(nx);
    if xs.Failure? {
      return Failure(xs.error);
    }
    var ys := ParseRange(ny);
    if ys.Failure? {
      return Failure(ys.error);
    }
    var h := DrawHorizontalLines(p, rowSpacing, rowOffset, halfWidth, Items(ys.value));
    if h.Failure? {
      return Failure(h.error);
    }
    var v := DrawVerticalLines(p, colSpacing, colOffset, halfWidth, Items(xs.value));
    if v.Failure? {
      return Failure(v.error);
    }
    res := Concatenate([h.value, v.value]);
  }

  /** Once both counts parse, drawCrosses fails only when a family of lines
      has nothing to concatenate: two (N, 2) arrays always join. */
  lemma CrossesErrors(p: Painter, rowSpacing: int, colSpacing: int, rowOffset: int, colOffset: int,
                      halfWidth: int, nx: RangeSpec, ny: RangeSpec)
    requires ParseRange(nx).Success? && ParseRange(ny).Success?
    ensures var res := CrossesArray(p, rowSpacing, colSpacing, rowOffset, colOffset, halfWidth, nx, ny);
            res.Failure? ==> res.error == NothingToConcatenate
  {
    var xs, ys := ParseRange(nx).value, ParseRange(ny).value;
    var h := LinesArray(p, HorizontalLines(halfWidth), rowSpacing, rowOffset, Items(ys));
    var v := LinesArray(p, VerticalLines(halfWidth), colSpacing, colOffset, Items(xs));
    LinesArrayMembership(p, HorizontalLines(halfWidth), rowSpacing, rowOffset, Items(ys), (0, 0));
    LinesArrayMembership(p, VerticalLines(halfWidth), colSpacing, colOffset, Items(xs), (0, 0));
  }

  /** The crosses are the union of the horizontal lines at the row nodes and
      the vertical lines at the column nodes. */
  lemma CrossesMembership(p: Painter, rowSpacing: int, colSpacing: int, rowOffset: int, colOffset: int,
                          halfWidth: int, nx: RangeSpec, ny: RangeSpec, q: Point)
    requires CrossesArray(p, rowSpacing, colSpacing, rowOffset, colOffset, halfWidth, nx, ny).Success?
    ensures var xs, ys := ParseRange(nx).value, ParseRange(ny).value;
            q in PointsOf(CrossesArray(p, rowSpacing, colSpacing, rowOffset, colOffset, halfWidth, nx, ny).value) <==>
              OnLines(p, HorizontalLines(halfWidth), ys, rowSpacing, rowOffset, q) ||
              OnLines(p, VerticalLines(halfWidth), xs, colSpacing, colOffset, q)
  {
    var xs, ys := ParseRange(nx).value, ParseRange(ny).value;
    LinesArrayMembership(p, HorizontalLines(halfWidth), rowSpacing, rowOffset, Items(ys), q);
    LinesArrayMembership(p, VerticalLines(halfWidth), colSpacing, colOffset, Items(xs), q);
    var h := LinesArray(p, HorizontalLines(halfWidth), rowSpacing, rowOffset, Items(ys));
    var v := LinesArray(p, VerticalLines(halfWidth), colSpacing, colOffset, Items(xs));
    PairPoints(h.value, v.value, q);
  }

  /** A count that fails its assertion fails drawCrosses, nx before ny. */
  lemma CrossesParseErrors(p: Painter, rowSpacing: int, colSpacing: int, rowOffset: int, colOffset: int,
                           halfWidth: int, nx: RangeSpec, ny: RangeSpec)
    requires ParseRange(nx).Failure? || ParseRange(ny).Failure?
    ensures CrossesArray(p, rowSpacing, colSpacing, rowOffset, colOffset, halfWidth, nx, ny) ==
              if ParseRange(nx).Failure? then Failure(ParseRange(nx).error) else Failure(ParseRange(ny).error)
  {
  }

  // ---------------------------------------------------------------------
  // Arrays of strips
  // ---------------------------------------------------------------------

  datatype StripKind = HorizontalStrips | VerticalStrips

  /** The extent the strips repeat along: rows for horizontal strips,
      columns for vertical ones. */
  function Extent(p: Painter, kind: StripKind): int
  {
    if kind.HorizontalStrips? then p.nrows else p.ncols
  }

  /** The strip whose first row (column) is `start`: the array code passes
      `start - nrows // 2` (`start - ncols // 2`) as the offset. */
  function DrawStrip(p: Painter, kind: StripKind, width: int, start: int): Result<CoordArray>
  {
    match kind
    case HorizontalStrips => DrawHorizontalStrip(p, width, start - CenterRow(p))
    case VerticalStrips => DrawVerticalStrip(p, width, start - CenterCol(p))
  }

  /** The pixels of the strip starting at `start`, in closed form. */
  predicate InStrip(p: Painter, kind: StripKind, width: int, start: int, q: Point)
  {
    match kind
    case HorizontalStrips => start <= q.0 < start + width && 0 <= q.1 < p.ncols
    case VerticalStrips => 0 <= q.0 < p.nrows && start <= q.1 < start + width
  }

  /** A list comprehension whose items may raise: the items in order, or
      the first exception. */
  function Collect(results: seq<Result<CoordArray>>): (res: Result<seq<CoordArray>>)
    ensures res.Success? <==> forall k :: 0 <= k < |results| ==> results[k].Success?
    ensures res.Success? ==>
              |res.value| == |results| && forall k :: 0 <= k < |results| ==> res.value[k] == results[k].value
    ensures res.Failure? ==>
              exists k :: 0 <= k < |results| && results[k] == Failure(res.error) &&
                forall m :: 0 <= m < k ==> results[m].Success?
  {
    if results == [] then Success([])
    else if results[0].Failure? then Failure(results[0].error)
    else
      var rest := Collect(results[1..]);
      if rest.Failure? then
        assert exists k :: 0 <= k < |results| && results[k] == Failure(rest.error) &&
                 forall m :: 0 <= m < k ==> results[m].Success? by {
          var k :| 0 <= k < |results[1..]| && results[1..][k] == Failure(rest.error) &&
                   forall m :: 0 <= m < k ==> results[1..][m].Success?;
          assert results[k + 1] == Failure(rest.error);
          assert forall m :: 1 <= m < k + 1 ==> results[m] == results[1..][m - 1];
        }
        Failure(rest.error)
      else Success([results[0].value] + rest.value)
  }

  /** The strips at the given starts, each possibly failing its assertion. */
  function StripResults(p: Painter, kind: StripKind, width: int, starts: seq<int>): (r: seq<Result<CoordArray>>)
    ensures |r| == |starts|
    ensures forall k :: 0 <= k < |starts| ==> r[k] == DrawStrip(p, kind, width, starts[k])
  {
    seq(|starts|, k requires 0 <= k < |starts| => DrawStrip(p, kind, width, starts[k]))
  }

  /** `range()` with a step of zero raises before any strip is drawn. */
  const ZeroStep: Error := ValueError("range() arg 3 must not be zero")

  /** The first rows (columns) of the strips: `range(offset, extent - width, 2 * width)`. */
  function StripStarts(p: Painter, kind: StripKind, width: int, offset: int): seq<int>
    requires width != 0
  {
    StepRange(offset, Extent(p, kind) - width, 2 * width)
  }

  /** What drawHorizontalStrips / drawVerticalStrips return. */
  function StripsArray(p: Painter, kind: StripKind, width: int, offset: int): Result<CoordArray>
  {
    if width == 0 then Failure(ZeroStep)
    else
      var strips := Collect(StripResults(p, kind, width, StripStarts(p, kind, width, offset)));
      if strips.Failure? then Failure(strips.error) else Concatenate(strips.value)
  }

  /** With a positive width the strips exist exactly when the first one fits
      on the grid, `0 <= offset < extent - width`; otherwise it is the first
      strip's assertion, or nothing to concatenate, that fails. */
  lemma StripsArraySuccess(p: Painter, kind: StripKind, width: int, offset: int)
    requires width > 0
    ensures var res := StripsArray(p, kind, width, offset);
            (res.Success? <==> 0 <= offset < Extent(p, kind) - width) &&
            (offset >= Extent(p, kind) - width ==> res == Failure(NothingToConcatenate)) &&
            (offset < 0 && offset < Extent(p, kind) - width ==> res.Failure? && res.error.AssertionError?)
  {
    var starts := StripStarts(p, kind, width, offset);
    var strips := Collect(StripResults(p, kind, width, starts));
    if 0 <= offset < Extent(p, kind) - width {
      assert strips.Success?;
      var l := strips.value;
      var flat := if kind.HorizontalStrips? then p.ncols <= 0 else p.nrows <= 0;
      assert forall k :: 0 <= k < |l| ==> (l[k].Flat? <==> flat);
      assert l[0] in l;
    } else if offset < Extent(p, kind) - width {
      assert DrawStrip(p, kind, width, starts[0]).Failure?;
    }
  }

  /** A width that is not positive never draws strips: zero is an invalid
      step, and a negative width makes the first strip fail its assertion
      (or leaves nothing to concatenate). */
  lemma StripsNeedPositiveWidth(p: Painter, kind: StripKind, width: int, offset: int)
    requires width <= 0
    ensures StripsArray(p, kind, width, offset).Failure?
    ensures width == 0 ==> StripsArray(p, kind, width, offset).error == ZeroStep
  {
    if width < 0 {
      var starts := StripStarts(p, kind, width, offset);
      if starts != [] {
        assert DrawStrip(p, kind, width, starts[0]).Failure?;
      }
    }
  }

  /** A strip drawn from its start covers exactly the rows (columns) from
      that start on. */
  lemma StripMembership(p: Painter, kind: StripKind, width: int, start: int, q: Point)
    requires DrawStrip(p, kind, width, start).Success?
    ensures q in PointsOf(DrawStrip(p, kind, width, start).value) <==> InStrip(p, kind, width, start, q)
  {
  }

  /** The strips are the union of the strips at the starts. */
  lemma StripsArrayMembership(p: Painter, kind: StripKind, width: int, offset: int, q: Point)
    requires StripsArray(p, kind, width, offset).Success?
    ensures width > 0
    ensures var starts := StripStarts(p, kind, width, offset);
            q in PointsOf(StripsArray(p, kind, width, offset).value) <==>
              exists k :: 0 <= k < |starts| && InStrip(p, kind, width, starts[k], q)
  {
    if width <= 0 {
      StripsNeedPositiveWidth(p, kind, width, offset);
    }
    var starts := StripStarts(p, kind, width, offset);
    var results := StripResults(p, kind, width, starts);
    var l := Collect(results).value;
    assert PointsOf(StripsArray(p, kind, width, offset).value) == Flatten(l);
    FlattenIndexed(l, q);
    forall k | 0 <= k < |starts|
      ensures q in PointsOf(l[k]) <==> InStrip(p, kind, width, starts[k], q)
    {
      StripMembership(p, kind, width, starts[k], q);
    }
  }

  /** On one of the strips whose starts `range(offset, extent - width,
      2 * width)` lists. */
  predicate OnStrips(p: Painter, kind: StripKind, width: int, offset: int, q: Point)
  {
    width != 0 &&
    var starts := StripStarts(p, kind, width, offset);
    exists k :: 0 <= k < |starts| && InStrip(p, kind, width, starts[k], q)
  }

  /** The strips are drawn exactly when the width is positive and the first
      strip fits; they are then the union of the strips at the starts. */
  lemma StripsOutcome(p: Painter, kind: StripKind, width: int, offset: int)
    ensures var res := StripsArray(p, kind, width, offset);
            (res.Success? <==> width > 0 && 0 <= offset < Extent(p, kind) - width) &&
            (width == 0 ==> res == Failure(ZeroStep)) &&
            (res.Success? ==> forall q :: q in PointsOf(res.value) <==> OnStrips(p, kind, width, offset, q))
  {
    if width > 0 {
      StripsArraySuccess(p, kind, width, offset);
    } else {
      StripsNeedPositiveWidth(p, kind, width, offset);
    }
    if StripsArray(p, kind, width, offset).Success? {
      forall q ensures q in PointsOf(StripsArray(p, kind, width, offset).value) <==> OnStrips(p, kind, width, offset, q) {
        StripsArrayMembership(p, kind, width, offset, q);
      }
    }
  }

  /** Consecutive starts are 2 * width apart, so no pixel lies in two of
      the strips: each strip is followed by a gap as wide as itself. */
  lemma StripsDisjoint(p: Painter, kind: StripKind, width: int, offset: int, a: int, b: int, q: Point)
    requires width > 0
    requires 0 <= a < b < |StripStarts(p, kind, width, offset)|
    ensures var starts := StripStarts(p, kind, width, offset);
            starts[b] - starts[a] >= 2 * width &&
            !(InStrip(p, kind, width, starts[a], q) && InStrip(p, kind, width, starts[b], q))
  {
    var starts := StripStarts(p, kind, width, offset);
    assert starts[b] - starts[a] == (b - a) * (2 * width);
    MulMonotone(1, b - a, 2 * width);
  }

  /** drawHorizontalStrips: horizontal strips from row `rowOffset` on, one
      every 2 * width rows. */
  function DrawHorizontalStrips(p: Painter, width: int, rowOffset: int): (res: Result<CoordArray>)
    ensures res.Success? <==> width > 0 && 0 <= rowOffset < p.nrows - width
    ensures width == 0 ==> res == Failure(ZeroStep)
    ensures res.Success? ==> forall q :: q in PointsOf(res.value) <==> OnStrips(p, HorizontalStrips, width, rowOffset, q)
  {
    StripsOutcome(p, HorizontalStrips, width, rowOffset);
    StripsArray(p, HorizontalStrips, width, rowOffset)
  }

  /** drawVerticalStrips: vertical strips from column `colOffset` on, one
      every 2 * width columns. */
  function DrawVerticalStrips(p: Painter, width: int, colOffset: int): (res: Result<CoordArray>)
    ensures res.Success? <==> width > 0 && 0 <= colOffset < p.ncols - width
    ensures width == 0 ==> res == Failure(ZeroStep)
    ensures res.Success? ==> forall q :: q in PointsOf(res.value) <==> OnStrips(p, VerticalStrips, width, colOffset, q)
  {
    StripsOutcome(p, VerticalStrips, width, colOffset);
    StripsArray(p, VerticalStrips, width, colOffset)
  }

  // ---------------------------------------------------------------------
  // Anchor circles
  // ---------------------------------------------------------------------

  /** One circle per anchor, the anchor giving the row and column offsets. */
  function AnchorShapes(p: Painter, anchors: seq<Point>, radius: int): (shapes: seq<CoordArray>)
    ensures |shapes| == |anchors|
    ensures forall k :: 0 <= k < |anchors| ==> shapes[k] == StampShape(p, CircleStamp(radius))(anchors[k].0, anchors[k].1)
  {
    seq(|anchors|, k requires 0 <= k < |anchors| => StampShape(p, CircleStamp(radius))(anchors[k].0, anchors[k].1))
  }

  /** drawAnchorCircles: every circle is kept, empty or not. */
  method DrawAnchorCircles(p: Painter, anchors: seq<Point>, radius: int) returns (res: Result<CoordArray>)
    ensures res == Concatenate(AnchorShapes(p, anchors, radius))
  {
    var corr := [];
    for k := 0 to |anchors|
      invariant corr == AnchorShapes(p, anchors[..k], radius)
    {
      StampPoints(p, CircleStamp(radius), anchors[k].0, anchors[k].1);
      corr := corr + [DrawCircle(p, anchors[k].0, anchors[k].1, radius)];
      assert anchors[..k + 1][..k] == anchors[..k];
    }
    assert anchors[..|anchors|] == anchors;
    res := Concatenate(corr);
  }

  /** A circle is a (0,) array exactly when it has no pixel. */
  lemma CircleFlat(p: Painter, radius: int, r: int, c: int)
    ensures StampShape(p, CircleStamp(radius))(r, c).Flat? <==> Empty(StampShape(p, CircleStamp(radius))(r, c))
  {
    StampPoints(p, CircleStamp(radius), r, c);
  }

  /** drawAnchorCircles succeeds exactly when there is an anchor and the
      circles are all on the grid or all off it (np.concatenate refuses a
      (0,) array beside an (N, 2) one); with no anchor nothing is left to
      concatenate. */
  lemma AnchorCirclesSuccess(p: Painter, anchors: seq<Point>, radius: int)
    ensures var shapes := AnchorShapes(p, anchors, radius);
            var res := Concatenate(shapes);
            (res.Success? <==>
               anchors != [] &&
               ((forall k :: 0 <= k < |shapes| ==> Empty(shapes[k])) ||
                (forall k :: 0 <= k < |shapes| ==> !Empty(shapes[k]))))
  {
    var shapes := AnchorShapes(p, anchors, radius);
    forall k | 0 <= k < |shapes| ensures shapes[k].Flat? <==> Empty(shapes[k]) {
      CircleFlat(p, radius, anchors[k].0, anchors[k].1);
    }
  }

  /** With no anchor nothing is left to concatenate; otherwise the only
      failure is the mix of (0,) and (N, 2) arrays. */
  lemma AnchorCirclesErrors(p: Painter, anchors: seq<Point>, radius: int)
    ensures var res := Concatenate(AnchorShapes(p, anchors, radius));
            (anchors == [] ==> res == Failure(NothingToConcatenate)) &&
            (anchors != [] && res.Failure? ==> res.error == DimensionMismatch)
  {
  }

  /** The anchor circles are the union of the circles around the anchors. */
  lemma AnchorCirclesMembership(p: Painter, anchors: seq<Point>, radius: int, q: Point)
    requires Concatenate(AnchorShapes(p, anchors, radius)).Success?
    ensures q in PointsOf(Concatenate(AnchorShapes(p, anchors, radius)).value) <==>
              exists k :: 0 <= k < |anchors| && InStamp(p, CircleStamp(radius), anchors[k].0, anchors[k].1, q)
  {
    var shapes := AnchorShapes(p, anchors, radius);
    FlattenIndexed(shapes, q);
    forall k | 0 <= k < |anchors|
      ensures q in PointsOf(shapes[k]) <==> InStamp(p, CircleStamp(radius), anchors[k].0, anchors[k].1, q)
    {
      StampMembership(p, CircleStamp(radius), anchors[k].0, anchors[k].1, q);
    }
  }

  /** The background lattice of drawAnchorCirclesWithBackgroundCircles:
      nodes -20 .. 19 on both axes at `bgSpacing`, no offset. */
  const BackgroundNodes: RangeSpec := Items(Range(-20, 20))

  /** What drawAnchorCirclesWithBackgroundCircles returns: the background
      circles, then the anchor circles, joined. */
  function AnchorsWithBackground(p: Painter, bgSpacing: int, bgRadius: int, anchors: seq<Point>, anchorRadius: int)
    : Result<CoordArray>
  {
    var bg := LatticeArray(StampShape(p, CircleStamp(bgRadius)), bgSpacing, bgSpacing, 0, 0, BackgroundNodes, BackgroundNodes);
    if bg.Failure? then Failure(bg.error)
    else
      var an := Concatenate(AnchorShapes(p, anchors, anchorRadius));
      if an.Failure? then Failure(an.error)
      else Concatenate([bg.value, an.value])
  }

  /** drawAnchorCirclesWithBackgroundCircles. */
  method DrawAnchorCirclesWithBackgroundCircles(p: Painter, bgSpacing: int, bgRadius: int, anchors: seq<Point>,
                                                anchorRadius: int) returns (res: Result<CoordArray>)
    ensures res == AnchorsWithBackground(p, bgSpacing, bgRadius, anchors, anchorRadius)
  {
    var bg := DrawArrayOfCircles(p, bgSpacing, bgSpacing, 0, 0, BackgroundNodes, BackgroundNodes, bgRadius);
    if bg.Failure? {
      return Failure(bg.error);
    }
    var an := DrawAnchorCircles(p, anchors, anchorRadius);
    if an.Failure? {
      return Failure(an.error);
    }
    res := Concatenate([bg.value, an.value]);
  }

  /** On a background circle: within `bgRadius` of a node
      (i * bgSpacing, j * bgSpacing), -20 <= i, j < 20. */
  predicate OnBackground(p: Painter, bgSpacing: int, bgRadius: int, q: Point)
  {
    InSquareLattice(p, CircleStamp(bgRadius), bgSpacing, -20, 20, q)
  }

  /** q lies in the stamp around some node (i * spacing, j * spacing),
      lo <= i, j < hi. */
  predicate InSquareLattice(p: Painter, s: Stamp, spacing: int, lo: int, hi: int, q: Point)
  {
    exists i, j :: lo <= i < hi && lo <= j < hi &&
      InStamp(p, s, NodeOffset(i, spacing, 0), NodeOffset(j, spacing, 0), q)
  }

  /** On the circle of some anchor. */
  predicate OnAnchor(p: Painter, anchors: seq<Point>, radius: int, q: Point)
  {
    exists k :: 0 <= k < |anchors| && InStamp(p, CircleStamp(radius), anchors[k].0, anchors[k].1, q)
  }

  /** The background circles in closed form. */
  lemma BackgroundCircles(p: Painter, bgSpacing: int, bgRadius: int, q: Point)
    requires LatticeArray(StampShape(p, CircleStamp(bgRadius)), bgSpacing, bgSpacing, 0, 0, BackgroundNodes, BackgroundNodes).Success?
    ensures var bg := LatticeArray(StampShape(p, CircleStamp(bgRadius)), bgSpacing, bgSpacing, 0, 0,
                                   BackgroundNodes, BackgroundNodes);
            q in PointsOf(bg.value) <==> OnBackground(p, bgSpacing, bgRadius, q)
  {
    SquareLatticeMembership(p, CircleStamp(bgRadius), bgSpacing, -20, 20, q);
  }

  /** A square lattice whose nodes on both axes are lo..hi-1. */
  lemma SquareLatticeMembership(p: Painter, s: Stamp, spacing: int, lo: int, hi: int, q: Point)
    requires LatticeArray(StampShape(p, s), spacing, spacing, 0, 0, Items(Range(lo, hi)), Items(Range(lo, hi))).Success?
    ensures q in PointsOf(LatticeArray(StampShape(p, s), spacing, spacing, 0, 0, Items(Range(lo, hi)), Items(Range(lo, hi))).value) <==>
              InSquareLattice(p, s, spacing, lo, hi, q)
  {
    var nodes := Range(lo, hi);
    assert ParseRange(Items(nodes)).value == nodes;
    ArrayOfStampsMembership(p, s, spacing, spacing, 0, 0, Items(nodes), Items(nodes), q);
    RangeNodes(p, s, spacing, lo, hi, q);
  }

  /** Indexing the nodes of range(lo, hi) is ranging over lo..hi-1. */
  lemma RangeNodes(p: Painter, s: Stamp, spacing: int, lo: int, hi: int, q: Point)
    ensures StampedAtNode(p, s, Range(lo, hi), Range(lo, hi), spacing, spacing, 0, 0, q) <==>
            InSquareLattice(p, s, spacing, lo, hi, q)
  {
    var nodes := Range(lo, hi);
    if StampedAtNode(p, s, nodes, nodes, spacing, spacing, 0, 0, q) {
      var i, j :| 0 <= i < |nodes| && 0 <= j < |nodes| &&
                  InStamp(p, s, NodeOffset(nodes[i], spacing, 0), NodeOffset(nodes[j], spacing, 0), q);
      assert lo <= nodes[i] < hi && lo <= nodes[j] < hi;
    }
    if InSquareLattice(p, s, spacing, lo, hi, q) {
      var i, j :| lo <= i < hi && lo <= j < hi && InStamp(p, s, NodeOffset(i, spacing, 0), NodeOffset(j, spacing, 0), q);
      assert nodes[i - lo] == i && nodes[j - lo] == j;
    }
  }


  /** The pattern is the union of the background circles and the anchor
      circles. */
  lemma AnchorsWithBackgroundMembership(p: Painter, bgSpacing: int, bgRadius: int, anchors: seq<Point>,
                                        anchorRadius: int, q: Point)
    requires AnchorsWithBackground(p, bgSpacing, bgRadius, anchors, anchorRadius).Success?
    ensures q in PointsOf(AnchorsWithBackground(p, bgSpacing, bgRadius, anchors, anchorRadius).value) <==>
              OnBackground(p, bgSpacing, bgRadius, q) || OnAnchor(p, anchors, anchorRadius, q)
  {
    var bg := LatticeArray(StampShape(p, CircleStamp(bgRadius)), bgSpacing, bgSpacing, 0, 0, BackgroundNodes, BackgroundNodes);
    var an := Concatenate(AnchorShapes(p, anchors, anchorRadius));
    BackgroundCircles(p, bgSpacing, bgRadius, q);
    AnchorCirclesMembership(p, anchors, anchorRadius, q);
    PairPoints(bg.value, an.value, q);
  }
}
