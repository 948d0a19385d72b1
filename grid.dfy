/** Python's `range` and the list comprehensions the pattern code is built
    from, over integer grid points, with what they contain. */
module Grid {

  /** A grid coordinate (row, column). */
  type Point = (int, int)

  /** A numpy array of coordinates as the pattern code returns it. `np.array`
      of an empty list is the one-dimensional `Flat` array of shape (0,);
      anything else is a `Table` of shape (N, 2), N >= 0. */
  datatype CoordArray = Flat | Table(points: seq<Point>)

  /** The coordinates an array lists. */
  function PointsOf(a: CoordArray): seq<Point>
  {
    if a.Flat? then [] else a.points
  }

  /** `np.array(list_of_points)`. */
  function FromList(points: seq<Point>): (a: CoordArray)
    ensures PointsOf(a) == points
    ensures a.Flat? <==> points == []
  {
    if points == [] then Flat else Table(points)
  }

  /** `range(lo, hi)`. */
  function Range(lo: int, hi: int): (r: seq<int>)
    ensures |r| == if lo <= hi then hi - lo else 0
    ensures forall k :: 0 <= k < |r| ==> r[k] == lo + k
    ensures forall x :: x in r <==> lo <= x < hi
  {
    var r := seq(if lo <= hi then hi - lo else 0, k => lo + k);
    RangeMembers(r, lo, hi);
    r
  }

  lemma RangeMembers(r: seq<int>, lo: int, hi: int)
    requires |r| == if lo <= hi then hi - lo else 0
    requires forall k :: 0 <= k < |r| ==> r[k] == lo + k
    ensures forall x :: x in r <==> lo <= x < hi
  {
    forall x | lo <= x < hi ensures x in r {
      assert r[x - lo] == x;
    }
  }

  /** `range(start, stop, step)` for a non-zero step (a zero step raises
      before any range exists). */
  function StepRange(start: int, stop: int, step: int): (r: seq<int>)
    requires step != 0
    ensures |r| > 0 <==> (if step > 0 then start < stop else stop < start)
    ensures forall k :: 0 <= k < |r| ==> r[k] == start + k * step
    ensures step > 0 ==> forall k :: 0 <= k < |r| ==> start <= r[k] < stop
    ensures step < 0 ==> forall k :: 0 <= k < |r| ==> stop < r[k] <= start
    // nothing is cut off: the next value would be past the stop
    ensures step > 0 ==> start + |r| * step >= stop
    ensures step < 0 ==> start + |r| * step <= stop
    decreases if step > 0 then stop - start else start - stop
  {
    if (step > 0 && start < stop) || (step < 0 && stop < start) then
      var rest := StepRange(start + step, stop, step);
      var r := [start] + rest;
      forall k | 1 <= k < |r| ensures r[k] == start + k * step {
        StepShift(start, step, k);
      }
      StepShift(start, step, |r|);
      r
    else []
  }

  lemma StepShift(start: int, step: int, k: int)
    ensures (start + step) + (k - 1) * step == start + k * step
  {
  }

  /** `[(i, j) for i in rows for j in cols if keep(i, j)]`: row-major order. */
  function RowMajor(rows: seq<int>, cols: seq<int>, keep: (int, int) -> bool): (r: seq<Point>)
    ensures forall i, j :: (i, j) in r <==> i in rows && j in cols && keep(i, j)
    ensures forall k :: 0 <= k < |r| ==> r[k].0 in rows && r[k].1 in cols && keep(r[k].0, r[k].1)
  {
    if rows == [] then []
    else
      var rest := RowMajor(rows[1..], cols, keep);
      assert forall i :: i in rows <==> i == rows[0] || i in rows[1..];
      Row(rows[0], cols, keep) + rest
  }

  /** Strictly increasing integers, as `range` and `np.arange` produce. */
  predicate Increasing(xs: seq<int>)
  {
    forall a, b :: 0 <= a < b < |xs| ==> xs[a] < xs[b]
  }

  /** p comes before q in row-major order. */
  predicate RowMajorBefore(p: Point, q: Point)
  {
    p.0 < q.0 || (p.0 == q.0 && p.1 < q.1)
  }

  /** Points listed in strictly increasing row-major order. */
  predicate RowMajorSorted(r: seq<Point>)
  {
    forall a, b :: 0 <= a < b < |r| ==> RowMajorBefore(r[a], r[b])
  }

  /** Over increasing rows and columns the comprehension lists its points
      in strictly increasing row-major order, hence each at most once. */
  lemma {:induction false} RowMajorOrdered(rows: seq<int>, cols: seq<int>, keep: (int, int) -> bool)
    requires Increasing(rows) && Increasing(cols)
    ensures RowMajorSorted(RowMajor(rows, cols, keep))
  {
    if rows != [] {
      var head, rest := Row(rows[0], cols, keep), RowMajor(rows[1..], cols, keep);
      RowOrdered(rows[0], cols, keep);
      RowMajorOrdered(rows[1..], cols, keep);
      forall a, b | 0 <= a < |head| && 0 <= b < |rest| ensures RowMajorBefore(head[a], rest[b]) {
        assert head[a] in head && rest[b].0 in rows[1..];
      }
      SortedAppend(head, rest);
    }
  }

  lemma {:induction false} RowOrdered(i: int, cols: seq<int>, keep: (int, int) -> bool)
    requires Increasing(cols)
    ensures RowMajorSorted(Row(i, cols, keep))
  {
    if cols != [] {
      var head := if keep(i, cols[0]) then [(i, cols[0])] else [];
      var rest := Row(i, cols[1..], keep);
      RowOrdered(i, cols[1..], keep);
      forall a, b | 0 <= a < |head| && 0 <= b < |rest| ensures RowMajorBefore(head[a], rest[b]) {
        assert rest[b] in rest;
        var k :| 0 <= k < |cols[1..]| && cols[1..][k] == rest[b].1;
        assert cols[k + 1] == rest[b].1;
      }
      SortedAppend(head, rest);
    }
  }

  /** Two sorted runs, the first wholly before the second, make one. */
  lemma SortedAppend(r: seq<Point>, s: seq<Point>)
    requires RowMajorSorted(r) && RowMajorSorted(s)
    requires forall a, b :: 0 <= a < |r| && 0 <= b < |s| ==> RowMajorBefore(r[a], s[b])
    ensures RowMajorSorted(r + s)
  {
    var t := r + s;
    forall a, b | 0 <= a < b < |t| ensures RowMajorBefore(t[a], t[b]) {
      if b < |r| {
        assert t[a] == r[a] && t[b] == r[b];
      } else if a < |r| {
        assert t[a] == r[a] && t[b] == s[b - |r|];
      } else {
        assert t[a] == s[a - |r|] && t[b] == s[b - |r|];
      }
    }
  }

  /** A strictly sorted list repeats nothing. */
  lemma SortedDistinct(r: seq<Point>)
    requires RowMajorSorted(r)
    ensures Distinct(r)
  {
  }

  /** `[(i, j) for j in cols if keep(i, j)]` for one row i. */
  function Row(i: int, cols: seq<int>, keep: (int, int) -> bool): (r: seq<Point>)
    ensures forall p :: p in r <==> p.0 == i && p.1 in cols && keep(i, p.1)
  {
    if cols == [] then []
    else
      assert forall j :: j in cols <==> j == cols[0] || j in cols[1..];
      (if keep(i, cols[0]) then [(i, cols[0])] else []) + Row(i, cols[1..], keep)
  }

  /** `[(i, j) for j in cols for i in rows if keep(i, j)]`: column-major order. */
  function ColumnMajor(rows: seq<int>, cols: seq<int>, keep: (int, int) -> bool): (r: seq<Point>)
    ensures forall i, j :: (i, j) in r <==> i in rows && j in cols && keep(i, j)
  {
    if cols == [] then []
    else
      var rest := ColumnMajor(rows, cols[1..], keep);
      assert forall j :: j in cols <==> j == cols[0] || j in cols[1..];
      Column(rows, cols[0], keep) + rest
  }

  /** `[(i, j) for i in rows if keep(i, j)]` for one column j. */
  function Column(rows: seq<int>, j: int, keep: (int, int) -> bool): (r: seq<Point>)
    ensures forall p :: p in r <==> p.1 == j && p.0 in rows && keep(p.0, j)
  {
    if rows == [] then []
    else
      assert forall i :: i in rows <==> i == rows[0] || i in rows[1..];
      (if keep(rows[0], j) then [(rows[0], j)] else []) + Column(rows[1..], j, keep)
  }

  /** `xs[mask]` for a boolean mask given as a predicate: the items that
      pass, in their original order. */
  function Filter<T(!new,==)>(xs: seq<T>, keep: T -> bool): (r: seq<T>)
    ensures forall x :: x in r <==> x in xs && keep(x)
    ensures |r| <= |xs|
    ensures Distinct(xs) ==> Distinct(r)
  {
    if xs == [] then []
    else
      var rest := Filter(xs[1..], keep);
      assert forall x :: x in xs <==> x == xs[0] || x in xs[1..];
      if keep(xs[0]) then [xs[0]] + rest else rest
  }

  /** No value occurs twice. */
  predicate Distinct<T(==)>(xs: seq<T>) {
    forall a, b :: 0 <= a < b < |xs| ==> xs[a] != xs[b]
  }

  /** The set of values of a sequence. */
  function Elements<T(!new)>(xs: seq<T>): set<T> { set x | x in xs }

  /** A sequence without repetitions has as many elements as its length. */
  lemma {:induction false} DistinctCardinality<T(!new)>(xs: seq<T>)
    requires Distinct(xs)
    ensures |Elements(xs)| == |xs|
  {
    if xs != [] {
      var tail := xs[1..];
      assert Distinct(tail) by {
        forall a, b | 0 <= a < b < |tail| ensures tail[a] != tail[b] {
          assert tail[a] == xs[a + 1] && tail[b] == xs[b + 1];
        }
      }
      DistinctCardinality(tail);
      assert xs[0] !in tail by {
        forall k | 0 <= k < |tail| ensures tail[k] != xs[0] {
          assert tail[k] == xs[k + 1];
        }
      }
      assert Elements(xs) == {xs[0]} + Elements(tail);
    }
  }

  /** Multiplying by a non-negative factor keeps order. */
  lemma {:induction false} MulMonotone(a: int, b: int, n: int)
    requires n >= 0
    ensures a <= b ==> a * n <= b * n
    decreases if a < b then b - a else 0
  {
    if a < b {
      MulMonotone(a, b - 1, n);
      assert b * n == (b - 1) * n + n;
    }
  }

  lemma RowMajorIndex(r: int, c: int, n: int)
    requires n > 0 && 0 <= c < n
    ensures (r * n + c) / n == r && (r * n + c) % n == c
  {
    var x := r * n + c;
    var q, m := x / n, x % n;
    assert x == q * n + m;
    var d := q - r;
    assert d * n == q * n - r * n;
    MulMonotone(1, d, n);
    MulMonotone(d, -1, n);
    assert d == 0;
  }

  lemma RowMajorBound(r: int, c: int, n: int, m: int)
    requires 0 <= r < m && 0 <= c < n
    ensures 0 <= r * n + c < m * n
  {
    MulMonotone(r, m - 1, n);
    MulMonotone(0, r, n);
    assert (m - 1) * n == m * n - n;
  }

  lemma FlatIndexBounds(k: int, n: int, m: int)
    requires n > 0 && 0 <= k < m * n
    ensures 0 <= k / n < m && 0 <= k % n < n
  {
    var q := k / n;
    assert k == q * n + k % n;
    MulMonotone(m, q, n);
    MulMonotone(q, -1, n);
  }

  lemma FlatIndexSplit(k: int, n: int)
    requires n > 0
    ensures k == (k / n) * n + k % n
  {
  }

  lemma FlatIndexInjective(a: int, b: int, n: int)
    requires n > 0 && a / n == b / n && a % n == b % n
    ensures a == b
  {
    assert a == (a / n) * n + a % n;
    assert b == (b / n) * n + b % n;
  }
}
