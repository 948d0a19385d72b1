/** The dithering algorithms that turn a grey-scale field with values in
    [0, 1] into a binary one, in place. Fields are modelled over exact
    reals; the Floyd-Steinberg weights 7/16, 1/16, 5/16 and 3/16 are exact
    dyadic fractions. */
module Dither {
  import opened Validation

  /** A field as nested rows, row-major. */
  type Field = seq<seq<real>>

  /** Every row of the field has `w` cells. */
  predicate Rect(f: Field, w: int)
  {
    forall i :: 0 <= i < |f| ==> |f[i]| == w
  }

  /** The array holds the field. */
  predicate Matches(image: array2<real>, f: Field)
    reads image
  {
    |f| == image.Length0 && Rect(f, image.Length1) &&
    forall i, j :: 0 <= i < image.Length0 && 0 <= j < image.Length1 ==> image[i, j] == f[i][j]
  }

  /** The field an array holds. */
  function Contents(image: array2<real>): (f: Field)
    reads image
    ensures Matches(image, f)
  {
    seq(image.Length0, i reads image requires 0 <= i < image.Length0 =>
      seq(image.Length1, j reads image requires 0 <= j < image.Length1 => image[i, j]))
  }

  /** An array holds one field only. */
  lemma MatchesContents(image: array2<real>, f: Field)
    requires Matches(image, f)
    ensures Contents(image) == f
  {
    var g := Contents(image);
    forall i | 0 <= i < |f| ensures g[i] == f[i] {
      assert |g[i]| == |f[i]|;
      forall j | 0 <= j < |f[i]| ensures g[i][j] == f[i][j] {
        assert g[i][j] == image[i, j];
      }
    }
  }

  /** An elementwise numpy operation. */
  function MapField(f: Field, op: real -> real): (g: Field)
    ensures |g| == |f|
    ensures forall i :: 0 <= i < |f| ==> |g[i]| == |f[i]|
    ensures forall i, j :: 0 <= i < |f| && 0 <= j < |f[i]| ==> g[i][j] == op(f[i][j])
  {
    seq(|f|, i requires 0 <= i < |f| => seq(|f[i]|, j requires 0 <= j < |f[i]| => op(f[i][j])))
  }

  // ---------------------------------------------------------------------
  // Extremes
  // ---------------------------------------------------------------------

  /** `max` of a non-empty row. */
  function RowMax(s: seq<real>): (m: real)
    requires |s| > 0
    ensures forall j :: 0 <= j < |s| ==> s[j] <= m
    ensures exists j :: 0 <= j < |s| && s[j] == m
  {
    if |s| == 1 then s[0]
    else
      var m := RowMax(s[..|s| - 1]);
      assert forall j :: 0 <= j < |s| - 1 ==> s[..|s| - 1][j] == s[j];
      if s[|s| - 1] > m then s[|s| - 1] else m
  }

  /** `min` of a non-empty row. */
  function RowMin(s: seq<real>): (m: real)
    requires |s| > 0
    ensures forall j :: 0 <= j < |s| ==> m <= s[j]
    ensures exists j :: 0 <= j < |s| && s[j] == m
  {
    if |s| == 1 then s[0]
    else
      var m := RowMin(s[..|s| - 1]);
      assert forall j :: 0 <= j < |s| - 1 ==> s[..|s| - 1][j] == s[j];
      if s[|s| - 1] < m then s[|s| - 1] else m
  }

  /** `image.max()`: the largest cell, which some cell attains. */
  function FieldMax(f: Field, w: int): (m: real)
    requires |f| > 0 && w > 0 && Rect(f, w)
    ensures forall i, j :: 0 <= i < |f| && 0 <= j < w ==> f[i][j] <= m
    ensures exists i, j :: 0 <= i < |f| && 0 <= j < w && f[i][j] == m
  {
    var last := RowMax(f[|f| - 1]);
    if |f| == 1 then last
    else
      var init := f[..|f| - 1];
      var m := FieldMax(init, w);
      assert forall i :: 0 <= i < |init| ==> init[i] == f[i];
      if last > m then last else m
  }

  /** `image.min()`: the smallest cell, which some cell attains. */
  function FieldMin(f: Field, w: int): (m: real)
    requires |f| > 0 && w > 0 && Rect(f, w)
    ensures forall i, j :: 0 <= i < |f| && 0 <= j < w ==> m <= f[i][j]
    ensures exists i, j :: 0 <= i < |f| && 0 <= j < w && f[i][j] == m
  {
    var last := RowMin(f[|f| - 1]);
    if |f| == 1 then last
    else
      var init := f[..|f| - 1];
      var m := FieldMin(init, w);
      assert forall i :: 0 <= i < |init| ==> init[i] == f[i];
      if last < m then last else m
  }

  // ---------------------------------------------------------------------
  // normalizePattern
  // ---------------------------------------------------------------------

  /** numpy's reduction of an empty array. */
  const EmptyReduction: Error := ValueError("zero-size array to reduction operation maximum which has no identity")

  /** One cell of normalizePattern: min to 0, max to 1; a constant field
      becomes all zeros. */
  function Rescale(x: real, lo: real, hi: real): real
  {
    if hi == lo then 0.0 else (x - lo) / (hi - lo)
  }

  /** The affine rescaling of normalizePattern. */
  function Normalized(f: Field, w: int): (g: Field)
    requires |f| > 0 && w > 0 && Rect(f, w)
    ensures |g| == |f| && Rect(g, w)
    ensures forall i, j :: 0 <= i < |f| && 0 <= j < w ==> g[i][j] == Rescale(f[i][j], FieldMin(f, w), FieldMax(f, w))
  {
    var hi, lo := FieldMax(f, w), FieldMin(f, w);
    MapField(f, x => Rescale(x, lo, hi))
  }

  /** Every normalised cell lies in [0, 1]. */
  lemma NormalizedRange(f: Field, w: int)
    requires |f| > 0 && w > 0 && Rect(f, w)
    ensures var g := Normalized(f, w);
            forall i, j :: 0 <= i < |f| && 0 <= j < w ==> 0.0 <= g[i][j] <= 1.0
  {
    var hi, lo := FieldMax(f, w), FieldMin(f, w);
    forall i, j | 0 <= i < |f| && 0 <= j < w ensures 0.0 <= Rescale(f[i][j], lo, hi) <= 1.0 {
      if hi != lo {
        UnitRatio(f[i][j] - lo, hi - lo);
      }
    }
  }

  lemma UnitRatio(a: real, b: real)
    requires 0.0 <= a <= b && b > 0.0
    ensures 0.0 <= a / b <= 1.0
  {
    assert a / b * b == a;
  }

  /** A constant field becomes all zeros; otherwise the minimum becomes
      exactly 0 and the maximum exactly 1. */
  lemma {:induction false} NormalizedExtremes(f: Field, w: int)
    requires |f| > 0 && w > 0 && Rect(f, w)
    ensures var g, hi, lo := Normalized(f, w), FieldMax(f, w), FieldMin(f, w);
            (hi == lo ==> forall i, j :: 0 <= i < |f| && 0 <= j < w ==> g[i][j] == 0.0) &&
            (hi != lo ==>
               (forall i, j :: 0 <= i < |f| && 0 <= j < w && f[i][j] == lo ==> g[i][j] == 0.0) &&
               (forall i, j :: 0 <= i < |f| && 0 <= j < w && f[i][j] == hi ==> g[i][j] == 1.0))
  {
    if FieldMin(f, w) != FieldMax(f, w) {
      RescaleEnds(FieldMin(f, w), FieldMax(f, w));
    }
  }

  lemma RescaleEnds(lo: real, hi: real)
    requires lo != hi
    ensures Rescale(lo, lo, hi) == 0.0 && Rescale(hi, lo, hi) == 1.0
  {
    var d := hi - lo;
    assert d / d == 1.0;
  }

  /** Normalisation keeps the order of the cells. */
  lemma NormalizedMonotone(f: Field, w: int, i: int, j: int, k: int, l: int)
    requires |f| > 0 && w > 0 && Rect(f, w)
    requires 0 <= i < |f| && 0 <= j < w && 0 <= k < |f| && 0 <= l < w
    requires f[i][j] <= f[k][l]
    ensures Normalized(f, w)[i][j] <= Normalized(f, w)[k][l]
  {
    var hi, lo := FieldMax(f, w), FieldMin(f, w);
    assert lo <= f[i][j] <= hi;
    RescaleMonotone(f[i][j], f[k][l], lo, hi);
  }

  lemma RescaleMonotone(a: real, b: real, lo: real, hi: real)
    requires a <= b && lo <= hi
    ensures Rescale(a, lo, hi) <= Rescale(b, lo, hi)
  {
    if hi != lo {
      DivideMonotone(a - lo, b - lo, hi - lo);
    }
  }

  lemma DivideMonotone(a: real, b: real, c: real)
    requires a <= b && c > 0.0
    ensures a / c <= b / c
  {
    assert b / c - a / c == (b - a) / c;
  }

  /** normalizePattern: rescales the array in place; an empty array raises
      before anything changes. */
  method NormalizePattern(image: array2<real>) returns (res: Outcome)
    modifies image
    ensures image.Length0 == 0 || image.Length1 == 0 ==>
              res == Fail(EmptyReduction) && Matches(image, old(Contents(image)))
    ensures image.Length0 > 0 && image.Length1 > 0 ==>
              res == Pass && Matches(image, Normalized(old(Contents(image)), image.Length1))
  {
    if image.Length0 == 0 || image.Length1 == 0 {
      return Fail(EmptyReduction);
    }
    var f := Contents(image);
    var hi, lo := FieldMax(f, image.Length1), FieldMin(f, image.Length1);
    // Rescale holds both branches: `image.fill(0)` when the field is
    // constant, `(image - min) / (max - min)` otherwise
    forall i, j | 0 <= i < image.Length0 && 0 <= j < image.Length1 {
      image[i, j] := Rescale(image[i, j], lo, hi);
    }
    res := Pass;
  }

  // ---------------------------------------------------------------------
  // cutoff
  // ---------------------------------------------------------------------

  /** Thresholding: 1 at or above the threshold, 0 below. */
  function CutoffField(f: Field, threshold: real): Field
  {
    MapField(f, x => if x >= threshold then 1.0 else 0.0)
  }

  /** A thresholded field is binary, and 1 exactly where the input reached
      the threshold. */
  lemma CutoffBinary(f: Field, threshold: real, i: int, j: int)
    requires 0 <= i < |f| && 0 <= j < |f[i]|
    ensures CutoffField(f, threshold)[i][j] == 0.0 || CutoffField(f, threshold)[i][j] == 1.0
    ensures CutoffField(f, threshold)[i][j] == 1.0 <==> f[i][j] >= threshold
  {
  }

  /** Thresholding a binary field again at a threshold in (0, 1] changes
      nothing. */
  lemma CutoffIdempotent(f: Field, threshold: real)
    requires 0.0 < threshold <= 1.0
    ensures CutoffField(CutoffField(f, threshold), threshold) == CutoffField(f, threshold)
  {
    var once := CutoffField(f, threshold);
    var twice := CutoffField(once, threshold);
    assert |twice| == |once|;
    forall i | 0 <= i < |once| ensures twice[i] == once[i] {
      assert |twice[i]| == |once[i]|;
      forall j | 0 <= j < |once[i]| ensures twice[i][j] == once[i][j] {
        CutoffBinary(f, threshold, i, j);
      }
    }
  }

  /** cutoff: thresholds the array in place. */
  method Cutoff(image: array2<real>, threshold: real)
    modifies image
    ensures Matches(image, CutoffField(old(Contents(image)), threshold))
  {
    forall i, j | 0 <= i < image.Length0 && 0 <= j < image.Length1 {
      image[i, j] := if image[i, j] >= threshold then 1.0 else 0.0;
    }
  }

  // ---------------------------------------------------------------------
  // random
  // ---------------------------------------------------------------------

  /** Dither.random, with the draws of `np.random.random(image.shape)` given
      as the field `draws`: a cell becomes 1 when it exceeds its draw and 0
      otherwise. */
  function RandomField(f: Field, draws: Field, w: int): (g: Field)
    requires |draws| == |f| && Rect(f, w) && Rect(draws, w) && w >= 0
    ensures |g| == |f| && Rect(g, w)
    ensures forall i, j :: 0 <= i < |f| && 0 <= j < w ==> g[i][j] == if f[i][j] > draws[i][j] then 1.0 else 0.0
  {
    seq(|f|, i requires 0 <= i < |f| => seq(w, j requires 0 <= j < w => if f[i][j] > draws[i][j] then 1.0 else 0.0))
  }

  /** With draws in [0, 1), as `np.random.random` makes them, the result is
      binary, a cell at 1 or above always becomes 1 and a cell at 0 or below
      always becomes 0. */
  lemma RandomCertain(f: Field, draws: Field, w: int, i: int, j: int)
    requires |draws| == |f| && Rect(f, w) && Rect(draws, w) && w >= 0 && 0 <= i < |f| && 0 <= j < w
    requires 0.0 <= draws[i][j] < 1.0
    ensures RandomField(f, draws, w)[i][j] == 0.0 || RandomField(f, draws, w)[i][j] == 1.0
    ensures f[i][j] >= 1.0 ==> RandomField(f, draws, w)[i][j] == 1.0
    ensures f[i][j] <= 0.0 ==> RandomField(f, draws, w)[i][j] == 0.0
  {
  }

  /** random: thresholds each cell of the array against its draw, in place. */
  method RandomDither(image: array2<real>, draws: Field)
    requires |draws| == image.Length0 && Rect(draws, image.Length1)
    modifies image
    ensures Matches(image, RandomField(old(Contents(image)), draws, image.Length1))
  {
    forall i, j | 0 <= i < image.Length0 && 0 <= j < image.Length1 {
      image[i, j] := if image[i, j] > draws[i][j] then 1.0 else 0.0;
    }
  }

  // ---------------------------------------------------------------------
  // Floyd-Steinberg error diffusion
  // ---------------------------------------------------------------------

  /** `np.round`: to the nearest integer, ties to the even one. */
  function Round(x: real): (r: real)
    ensures r == r.Floor as real
    ensures -0.5 <= x - r <= 0.5
  {
    var fl := x.Floor;
    var d := x - fl as real;
    if d < 0.5 then fl as real
    else if d > 0.5 then (fl + 1) as real
    else if fl % 2 == 0 then fl as real
    else (fl + 1) as real
  }

  /** A value exactly halfway between two integers rounds to the even one. */
  lemma RoundHalfToEven(x: real)
    requires x - x.Floor as real == 0.5
    ensures Round(x).Floor % 2 == 0
    ensures Round(x) == x - 0.5 || Round(x) == x + 0.5
  {
  }

  /** Any other value rounds to its nearest integer, strictly within 1/2. */
  lemma RoundNearest(x: real)
    requires x - x.Floor as real != 0.5
    ensures -0.5 < x - Round(x) < 0.5
  {
  }

  /** Examples of ties: 0.5 goes to 0, 1.5 to 2 and -0.5 to 0. */
  lemma RoundTies()
    ensures Round(0.5) == 0.0 && Round(1.5) == 2.0 && Round(-0.5) == 0.0
  {
    assert (0.5).Floor == 0;
    assert (1.5).Floor == 1;
    assert (-0.5).Floor == -1;
  }

  /** The rounding error of the cell about to be visited. */
  function VisitError(f: Field, y: int, x: int): real
    requires 0 <= y < |f| && 0 <= x < |f[y]|
  {
    f[y][x] - Round(f[y][x])
  }

  /** A neighbour that a visit pushes error to: its offset from the visited
      cell and its share of the error. */
  datatype Share = Share(dy: int, dx: int, weight: real)

  /** The neighbours in the order floyd_steinberg updates them: 7/16 to the
      right, 1/16 down-right, 5/16 down and 3/16 down-left. */
  const Neighbours: seq<Share> :=
    [Share(0, 1, 0.4375), Share(1, 1, 0.0625), Share(1, 0, 0.3125), Share(1, -1, 0.1875)]

  predicate OnField(h: int, w: int, i: int, j: int)
  {
    0 <= i < h && 0 <= j < w
  }

  /** What cell (i, j) has received of the error `e` of visiting (y, x)
      after the first `k` neighbour updates; an update whose target lies
      off the field is skipped. */
  function ReceivedFirst(k: nat, e: real, h: int, w: int, y: int, x: int, i: int, j: int): real
    requires k <= |Neighbours|
  {
    if k == 0 then 0.0
    else
      var s := Neighbours[k - 1];
      ReceivedFirst(k - 1, e, h, w, y, x, i, j) +
      (if OnField(h, w, y + s.dy, x + s.dx) && i == y + s.dy && j == x + s.dx then e * s.weight else 0.0)
  }

  /** The visit of (y, x) after the rounding and the first `k` neighbour
      updates. */
  function Partial(f: Field, w: int, y: int, x: int, k: nat): (g: Field)
    requires Rect(f, w) && 0 <= y < |f| && 0 <= x < w && k <= |Neighbours|
    ensures |g| == |f| && Rect(g, w)
  {
    seq(|f|, i requires 0 <= i < |f| => seq(w, j requires 0 <= j < w =>
      if i == y && j == x then Round(f[y][x])
      else f[i][j] + ReceivedFirst(k, VisitError(f, y, x), |f|, w, y, x, i, j)))
  }

  /** One visit of cell (y, x): round it and push its error to the
      neighbours that lie on the field. */
  function Step(f: Field, w: int, y: int, x: int): (g: Field)
    requires Rect(f, w) && 0 <= y < |f| && 0 <= x < w
    ensures |g| == |f| && Rect(g, w)
  {
    Partial(f, w, y, x, |Neighbours|)
  }

  /** The `k`-th update adds its share to its target, if the target lies
      on the field, and changes nothing else. */
  lemma PartialNext(f: Field, w: int, y: int, x: int, k: nat)
    requires Rect(f, w) && 0 <= y < |f| && 0 <= x < w && 0 < k <= |Neighbours|
    ensures var s := Neighbours[k - 1];
            forall i, j :: 0 <= i < |f| && 0 <= j < w ==>
              Partial(f, w, y, x, k)[i][j] == Partial(f, w, y, x, k - 1)[i][j] +
                (if OnField(|f|, w, y + s.dy, x + s.dx) && i == y + s.dy && j == x + s.dx
                 then VisitError(f, y, x) * s.weight else 0.0)
  {
    assert Neighbours[k - 1].dy > 0 || Neighbours[k - 1].dx > 0;
  }

  /** All four updates, each under floyd_steinberg's own bounds test. */
  lemma {:induction false} ReceivedAll(e: real, h: int, w: int, y: int, x: int, i: int, j: int)
    requires 0 <= y < h && 0 <= x < w
    ensures ReceivedFirst(|Neighbours|, e, h, w, y, x, i, j) ==
            (if x + 1 < w && i == y && j == x + 1 then e * 0.4375 else 0.0) +
            (if y + 1 < h && x + 1 < w && i == y + 1 && j == x + 1 then e * 0.0625 else 0.0) +
            (if y + 1 < h && i == y + 1 && j == x then e * 0.3125 else 0.0) +
            (if x - 1 >= 0 && y + 1 < h && i == y + 1 && j == x - 1 then e * 0.1875 else 0.0)
  {
    assert Neighbours[0] == Share(0, 1, 0.4375) && Neighbours[1] == Share(1, 1, 0.0625);
    assert Neighbours[2] == Share(1, 0, 0.3125) && Neighbours[3] == Share(1, -1, 0.1875);
    assert ReceivedFirst(1, e, h, w, y, x, i, j) == (if x + 1 < w && i == y && j == x + 1 then e * 0.4375 else 0.0);
    assert ReceivedFirst(2, e, h, w, y, x, i, j) == ReceivedFirst(1, e, h, w, y, x, i, j) +
             (if y + 1 < h && x + 1 < w && i == y + 1 && j == x + 1 then e * 0.0625 else 0.0);
    assert ReceivedFirst(3, e, h, w, y, x, i, j) == ReceivedFirst(2, e, h, w, y, x, i, j) +
             (if y + 1 < h && i == y + 1 && j == x then e * 0.3125 else 0.0);
    assert ReceivedFirst(4, e, h, w, y, x, i, j) == ReceivedFirst(3, e, h, w, y, x, i, j) +
             (if x - 1 >= 0 && y + 1 < h && i == y + 1 && j == x - 1 then e * 0.1875 else 0.0);
  }

  /** What one visit does: the visited cell becomes its rounded value, each
      neighbour floyd_steinberg's bounds test admits gains its share of the
      error, and every other cell keeps its value. */
  lemma StepCells(f: Field, w: int, y: int, x: int)
    requires Rect(f, w) && 0 <= y < |f| && 0 <= x < w
    ensures var g, e, h := Step(f, w, y, x), VisitError(f, y, x), |f|;
            g[y][x] == Round(f[y][x]) &&
            (x + 1 < w ==> g[y][x + 1] == f[y][x + 1] + e * 0.4375) &&
            (y + 1 < h && x + 1 < w ==> g[y + 1][x + 1] == f[y + 1][x + 1] + e * 0.0625) &&
            (y + 1 < h ==> g[y + 1][x] == f[y + 1][x] + e * 0.3125) &&
            (x - 1 >= 0 && y + 1 < h ==> g[y + 1][x - 1] == f[y + 1][x - 1] + e * 0.1875) &&
            (forall i, j :: 0 <= i < h && 0 <= j < w && !(i == y && x - 1 <= j <= x + 1) && !(i == y + 1 && x - 1 <= j <= x + 1) ==>
               g[i][j] == f[i][j])
  {
    var g, e, h := Step(f, w, y, x), VisitError(f, y, x), |f|;
    forall i, j | 0 <= i < h && 0 <= j < w && !(i == y && x - 1 <= j <= x + 1) && !(i == y + 1 && x - 1 <= j <= x + 1)
      ensures g[i][j] == f[i][j]
    {
      ReceivedAll(e, h, w, y, x, i, j);
    }
    ReceivedAll(e, h, w, y, x, y, x + 1);
    ReceivedAll(e, h, w, y, x, y + 1, x + 1);
    ReceivedAll(e, h, w, y, x, y + 1, x);
    ReceivedAll(e, h, w, y, x, y + 1, x - 1);
  }

  /** Cell (i, j) comes before (y, x) in raster order. */
  predicate Before(i: int, j: int, y: int, x: int)
  {
    i < y || (i == y && j < x)
  }

  /** The field after visiting every cell before (y, x) in raster order. */
  function DiffuseTo(f: Field, w: int, y: int, x: int): (g: Field)
    requires Rect(f, w) && w >= 0 && 0 <= y <= |f| && 0 <= x <= w && (y == |f| ==> x == 0)
    ensures |g| == |f| && Rect(g, w)
    decreases y, x
  {
    if x > 0 then Step(DiffuseTo(f, w, y, x - 1), w, y, x - 1)
    else if y > 0 then DiffuseTo(f, w, y - 1, w)
    else f
  }

  /** floyd_steinberg's result: every cell visited. */
  function FloydSteinbergField(f: Field, w: int): (g: Field)
    requires Rect(f, w) && w >= 0
    ensures |g| == |f| && Rect(g, w)
  {
    DiffuseTo(f, w, |f|, 0)
  }

  /** A visit changes no cell that comes before it. */
  lemma StepKeepsBefore(f: Field, w: int, y: int, x: int, i: int, j: int)
    requires Rect(f, w) && 0 <= y < |f| && 0 <= x < w
    requires 0 <= i < |f| && 0 <= j < w && Before(i, j, y, x)
    ensures Step(f, w, y, x)[i][j] == f[i][j]
  {
    ReceivedAll(VisitError(f, y, x), |f|, w, y, x, i, j);
  }

  /** A visit sets the visited cell to its rounded value. */
  lemma StepRounds(f: Field, w: int, y: int, x: int)
    requires Rect(f, w) && 0 <= y < |f| && 0 <= x < w
    ensures Step(f, w, y, x)[y][x] == Round(f[y][x])
  {
  }

  /** Once visited, a cell never changes again: between the visits up to
      (y, x) and those up to a later (Y, X), the cells before (y, x) keep
      their value. */
  lemma {:induction false} VisitedFinal(f: Field, w: int, y: int, x: int, Y: int, X: int, i: int, j: int)
    requires Rect(f, w) && w >= 0
    requires 0 <= y <= |f| && 0 <= x <= w && (y == |f| ==> x == 0)
    requires 0 <= Y <= |f| && 0 <= X <= w && (Y == |f| ==> X == 0)
    requires y < Y || (y == Y && x <= X)
    requires 0 <= i < |f| && 0 <= j < w && Before(i, j, y, x)
    ensures DiffuseTo(f, w, Y, X)[i][j] == DiffuseTo(f, w, y, x)[i][j]
    decreases Y, X
  {
    if y != Y || x != X {
      var pY, pX := if X > 0 then Y else Y - 1, if X > 0 then X - 1 else w;
      VisitedFinal(f, w, y, x, pY, pX, i, j);
      KeepsPrevious(f, w, Y, X, i, j);
    }
  }

  /** Going back one visit from (Y, X), to (Y, X - 1) or to the end of the
      row above, leaves every earlier cell as it is. */
  lemma KeepsPrevious(f: Field, w: int, Y: int, X: int, i: int, j: int)
    requires Rect(f, w) && w >= 0
    requires 0 <= Y <= |f| && 0 <= X <= w && (Y == |f| ==> X == 0) && (Y > 0 || X > 0)
    requires 0 <= i < |f| && 0 <= j < w
    requires if X > 0 then Before(i, j, Y, X - 1) else Before(i, j, Y - 1, w)
    ensures X > 0 ==> DiffuseTo(f, w, Y, X)[i][j] == DiffuseTo(f, w, Y, X - 1)[i][j]
    ensures X == 0 ==> DiffuseTo(f, w, Y, X)[i][j] == DiffuseTo(f, w, Y - 1, w)[i][j]
  {
    if X > 0 {
      DiffuseKeeps(f, w, Y, X - 1, i, j);
    }
  }

  /** The visit of (y, x) keeps the cells before it. */
  lemma DiffuseKeeps(f: Field, w: int, y: int, x: int, i: int, j: int)
    requires Rect(f, w) && 0 <= y < |f| && 0 <= x < w
    requires 0 <= i < |f| && 0 <= j < w && Before(i, j, y, x)
    ensures DiffuseTo(f, w, y, x + 1)[i][j] == DiffuseTo(f, w, y, x)[i][j]
  {
    StepKeepsBefore(DiffuseTo(f, w, y, x), w, y, x, i, j);
  }

  /** What floyd_steinberg promises of each cell: in the result it holds the
      rounded value the cell had accumulated when it was visited, which is
      an integer within 1/2 of that value. */
  lemma {:induction false} FloydSteinbergCell(f: Field, w: int, i: int, j: int)
    requires Rect(f, w) && 0 <= i < |f| && 0 <= j < w
    ensures var acc := DiffuseTo(f, w, i, j)[i][j];
            var out := FloydSteinbergField(f, w)[i][j];
            out == Round(acc) && out == out.Floor as real && -0.5 <= acc - out <= 0.5
  {
    StepRounds(DiffuseTo(f, w, i, j), w, i, j);
    DiffuseNext(f, w, i, j);
    if j + 1 < w {
      VisitedFinal(f, w, i, j + 1, |f|, 0, i, j);
    } else {
      DiffuseRow(f, w, i);
      if i + 1 < |f| {
        VisitedFinal(f, w, i + 1, 0, |f|, 0, i, j);
      }
    }
  }

  /** The visits up to (y, x + 1) are those up to (y, x) and then (y, x). */
  lemma DiffuseNext(f: Field, w: int, y: int, x: int)
    requires Rect(f, w) && 0 <= y < |f| && 0 <= x < w
    ensures DiffuseTo(f, w, y, x + 1) == Step(DiffuseTo(f, w, y, x), w, y, x)
  {
  }

  /** The visits up to the start of row y + 1 are those of rows 0..y. */
  lemma {:induction false} DiffuseRow(f: Field, w: int, y: int)
    requires Rect(f, w) && w >= 0 && 0 <= y < |f|
    ensures DiffuseTo(f, w, y + 1, 0) == DiffuseTo(f, w, y, w)
  {
  }

  // ---------------------------------------------------------------------
  // Conservation of intensity
  // ---------------------------------------------------------------------

  /** The sum of the first `n` cells of a row. */
  function RowSumTo(s: seq<real>, n: int): real
    requires n <= |s|
  {
    if n <= 0 then 0.0 else RowSumTo(s, n - 1) + s[n - 1]
  }

  function RowSum(s: seq<real>): real
  {
    RowSumTo(s, |s|)
  }

  /** The sum of the first `n` rows. */
  function FieldSumTo(f: Field, n: int): real
    requires n <= |f|
  {
    if n <= 0 then 0.0 else FieldSumTo(f, n - 1) + RowSum(f[n - 1])
  }

  function FieldSum(f: Field): real
  {
    FieldSumTo(f, |f|)
  }

  /** Changing one cell of a row changes its sum by the difference. */
  lemma {:induction false} RowSumExcept(s: seq<real>, t: seq<real>, j: int, n: int)
    requires |s| == |t| && 0 <= j < |s| && n <= |s|
    requires forall k :: 0 <= k < |s| && k != j ==> s[k] == t[k]
    ensures RowSumTo(t, n) == RowSumTo(s, n) + (if j < n then t[j] - s[j] else 0.0)
  {
    if n > 0 {
      RowSumExcept(s, t, j, n - 1);
    }
  }

  /** Changing one row changes the total by the difference of its sums. */
  lemma {:induction false} FieldSumExcept(f: Field, g: Field, i: int, n: int)
    requires |f| == |g| && 0 <= i < |f| && n <= |f|
    requires forall k :: 0 <= k < |f| && k != i ==> f[k] == g[k]
    ensures FieldSumTo(g, n) == FieldSumTo(f, n) + (if i < n then RowSum(g[i]) - RowSum(f[i]) else 0.0)
  {
    if n > 0 {
      FieldSumExcept(f, g, i, n - 1);
    }
  }

  /** Changing one cell changes the total by the difference. */
  lemma CellChangeSum(f: Field, g: Field, w: int, i: int, j: int)
    requires |f| == |g| && Rect(f, w) && Rect(g, w) && 0 <= i < |f| && 0 <= j < w
    requires forall a, b :: 0 <= a < |f| && 0 <= b < w && (a != i || b != j) ==> g[a][b] == f[a][b]
    ensures FieldSum(g) == FieldSum(f) + g[i][j] - f[i][j]
  {
    forall a | 0 <= a < |f| && a != i ensures f[a] == g[a] {
      assert forall b :: 0 <= b < w ==> g[a][b] == f[a][b];
    }
    RowSumExcept(f[i], g[i], j, w);
    FieldSumExcept(f, g, i, |f|);
  }

  /** The part of a visit's error `e` that falls off the field: its share
      for each neighbour that floyd_steinberg's bounds test turns away. */
  function Lost(e: real, h: int, w: int, y: int, x: int): real
  {
    (if x + 1 < w then 0.0 else e * 0.4375) +
    (if y + 1 < h && x + 1 < w then 0.0 else e * 0.0625) +
    (if y + 1 < h then 0.0 else e * 0.3125) +
    (if x - 1 >= 0 && y + 1 < h then 0.0 else e * 0.1875)
  }

  /** What the first `k` updates leave on the field. */
  function KeptFirst(k: nat, e: real, h: int, w: int, y: int, x: int): real
    requires k <= |Neighbours|
  {
    if k == 0 then 0.0
    else
      var s := Neighbours[k - 1];
      KeptFirst(k - 1, e, h, w, y, x) + (if OnField(h, w, y + s.dy, x + s.dx) then e * s.weight else 0.0)
  }

  /** The shares kept and the shares lost make up the whole error: the four
      weights add up to 1. */
  lemma {:induction false} KeptAndLost(e: real, h: int, w: int, y: int, x: int)
    requires 0 <= y < h && 0 <= x < w
    ensures KeptFirst(|Neighbours|, e, h, w, y, x) + Lost(e, h, w, y, x) == e
  {
    assert Neighbours[0] == Share(0, 1, 0.4375) && Neighbours[1] == Share(1, 1, 0.0625);
    assert Neighbours[2] == Share(1, 0, 0.3125) && Neighbours[3] == Share(1, -1, 0.1875);
    assert KeptFirst(1, e, h, w, y, x) == (if x + 1 < w then e * 0.4375 else 0.0);
    assert KeptFirst(2, e, h, w, y, x) == KeptFirst(1, e, h, w, y, x) + (if y + 1 < h && x + 1 < w then e * 0.0625 else 0.0);
    assert KeptFirst(3, e, h, w, y, x) == KeptFirst(2, e, h, w, y, x) + (if y + 1 < h then e * 0.3125 else 0.0);
    assert KeptFirst(4, e, h, w, y, x) == KeptFirst(3, e, h, w, y, x) + (if x - 1 >= 0 && y + 1 < h then e * 0.1875 else 0.0);
  }

  /** The total after the rounding and the first `k` updates. */
  lemma {:induction false} PartialSum(f: Field, w: int, y: int, x: int, k: nat)
    requires Rect(f, w) && 0 <= y < |f| && 0 <= x < w && k <= |Neighbours|
    ensures FieldSum(Partial(f, w, y, x, k)) ==
            FieldSum(f) - VisitError(f, y, x) + KeptFirst(k, VisitError(f, y, x), |f|, w, y, x)
  {
    if k == 0 {
      CellChangeSum(f, Partial(f, w, y, x, 0), w, y, x);
    } else {
      PartialSum(f, w, y, x, k - 1);
      PartialNextSum(f, w, y, x, k);
    }
  }

  /** The `k`-th update adds its share to the total when its target is on
      the field, and nothing otherwise. */
  lemma PartialNextSum(f: Field, w: int, y: int, x: int, k: nat)
    requires Rect(f, w) && 0 <= y < |f| && 0 <= x < w && 0 < k <= |Neighbours|
    ensures var s := Neighbours[k - 1];
            FieldSum(Partial(f, w, y, x, k)) == FieldSum(Partial(f, w, y, x, k - 1)) +
              (if OnField(|f|, w, y + s.dy, x + s.dx) then VisitError(f, y, x) * s.weight else 0.0)
  {
    var g, p := Partial(f, w, y, x, k), Partial(f, w, y, x, k - 1);
    var s := Neighbours[k - 1];
    PartialNext(f, w, y, x, k);
    if OnField(|f|, w, y + s.dy, x + s.dx) {
      CellChangeSum(p, g, w, y + s.dy, x + s.dx);
    } else {
      CellChangeSum(p, g, w, y, x);
    }
  }

  /** One visit removes from the total exactly the part of its error that
      falls off the field. */
  lemma StepSum(f: Field, w: int, y: int, x: int)
    requires Rect(f, w) && 0 <= y < |f| && 0 <= x < w
    ensures FieldSum(f) - FieldSum(Step(f, w, y, x)) == Lost(VisitError(f, y, x), |f|, w, y, x)
  {
    PartialSum(f, w, y, x, |Neighbours|);
    KeptAndLost(VisitError(f, y, x), |f|, w, y, x);
  }

  /** The intensity discarded by the visits before (y, x). */
  function Discarded(f: Field, w: int, y: int, x: int): real
    requires Rect(f, w) && w >= 0 && 0 <= y <= |f| && 0 <= x <= w && (y == |f| ==> x == 0)
    decreases y, x
  {
    if x > 0 then
      Discarded(f, w, y, x - 1) + Lost(VisitError(DiffuseTo(f, w, y, x - 1), y, x - 1), |f|, w, y, x - 1)
    else if y > 0 then Discarded(f, w, y - 1, w)
    else 0.0
  }

  /** The input's total minus the output's total is the sum, over the
      visits, of each error times the weight of its neighbours off the
      field: error diffusion loses intensity only at the border. */
  lemma {:induction false} Conservation(f: Field, w: int, y: int, x: int)
    requires Rect(f, w) && w >= 0 && 0 <= y <= |f| && 0 <= x <= w && (y == |f| ==> x == 0)
    ensures FieldSum(f) - FieldSum(DiffuseTo(f, w, y, x)) == Discarded(f, w, y, x)
    decreases y, x
  {
    if y > 0 || x > 0 {
      var py, px := if x > 0 then y else y - 1, if x > 0 then x - 1 else w;
      Conservation(f, w, py, px);
      SumPrevious(f, w, y, x);
    }
  }

  /** Going back one visit from (y, x): the visit of (y, x - 1) loses what
      it discards, and the end of a row changes nothing. */
  lemma SumPrevious(f: Field, w: int, y: int, x: int)
    requires Rect(f, w) && w >= 0 && 0 <= y <= |f| && 0 <= x <= w && (y == |f| ==> x == 0) && (y > 0 || x > 0)
    ensures x > 0 ==>
              var before := DiffuseTo(f, w, y, x - 1);
              var lost := Lost(VisitError(before, y, x - 1), |f|, w, y, x - 1);
              FieldSum(before) - FieldSum(DiffuseTo(f, w, y, x)) == lost &&
              Discarded(f, w, y, x) == Discarded(f, w, y, x - 1) + lost
    ensures x == 0 ==>
              FieldSum(DiffuseTo(f, w, y, x)) == FieldSum(DiffuseTo(f, w, y - 1, w)) &&
              Discarded(f, w, y, x) == Discarded(f, w, y - 1, w)
  {
    if x > 0 {
      StepSum(DiffuseTo(f, w, y, x - 1), w, y, x - 1);
    }
  }

  /** `if c: image[i, j] += d`, where this is the `k`-th neighbour update
      of the visit of (y, x): `c` is its bounds test, (i, j) its target and
      `d` its share of the error. */
  method AddShare(image: array2<real>, c: bool, i: int, j: int, d: real, ghost f: Field, ghost y: int, ghost x: int, ghost k: nat)
    requires |f| == image.Length0 && Rect(f, image.Length1) && 0 <= y < |f| && 0 <= x < image.Length1
    requires 0 < k <= |Neighbours| && Matches(image, Partial(f, image.Length1, y, x, k - 1))
    requires i == y + Neighbours[k - 1].dy && j == x + Neighbours[k - 1].dx
    requires (c <==> OnField(image.Length0, image.Length1, i, j)) && d == VisitError(f, y, x) * Neighbours[k - 1].weight
    modifies image
    ensures Matches(image, Partial(f, image.Length1, y, x, k))
  {
    PartialNext(f, image.Length1, y, x, k);
    if c {
      image[i, j] := image[i, j] + d;
    }
  }

  /** One iteration of the inner loop, on the array. */
  method Visit(image: array2<real>, y: int, x: int, ghost f: Field)
    requires 0 <= y < image.Length0 && 0 <= x < image.Length1 && Matches(image, f)
    modifies image
    ensures Matches(image, Step(f, image.Length1, y, x))
  {
    var h, w := image.Length0, image.Length1;
    var value := image[y, x];
    var rounded := Round(value);
    image[y, x] := rounded;
    var error := value - rounded;
    assert Matches(image, Partial(f, w, y, x, 0));
    SpreadError(image, y, x, error, f);
  }

  /** The four neighbour updates of one visit, each under
      floyd_steinberg's bounds test. */
  method SpreadError(image: array2<real>, y: int, x: int, error: real, ghost f: Field)
    requires |f| == image.Length0 && Rect(f, image.Length1) && 0 <= y < |f| && 0 <= x < image.Length1
    requires Matches(image, Partial(f, image.Length1, y, x, 0)) && error == VisitError(f, y, x)
    modifies image
    ensures Matches(image, Step(f, image.Length1, y, x))
  {
    SpreadRight(image, y, x, error, f);
    SpreadBelow(image, y, x, error, f);
  }

  /** The shares to the right and to the lower right. */
  method SpreadRight(image: array2<real>, y: int, x: int, error: real, ghost f: Field)
    requires |f| == image.Length0 && Rect(f, image.Length1) && 0 <= y < |f| && 0 <= x < image.Length1
    requires Matches(image, Partial(f, image.Length1, y, x, 0)) && error == VisitError(f, y, x)
    modifies image
    ensures Matches(image, Partial(f, image.Length1, y, x, 2))
  {
    var h, w := image.Length0, image.Length1;
    AddShare(image, x + 1 < w, y, x + 1, error * 0.4375, f, y, x, 1);
    AddShare(image, y + 1 < h && x + 1 < w, y + 1, x + 1, error * 0.0625, f, y, x, 2);
  }

  /** The shares below and to the lower left. */
  method SpreadBelow(image: array2<real>, y: int, x: int, error: real, ghost f: Field)
    requires |f| == image.Length0 && Rect(f, image.Length1) && 0 <= y < |f| && 0 <= x < image.Length1
    requires Matches(image, Partial(f, image.Length1, y, x, 2)) && error == VisitError(f, y, x)
    modifies image
    ensures Matches(image, Partial(f, image.Length1, y, x, 4))
  {
    var h, w := image.Length0, image.Length1;
    AddShare(image, y + 1 < h, y + 1, x, error * 0.3125, f, y, x, 3);
    AddShare(image, x - 1 >= 0 && y + 1 < h, y + 1, x - 1, error * 0.1875, f, y, x, 4);
  }

  /** floyd_steinberg: visits the cells in raster order, in place. */
  method FloydSteinberg(image: array2<real>)
    modifies image
    ensures Matches(image, FloydSteinbergField(old(Contents(image)), image.Length1))
  {
    ghost var f := Contents(image);
    var h, w := image.Length0, image.Length1;
    for y := 0 to h
      invariant Matches(image, DiffuseTo(f, w, y, 0))
    {
      for x := 0 to w
        invariant Matches(image, DiffuseTo(f, w, y, x))
      {
        Visit(image, y, x, DiffuseTo(f, w, y, x));
        DiffuseNext(f, w, y, x);
      }
      DiffuseRow(f, w, y);
    }
  }
}
