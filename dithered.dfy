/** DitheredPainter: a painter that turns a grey-scale lattice intensity
    into a binary pattern with the dithering method chosen when it is
    built, and lists the pixels that end up on. */
module DitheredPainting {
  import opened Validation
  import opened Grid
  import opened Dither
  import opened Painters

  /** The dithering methods a painter can be built with. */
  datatype DitherMethod = FloydSteinbergMethod | CutoffMethod | RandomMethod

  /** The name the constructor accepts for each method. */
  function MethodName(m: DitherMethod): string
  {
    match m
    case FloydSteinbergMethod => "Floyd-Steinberg"
    case CutoffMethod => "cutoff"
    case RandomMethod => "random"
  }

  const InvalidMethod: Error := ValueError("Invalid dithering method")

  /** What `np.zeros` raises for a negative size. */
  const NegativeDimensions: Error := ValueError("negative dimensions are not allowed")

  /** The constructor's dispatch on the method name: a known name selects
      its method, any other name raises. */
  function SelectDither(name: string): (res: Result<DitherMethod>)
    ensures res.Success? ==> MethodName(res.value) == name
    ensures res.Failure? ==> res.error == InvalidMethod && forall m: DitherMethod :: MethodName(m) != name
  {
    if name == "Floyd-Steinberg" then Success(FloydSteinbergMethod)
    else if name == "cutoff" then Success(CutoffMethod)
    else if name == "random" then Success(RandomMethod)
    else Failure(InvalidMethod)
  }

  /** Each method is selected by its own name. */
  lemma SelectDitherRoundTrip(m: DitherMethod)
    ensures SelectDither(MethodName(m)) == Success(m)
  {
  }

  /** cutoff is called with its default threshold. */
  const CutoffThreshold: real := 0.5

  /** What the chosen method makes of a field; `draws` are the uniform draws
      the random method compares against. */
  function DitheredField(m: DitherMethod, f: Field, w: int, draws: Field): (g: Field)
    requires Rect(f, w) && w >= 0 && |draws| == |f| && Rect(draws, w)
    ensures |g| == |f| && Rect(g, w)
  {
    match m
    case FloydSteinbergMethod => FloydSteinbergField(f, w)
    case CutoffMethod => CutoffField(f, CutoffThreshold)
    case RandomMethod => RandomField(f, draws, w)
  }

  /** The coordinates of the cells equal to 1, as the flattened meshgrid
      masked by `binary == 1` lists them. */
  function OnesOf(b: Field, w: int): (r: seq<Point>)
    requires Rect(b, w)
    ensures forall q :: q in r <==> 0 <= q.0 < |b| && 0 <= q.1 < w && b[q.0][q.1] == 1.0
    ensures RowMajorSorted(r)
  {
    var keep := (i, j) => 0 <= i < |b| && 0 <= j < w && b[i][j] == 1.0;
    RowMajorOrdered(Range(0, |b|), Range(0, w), keep);
    RowMajor(Range(0, |b|), Range(0, w), keep)
  }

  /** With cutoff, the pattern lists exactly the pixels whose normalised
      intensity reaches one half. */
  lemma CutoffLatticePoints(f: Field, w: int, draws: Field, q: Point)
    requires |f| > 0 && w > 0 && Rect(f, w) && |draws| == |f| && Rect(draws, w)
    ensures var grey := Normalized(f, w);
            q in OnesOf(DitheredField(CutoffMethod, grey, w, draws), w) <==>
              0 <= q.0 < |f| && 0 <= q.1 < w && grey[q.0][q.1] >= CutoffThreshold
  {
    var grey := Normalized(f, w);
    if 0 <= q.0 < |f| && 0 <= q.1 < w {
      CutoffBinary(grey, CutoffThreshold, q.0, q.1);
    }
  }

  /** With Floyd-Steinberg, the pattern lists exactly the pixels whose
      accumulated value rounds to 1 when the raster scan reaches them. */
  lemma {:induction false} FloydSteinbergLatticePoints(f: Field, w: int, draws: Field, q: Point)
    requires |f| > 0 && w > 0 && Rect(f, w) && |draws| == |f| && Rect(draws, w)
    ensures var grey := Normalized(f, w);
            q in OnesOf(DitheredField(FloydSteinbergMethod, grey, w, draws), w) <==>
              0 <= q.0 < |f| && 0 <= q.1 < w && Round(DiffuseTo(grey, w, q.0, q.1)[q.0][q.1]) == 1.0
  {
    if 0 <= q.0 < |f| && 0 <= q.1 < w {
      FloydSteinbergCell(Normalized(f, w), w, q.0, q.1);
    }
  }

  /** A constant intensity normalises to zeros, so cutoff and random
      dithering with draws in [0, 1) switch no pixel on. */
  lemma ConstantIntensityEmpty(m: DitherMethod, f: Field, w: int, draws: Field)
    requires |f| > 0 && w > 0 && Rect(f, w) && |draws| == |f| && Rect(draws, w)
    requires m != FloydSteinbergMethod
    requires forall i, j :: 0 <= i < |f| && 0 <= j < w ==> f[i][j] == f[0][0]
    requires forall i, j :: 0 <= i < |f| && 0 <= j < w ==> 0.0 <= draws[i][j] < 1.0
    ensures OnesOf(DitheredField(m, Normalized(f, w), w, draws), w) == []
  {
    var grey := Normalized(f, w);
    var ones := OnesOf(DitheredField(m, grey, w, draws), w);
    assert FieldMin(f, w) == FieldMax(f, w);
    NormalizedExtremes(f, w);
    if ones != [] {
      var q := ones[0];
      assert q in ones;
      if m == RandomMethod {
        RandomCertain(grey, draws, w, q.0, q.1);
      }
    }
  }

  /** `image.copy()`: a new array with the same cells. */
  method CopyOf(image: array2<real>) returns (copy: array2<real>)
    ensures fresh(copy) && copy.Length0 == image.Length0 && copy.Length1 == image.Length1
    ensures Contents(copy) == Contents(image)
  {
    copy := new real[image.Length0, image.Length1];
    forall i, j | 0 <= i < image.Length0 && 0 <= j < image.Length1 {
      copy[i, j] := image[i, j];
    }
    MatchesContents(copy, Contents(image));
  }

  /** `self.dither(image)`: runs the chosen method on the array in place. */
  method ApplyDither(m: DitherMethod, image: array2<real>, draws: Field)
    requires |draws| == image.Length0 && Rect(draws, image.Length1)
    modifies image
    ensures Contents(image) == DitheredField(m, old(Contents(image)), image.Length1, draws)
  {
    ghost var f := Contents(image);
    match m {
      case FloydSteinbergMethod => FloydSteinberg(image);
      case CutoffMethod => Cutoff(image, CutoffThreshold);
      case RandomMethod => RandomDither(image, draws);
    }
    MatchesContents(image, DitheredField(m, f, image.Length1, draws));
  }

  /** A DitheredPainter: its grid, the method chosen when it was built, the
      grey-scale pattern and its dithered copy. */
  class DitheredPainter {
    const painter: Painter
    const dither: DitherMethod
    var pattern: array2<real>
    var patternBinary: array2<real>

    /** Both patterns have the grid's shape and are separate arrays. */
    predicate Valid()
      reads this
    {
      pattern.Length0 == painter.nrows && pattern.Length1 == painter.ncols &&
      patternBinary.Length0 == painter.nrows && patternBinary.Length1 == painter.ncols &&
      pattern != patternBinary
    }

    /** The constructor once the method name has been dispatched: both
        patterns start as zeros. */
    constructor (nrows: nat, ncols: nat, m: DitherMethod)
      ensures painter == Painter(nrows, ncols) && dither == m && Valid()
      ensures fresh(pattern) && fresh(patternBinary)
      ensures forall i, j :: 0 <= i < nrows && 0 <= j < ncols ==> pattern[i, j] == 0.0 && patternBinary[i, j] == 0.0
    {
      painter := Painter(nrows, ncols);
      dither := m;
      pattern := new real[nrows, ncols]((i, j) => 0.0);
      patternBinary := new real[nrows, ncols]((i, j) => 0.0);
    }

    /** The state the lattice patterns leave behind for a computed
        intensity: the normalised intensity as the pattern, its dithered
        copy as the binary pattern, and the pixels that are 1 as the
        result. */
    predicate Drawn(intensity: Field, draws: Field, res: Result<CoordArray>)
      requires Valid() && |intensity| == painter.nrows && Rect(intensity, painter.ncols)
      requires |draws| == painter.nrows && Rect(draws, painter.ncols)
      reads this, pattern, patternBinary
    {
      if painter.nrows == 0 || painter.ncols == 0 then
        res == Failure(EmptyReduction) && Matches(pattern, intensity)
      else
        var grey := Normalized(intensity, painter.ncols);
        var binary := DitheredField(dither, grey, painter.ncols, draws);
        Matches(pattern, grey) && Matches(patternBinary, binary) &&
        res == Success(Table(OnesOf(binary, painter.ncols)))
    }

    /** The step draw1dLattice and draw2dLattice share once the intensity
        has been computed: store it as the pattern, normalise it in place,
        dither a copy in place into the binary pattern and list its ones.
        An empty grid makes the normalisation raise, after the pattern has
        been replaced. */
    method FinishLattice(intensity: Field, draws: Field) returns (res: Result<CoordArray>)
      requires Valid() && |intensity| == painter.nrows && Rect(intensity, painter.ncols)
      requires |draws| == painter.nrows && Rect(draws, painter.ncols)
      modifies this
      ensures Valid() && fresh(pattern) && Drawn(intensity, draws, res)
      ensures res.Failure? ==> patternBinary == old(patternBinary)
      ensures res.Success? ==> fresh(patternBinary)
    {
      var h, w := painter.nrows, painter.ncols;
      pattern := new real[h, w]((i, j) requires 0 <= i < h && 0 <= j < w => intensity[i][j]);
      MatchesContents(pattern, intensity);
      var normalized := NormalizePattern(pattern);
      if normalized.Fail? {
        return Failure(normalized.error);
      }
      ghost var grey := Normalized(intensity, w);
      assert Matches(pattern, grey);
      MatchesContents(pattern, grey);
      var copy := CopyOf(pattern);
      ApplyDither(dither, copy, draws);
      ghost var binary := DitheredField(dither, grey, w, draws);
      assert Contents(copy) == binary;
      patternBinary := copy;
      res := Success(Table(OnesOf(Contents(copy), w)));
      assert Matches(pattern, grey) && Matches(patternBinary, binary);
    }

    /** draw1dLattice for a computed intensity: the lattice vector is
        checked first. */
    method Draw1dLattice(latVec: VectorSpec, intensity: Field, draws: Field) returns (res: Result<CoordArray>)
      requires Valid() && |intensity| == painter.nrows && Rect(intensity, painter.ncols)
      requires |draws| == painter.nrows && Rect(draws, painter.ncols)
      modifies this
      ensures Valid()
      ensures CheckVector(latVec).Fail? ==>
                res == Failure(CheckVector(latVec).error) && pattern == old(pattern) && patternBinary == old(patternBinary)
      ensures CheckVector(latVec).Pass? ==> fresh(pattern) && Drawn(intensity, draws, res)
      ensures CheckVector(latVec).Pass? && res.Failure? ==> patternBinary == old(patternBinary)
      ensures CheckVector(latVec).Pass? && res.Success? ==> fresh(patternBinary)
    {
      var checked := CheckVector(latVec);
      if checked.Fail? {
        return Failure(checked.error);
      }
      res := FinishLattice(intensity, draws);
    }

    /** draw2dLattice for a computed intensity (with or without the
        interference term): both lattice vectors are checked first, in
        order. */
    method Draw2dLattice(latVec1: VectorSpec, latVec2: VectorSpec, intensity: Field, draws: Field)
      returns (res: Result<CoordArray>)
      requires Valid() && |intensity| == painter.nrows && Rect(intensity, painter.ncols)
      requires |draws| == painter.nrows && Rect(draws, painter.ncols)
      modifies this
      ensures Valid()
      ensures CheckVector(latVec1).Fail? ==>
                res == Failure(CheckVector(latVec1).error) && pattern == old(pattern) && patternBinary == old(patternBinary)
      ensures CheckVector(latVec1).Pass? && CheckVector(latVec2).Fail? ==>
                res == Failure(CheckVector(latVec2).error) && pattern == old(pattern) && patternBinary == old(patternBinary)
      ensures CheckVector(latVec1).Pass? && CheckVector(latVec2).Pass? ==> fresh(pattern) && Drawn(intensity, draws, res)
      ensures CheckVector(latVec1).Pass? && CheckVector(latVec2).Pass? && res.Failure? ==>
                patternBinary == old(patternBinary)
      ensures CheckVector(latVec1).Pass? && CheckVector(latVec2).Pass? && res.Success? ==> fresh(patternBinary)
    {
      var checked := CheckVector(latVec1);
      if checked.Fail? {
        return Failure(checked.error);
      }
      checked := CheckVector(latVec2);
      if checked.Fail? {
        return Failure(checked.error);
      }
      res := FinishLattice(intensity, draws);
    }
  }

  /** `DitheredPainter(nrows, ncols, dither_method)`: an unknown method name
      raises first; a negative size then makes np.zeros raise. */
  method NewDitheredPainter(nrows: int, ncols: int, name: string) returns (res: Result<DitheredPainter>)
    ensures SelectDither(name).Failure? ==> res == Failure(InvalidMethod)
    ensures SelectDither(name).Success? && (nrows < 0 || ncols < 0) ==> res == Failure(NegativeDimensions)
    ensures res.Success? <==> SelectDither(name).Success? && nrows >= 0 && ncols >= 0
    ensures res.Success? ==>
              fresh(res.value) && res.value.Valid() && res.value.painter == Painter(nrows, ncols) &&
              Success(res.value.dither) == SelectDither(name)
    ensures res.Success? ==>
              fresh(res.value.pattern) && fresh(res.value.patternBinary) &&
              forall i, j :: 0 <= i < nrows && 0 <= j < ncols ==>
                res.value.pattern[i, j] == 0.0 && res.value.patternBinary[i, j] == 0.0
  {
    var selected := SelectDither(name);
    if selected.Failure? {
      return Failure(selected.error);
    }
    if nrows < 0 || ncols < 0 {
      return Failure(NegativeDimensions);
    }
    var painter := new DitheredPainter(nrows, ncols, selected.value);
    res := Success(painter);
  }
}
