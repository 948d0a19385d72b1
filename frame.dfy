/** The DMD frame: a real-space buffer the patterns are drawn on and the
    mirror buffer sent to the device, which is always re-derived from the
    real buffer through the mirror-to-real transform. */
module DmdFrame {
  import opened Grid
  import opened Validation
  import opened Mapping

  /** numpy's reading of an index along an axis of length n: a negative
      index counts from the end. */
  function WrapIndex(i: int, n: int): int { if i < 0 then i + n else i }

  /** The template colour drawPattern resets to: the one given, or the
      complement of the pattern colour. */
  function TemplateSpec(templateSpec: Option<ColorSpec>, color: Color): ColorSpec
  {
    if templateSpec.Some? then templateSpec.value else AsSpec(Inverse(color))
  }

  /** drawPattern's default arguments: pattern colour 1 (white), reset on,
      no template colour, red background. */
  const DefaultColor: ColorSpec := Scalar(1.0)
  const DefaultReset: bool := true
  const DefaultTemplate: Option<ColorSpec> := None
  const DefaultBackground: ColorSpec := NdArray([3], [255, 0, 0])

  /** The default colours parse to white and red, and the default template
      is their complement, black. */
  lemma DefaultColors()
    ensures ParseColor(DefaultColor) == Success(RGB(255, 255, 255))
    ensures ParseColor(DefaultBackground) == Success(RGB(255, 0, 0))
    ensures ParseColor(TemplateSpec(DefaultTemplate, RGB(255, 255, 255))) == Success(RGB(0, 0, 0))
  {
  }

  /** The ValueError numpy raises when an image array of the wrong number
      of channels is assigned into the (H, W, 3) real buffer. */
  const BroadcastError: Error := ValueError("could not broadcast input array into shape (real_nrows, real_ncols, 3)")

  class Frame {
    const geom: Geometry
    const flip: bool
    /** `dmd_rows, dmd_cols`: the real pixel of every mirror, row-major. */
    const mapped: seq<Point>
    /** `bg_rows, bg_cols`: the real pixels no mirror maps to. */
    const background: seq<Point>
    /** `real_array`: real_nrows x real_ncols RGB pixels. */
    const realArray: array2<Color>
    /** `dmd_array`: rows x cols RGB pixels, one per mirror. */
    const dmdArray: array2<Color>

    ghost predicate Valid()
    {
      ValidGeometry(geom) &&
      mapped == Mapped(geom, flip) && background == Background(geom, flip) &&
      realArray.Length0 == RealRows(geom) && realArray.Length1 == RealCols(geom) &&
      dmdArray.Length0 == geom.rows && dmdArray.Length1 == geom.cols &&
      realArray != dmdArray
    }

    /** Every mirror shows the real pixel it maps to. */
    ghost predicate MirrorDerived()
      requires Valid()
      reads realArray, dmdArray
    {
      forall r, c :: 0 <= r < geom.rows && 0 <= c < geom.cols ==>
        dmdArray[r, c] == realArray[RealSpace(geom, flip, r, c).0, RealSpace(geom, flip, r, c).1]
    }

    /** The state setRealArray leaves: mapped pixels and all mirrors in one
        colour, background pixels red. */
    ghost predicate Uniform(color: Color)
      requires Valid()
      reads realArray, dmdArray
    {
      (forall i, j :: 0 <= i < realArray.Length0 && 0 <= j < realArray.Length1 ==>
         realArray[i, j] == if (i, j) in mapped then color else RED) &&
      (forall r, c :: 0 <= r < dmdArray.Length0 && 0 <= c < dmdArray.Length1 ==> dmdArray[r, c] == color)
    }

    /** Builds the transform for a device of rows x cols mirrors: a red real
        buffer, a black mirror buffer, and the mapped/background partition,
        whose pixel-count check cannot fail (ConstructionCheck). */
    constructor (rows: int, cols: int, flip: bool)
      requires rows >= 1 && cols >= 1
      ensures Valid() && geom == Geometry(rows, cols) && this.flip == flip
      ensures fresh(realArray) && fresh(dmdArray)
      ensures forall i, j :: 0 <= i < realArray.Length0 && 0 <= j < realArray.Length1 ==> realArray[i, j] == RED
      ensures forall r, c :: 0 <= r < dmdArray.Length0 && 0 <= c < dmdArray.Length1 ==> dmdArray[r, c] == Gray(0)
      ensures |background| + |mapped| == realArray.Length0 * realArray.Length1
    {
      var g := Geometry(rows, cols);
      geom := g;
      this.flip := flip;
      realArray := new Color[RealRows(g), RealCols(g)]((i, j) => RED);
      dmdArray := new Color[rows, cols]((r, c) => Gray(0));
      mapped := Mapped(g, flip);
      background := Background(g, flip);
      PartitionComplete(g, flip);
    }

    /** setRealArray: paints every mapped pixel and every mirror in the
        parsed colour and the background red; a colour the parser rejects
        changes nothing. */
    method SetRealArray(spec: ColorSpec) returns (res: Outcome)
      requires Valid()
      modifies realArray, dmdArray
      ensures res.Pass? <==> ParseColor(spec).Success?
      ensures res.Fail? ==> res.error == ParseColor(spec).error && unchanged(realArray) && unchanged(dmdArray)
      ensures res.Pass? ==> Uniform(ParseColor(spec).value) && MirrorDerived()
    {
      var parsed := ParseColor(spec);
      if parsed.Failure? {
        return Fail(parsed.error);
      }
      var color := parsed.value;
      Paint(mapped, color);
      Paint(background, RED);
      forall r, c | 0 <= r < dmdArray.Length0 && 0 <= c < dmdArray.Length1 {
        dmdArray[r, c] := color;
      }
      forall r, c | 0 <= r < geom.rows && 0 <= c < geom.cols
        ensures RealSpace(geom, flip, r, c) in mapped
      {
        MappedAt(geom, flip, r, c);
      }
      res := Pass;
    }

    /** `real_array[rows, cols] = color` for in-range pixel lists: the listed
        pixels take the colour, the others keep theirs. */
    method Paint(pixels: seq<Point>, color: Color)
      requires Valid()
      requires forall k :: 0 <= k < |pixels| ==> InReal(geom, pixels[k])
      modifies realArray
      ensures forall i, j :: 0 <= i < realArray.Length0 && 0 <= j < realArray.Length1 ==>
                realArray[i, j] == if (i, j) in pixels then color else old(realArray[i, j])
    {
      forall k | 0 <= k < |pixels| {
        realArray[pixels[k].0, pixels[k].1] := color;
      }
    }

    /** Entry r * cols + c of the flattened `dmd_rows, dmd_cols`, which the
        reshape to (rows, cols) puts at mirror (r, c). */
    function MappedPixel(r: int, c: int): (p: Point)
      requires Valid() && 0 <= r < geom.rows && 0 <= c < geom.cols
      ensures p == RealSpace(geom, flip, r, c) && InReal(geom, p)
    {
      MappedAt(geom, flip, r, c);
      mapped[r * geom.cols + c]
    }

    /** updateDmdArray: every mirror takes the colour of its real pixel; the
        real buffer is left as it is. */
    method UpdateDmdArray()
      requires Valid()
      modifies dmdArray
      ensures MirrorDerived()
    {
      forall r, c | 0 <= r < geom.rows && 0 <= c < geom.cols {
        dmdArray[r, c] := realArray[MappedPixel(r, c).0, MappedPixel(r, c).1];
      }
    }

    /** loadRealImage: an image of exactly real_ncols x real_nrows pixels
        replaces the real buffer and the mirrors are re-derived; any other
        size fails its assertion and changes nothing. `bands` is the number
        of bands of the image's mode (3 for 'RGB', 1 for 'L', 'P' and '1', 4
        for 'RGBA'); `image` holds its pixels when the mode has three bands,
        as 'RGB', 'YCbCr', 'LAB' and 'HSV' do. An array of any other number
        of bands does not fit the buffer's three channels, and the assignment
        raises before writing anything. */
    method LoadRealImage(image: array2<Color>, bands: nat) returns (res: Outcome)
      requires Valid()
      modifies realArray, dmdArray
      ensures res.Pass? <==>
                image.Length0 == realArray.Length0 && image.Length1 == realArray.Length1 && bands == 3
      ensures res.Fail? && (image.Length0 != realArray.Length0 || image.Length1 != realArray.Length1) ==>
                res.error == AssertionError("Image size does not match DMD template size")
      ensures res.Fail? && image.Length0 == realArray.Length0 && image.Length1 == realArray.Length1 ==>
                res.error == BroadcastError
      ensures res.Fail? ==> unchanged(realArray) && unchanged(dmdArray)
      ensures res.Pass? ==>
                (forall i, j :: 0 <= i < realArray.Length0 && 0 <= j < realArray.Length1 ==>
                   realArray[i, j] == old(image[i, j])) &&
                MirrorDerived()
    {
      if image.Length0 != realArray.Length0 || image.Length1 != realArray.Length1 {
        return Fail(AssertionError("Image size does not match DMD template size"));
      }
      if bands != 3 {
        return Fail(BroadcastError);
      }
      forall i, j | 0 <= i < realArray.Length0 && 0 <= j < realArray.Length1 {
        realArray[i, j] := image[i, j];
      }
      UpdateDmdArray();
      res := Pass;
    }

    /** The real pixel numpy writes for a listed point. */
    function Target(p: Point): Point
    {
      (WrapIndex(p.0, realArray.Length0), WrapIndex(p.1, realArray.Length1))
    }

    /** A point numpy can index the real buffer with. */
    predicate Indexable(p: Point)
    {
      -realArray.Length0 <= p.0 < realArray.Length0 && -realArray.Length1 <= p.1 < realArray.Length1
    }

    /** The real pixels the listed points name, in order. */
    function Targets(points: seq<Point>): (t: seq<Point>)
      requires realArray.Length0 == RealRows(geom) && realArray.Length1 == RealCols(geom)
      requires forall p :: p in points ==> Indexable(p)
      ensures |t| == |points|
      ensures forall k :: 0 <= k < |t| ==> t[k] == Target(points[k]) && InReal(geom, t[k])
    {
      assert forall k :: 0 <= k < |points| ==> Indexable(points[k]);
      seq(|points|, k requires 0 <= k < |points| => Target(points[k]))
    }

    /** The colour of a real pixel after the optional reset of drawPattern. */
    ghost function AfterReset(reset: bool, template: Color, before: Color, p: Point): Color
    {
      if !reset then before else if p in mapped then template else RED
    }

    /** drawPattern: parses the colour, optionally resets the frame to the
        template colour, writes the colour at every listed point (numpy
        index semantics, straight into real-space indices), repaints the
        background in `bgSpec`, and re-derives the mirrors. Each step that
        raises leaves the effects of the steps before it in place. */
    method DrawPattern(corr: CoordArray, colorSpec: ColorSpec, reset: bool,
                       templateSpec: Option<ColorSpec>, bgSpec: ColorSpec) returns (res: Outcome)
      requires Valid()
      modifies realArray, dmdArray
      // an unparsable colour or template changes nothing
      ensures ParseColor(colorSpec).Failure? ==>
                res == Fail(ParseColor(colorSpec).error) && unchanged(realArray) && unchanged(dmdArray)
      ensures ParseColor(colorSpec).Success? && reset &&
              ParseColor(TemplateSpec(templateSpec, ParseColor(colorSpec).value)).Failure? ==>
                res == Fail(ParseColor(TemplateSpec(templateSpec, ParseColor(colorSpec).value)).error) &&
                unchanged(realArray) && unchanged(dmdArray)
      // once the reset is done, the mirrors keep what it left until the end
      ensures ParseColor(colorSpec).Success? && res.Fail? && !reset ==> unchanged(dmdArray)
      ensures ParseColor(colorSpec).Success? && res.Fail? && reset &&
              ParseColor(TemplateSpec(templateSpec, ParseColor(colorSpec).value)).Success? ==>
                forall r, c :: 0 <= r < dmdArray.Length0 && 0 <= c < dmdArray.Length1 ==>
                  dmdArray[r, c] == ParseColor(TemplateSpec(templateSpec, ParseColor(colorSpec).value)).value
      // a malformed point list stops the drawing after the reset
      ensures ParseColor(colorSpec).Success? &&
              (!reset || ParseColor(TemplateSpec(templateSpec, ParseColor(colorSpec).value)).Success?) &&
              (corr.Flat? || exists p :: p in corr.points && !Indexable(p)) ==>
                res.Fail? && res.error.IndexError? &&
                forall i, j :: 0 <= i < realArray.Length0 && 0 <= j < realArray.Length1 ==>
                  realArray[i, j] == AfterReset(reset, ParseColor(TemplateSpec(templateSpec, ParseColor(colorSpec).value)).GetOr(RED),
                                                old(realArray[i, j]), (i, j))
      // a valid point list is drawn; an unparsable background colour stops there
      ensures ParseColor(colorSpec).Success? &&
              (!reset || ParseColor(TemplateSpec(templateSpec, ParseColor(colorSpec).value)).Success?) &&
              corr.Table? && (forall p :: p in corr.points ==> Indexable(p)) ==>
                (res.Pass? <==> ParseColor(bgSpec).Success?) &&
                (res.Fail? ==> res.error == ParseColor(bgSpec).error) &&
                forall i, j :: 0 <= i < realArray.Length0 && 0 <= j < realArray.Length1 ==>
                  realArray[i, j] ==
                    if res.Pass? && (i, j) in background then ParseColor(bgSpec).value
                    else if (i, j) in Targets(corr.points) then ParseColor(colorSpec).value
                    else AfterReset(reset, ParseColor(TemplateSpec(templateSpec, ParseColor(colorSpec).value)).GetOr(RED),
                                    old(realArray[i, j]), (i, j))
      ensures res.Pass? ==> MirrorDerived()
    {
      var parsed := ParseColor(colorSpec);
      if parsed.Failure? {
        return Fail(parsed.error);
      }
      var color := parsed.value;
      if reset {
        var r := SetRealArray(TemplateSpec(templateSpec, color));
        if r.Fail? {
          return r;
        }
      }
      if corr.Flat? {
        return Fail(IndexError("too many indices for array"));
      }
      var points := corr.points;
      if exists p :: p in points && !Indexable(p) {
        return Fail(IndexError("index out of bounds"));
      }
      Paint(Targets(points), color);
      var bgParsed := ParseColor(bgSpec);
      if bgParsed.Failure? {
        return Fail(bgParsed.error);
      }
      Paint(background, bgParsed.value);
      UpdateDmdArray();
      res := Pass;
    }
  }
}
