/** Shared input validation: colours, index ranges and lattice vectors, with the
    exceptions the program raises modelled as values. */
module Validation {

  /** The Python exception classes the core raises, with their messages. */
  datatype Error =
    | ValueError(message: string)
    | AssertionError(message: string)
    | IndexError(message: string)

  datatype Result<+T> = Success(value: T) | Failure(error: Error) {
    function GetOr(default: T): T { if Success? then value else default }
  }

  datatype Option<+T> = None | Some(value: T)

  /** Outcome of an operation that returns nothing or raises. */
  datatype Outcome = Pass | Fail(error: Error)

  /** One channel of a 24-bit colour (numpy uint8). */
  type byte = x: int | 0 <= x < 256

  datatype Color = RGB(r: byte, g: byte, b: byte)

  function Gray(level: byte): Color { RGB(level, level, level) }

  /** Fixed colour of real-space pixels that no mirror maps to. */
  const RED: Color := RGB(255, 0, 0)

  /** Channel-wise complement, `np.array([255, 255, 255]) - color`. */
  function Inverse(c: Color): (r: Color)
    ensures r.r + c.r == 255 && r.g + c.g == 255 && r.b + c.b == 255
  {
    RGB(255 - c.r, 255 - c.g, 255 - c.b)
  }

  /** The value converted by `astype(np.uint8)`: integers wrap modulo 256. */
  function Uint8(x: int): byte { x % 256 }

  /** The Python values that reach the colour parser. Integers and floats
      are both `Scalar`; a list of integers is `List`; a numpy integer
      array is `NdArray` with its shape and its items in row-major order;
      anything else (a tuple, a string, None) is `Other`. */
  datatype ColorSpec =
    | Scalar(x: real)
    | List(items: seq<int>)
    | NdArray(shape: seq<nat>, items: seq<int>)
    | Other

  /** The specification a caller builds from a colour: the array `[r, g, b]`. */
  function AsSpec(c: Color): ColorSpec { NdArray([3], [c.r, c.g, c.b]) }

  /** Normalises a colour argument to a 24-bit RGB triple: a scalar in
      [0, 1] is a grey fraction of 255, a scalar in (1, 255] a grey level,
      a length-3 list or a shape-(3,) array a triple (after the uint8 cast). */
  function ParseColor(spec: ColorSpec): (res: Result<Color>)
    // scalars: accepted exactly on [0, 255]; always a grey
    ensures spec.Scalar? ==> (res.Success? <==> 0.0 <= spec.x <= 255.0)
    ensures spec.Scalar? && res.Success? ==> res.value.r == res.value.g == res.value.b
    // the grey level is floor(255 x) on [0, 1] and floor(x) on (1, 255]
    ensures spec.Scalar? && 0.0 <= spec.x <= 1.0 ==>
              res.value.r as real <= 255.0 * spec.x < res.value.r as real + 1.0
    ensures spec.Scalar? && 1.0 < spec.x <= 255.0 ==>
              res.value.r as real <= spec.x < res.value.r as real + 1.0
    // sequences: accepted exactly when they hold three items, which keep
    // their value modulo 256
    ensures spec.List? ==> (res.Success? <==> |spec.items| == 3)
    ensures spec.NdArray? ==> (res.Success? <==> spec.shape == [3] && |spec.items| == 3)
    ensures (spec.List? || spec.NdArray?) && res.Success? ==>
              (res.value.r - spec.items[0]) % 256 == 0 &&
              (res.value.g - spec.items[1]) % 256 == 0 &&
              (res.value.b - spec.items[2]) % 256 == 0
    ensures spec.Other? ==> res.Failure?
    ensures res.Failure? ==> res.error == ValueError("Invalid color")
  {
    match spec
    case Scalar(x) =>
      if 0.0 <= x <= 1.0 then Success(Gray((255.0 * x).Floor))
      else if 0.0 <= x <= 255.0 then Success(Gray(x.Floor))
      else Failure(ValueError("Invalid color"))
    case List(items) =>
      if |items| == 3 then Success(RGB(Uint8(items[0]), Uint8(items[1]), Uint8(items[2])))
      else Failure(ValueError("Invalid color"))
    case NdArray(shape, items) =>
      // the uint8 cast keeps the shape; only a shape of (3,) passes
      if shape == [3] && |items| == 3 then Success(RGB(Uint8(items[0]), Uint8(items[1]), Uint8(items[2])))
      else Failure(ValueError("Invalid color"))
    case Other =>
      Failure(ValueError("Invalid color"))
  }

  /** Parsing a colour that is already a byte triple gives it back unchanged,
      so a parsed colour can be handed to the parser again. */
  lemma ParseColorRoundTrip(c: Color)
    ensures ParseColor(AsSpec(c)) == Success(c)
    ensures ParseColor(List([c.r, c.g, c.b])) == Success(c)
  {
  }

  /** The scalars 0 and 1 are black and white; an integer 2..255 is that grey. */
  lemma ParseColorIntegers(n: int)
    requires 0 <= n <= 255
    ensures ParseColor(Scalar(n as real)) ==
              Success(if n == 0 then Gray(0) else if n == 1 then Gray(255) else Gray(n))
  {
  }

  /** An argument of parseRange: an integer count, or any other sequence. */
  datatype RangeSpec = Count(n: int) | Items(xs: seq<int>)

  /** A count n becomes 0, 1, ..., n-1 (a negative count fails its
      assertion); anything else passes through unchanged. */
  function ParseRange(spec: RangeSpec): (res: Result<seq<int>>)
    ensures spec.Count? ==> (res.Success? <==> spec.n >= 0)
    ensures spec.Count? && res.Success? ==>
              |res.value| == spec.n && forall k :: 0 <= k < |res.value| ==> res.value[k] == k
    ensures spec.Items? ==> res == Success(spec.xs)
    ensures res.Failure? ==> res.error.AssertionError?
  {
    match spec
    case Count(n) =>
      if n >= 0 then Success(seq(n, k => k))
      else Failure(AssertionError("x must be a non-negative integer"))
    case Items(xs) => Success(xs)
  }

  /** Parsing the parsed range again changes nothing (the crosses pattern
      parses its counts twice). */
  lemma ParseRangeIdempotent(spec: RangeSpec)
    requires ParseRange(spec).Success?
    ensures ParseRange(Items(ParseRange(spec).value)) == ParseRange(spec)
  {
  }

  /** A lattice vector argument: a list, a numpy array with its shape, or
      anything else. */
  datatype VectorSpec = VectorList(items: seq<real>) | VectorArray(shape: seq<nat>) | NotAVector

  /** Accepts exactly two-component lists and shape-(2,) arrays. */
  function CheckVector(v: VectorSpec): (res: Outcome)
    ensures res.Pass? <==> (v.VectorList? && |v.items| == 2) || (v.VectorArray? && v.shape == [2])
    ensures res.Fail? && v.NotAVector? ==> res.error.ValueError?
    ensures res.Fail? && !v.NotAVector? ==> res.error.AssertionError?
  {
    match v
    case VectorList(items) =>
      if |items| == 2 then Pass else Fail(AssertionError("Lattice vector 1 must be a list of length 2"))
    case VectorArray(shape) =>
      if shape == [2] then Pass else Fail(AssertionError("Lattice vector 1 must be an array of shape (2,)"))
    case NotAVector =>
      Fail(ValueError("Lattice vector 1 must be a list or numpy array of shape (2,)"))
  }
}
