# DMD pattern generator: a verified model of its core

The program drives a digital micromirror device (DMD) of 1140 x 912 mirrors.
The mirrors sit on a rotated lattice. The program draws patterns in a
rectangular "real-space" image and maps every mirror to one pixel of that
image, then reads each mirror's colour back through that map. `utils.py`
holds four parts, and this project models each of them in Dafny:

- **Input validation** (`validation.dfy`, module `Validation`):
  - `parseColor` turns a scalar or a triple into a 24-bit RGB colour.
  - `parseRange` turns a count into `range(n)`.
  - `checkVector` accepts only two-component lattice vectors.
  - The exceptions these raise are values (`Error`, `Result`, `Outcome`).
- **The frame** (`mapping.dfy` and `frame.dfy`, modules `Mapping` and `DmdFrame`):
  - `realSpace` maps a mirror to a real-space pixel. `MirrorOf` is its inverse.
  - The constructor splits the real buffer into mapped pixels and background pixels.
  - The class `Frame` holds the real buffer and the mirror buffer as 2-D arrays.
  - `setRealArray`, `loadRealImage`, `updateDmdArray` and `drawPattern` change those buffers in place.
- **The painter** (`grid.dfy` and `painter.dfy`, modules `Grid` and `Painters`):
  - The integer shapes: circle, square, lines, cross, checkerboard, strips and half-planes. Each is a list of pixel coordinates on an `nrows x ncols` grid.
  - The array-of-shapes patterns, which loop over `parseRange` indices and join the shapes with `np.concatenate`.
  - Python's `range` and list comprehensions are modelled in `Grid`. A numpy coordinate array is `CoordArray`: `Flat` is the shape-(0,) array that `np.array([])` gives, and `Table` is an (N, 2) array.
- **Dithering** (`dither.dfy` and `dithered.dfy`, modules `Dither` and `DitheredPainting`):
  - `normalizePattern`, `cutoff`, `random` and `floyd_steinberg` work in place on a 2-D `real` array. Each one is proved against a function on the field it holds.
  - The class `DitheredPainter` picks its dithering method by name. It normalises the lattice intensity, dithers a copy of it and lists the pixels that end up at 1.

How the model treats numbers and devices:

- Fields are exact reals. The Floyd-Steinberg weights 7/16, 1/16, 5/16 and 3/16 are exact dyadic fractions, so they are the same numbers as in the source.
- `np.round` is written out as round-half-to-even.
- The device geometry is a parameter (`Geometry(rows, cols)`, rows and cols at least 1). The configured device is the constant `Mapping.DMD`.

## Model

| member | source | states |
|---|---|---|
| Validation.Inverse | utils.py:306-308 | the default template colour is the channel-wise complement of the pattern colour: each channel pair sums to 255 |
| Validation.ParseColor | utils.py:37-69 | a scalar is accepted exactly on [0, 255] and gives a grey: floor(255 x) on [0, 1] and floor(x) on (1, 255]; a list is accepted exactly with three items and an array exactly with shape (3,), each channel keeping its value modulo 256 (the uint8 cast); anything else fails; every failure is ValueError("Invalid color") |
| Validation.ParseColorRoundTrip | utils.py:59-62 | a colour that has already been parsed, passed again as an array or a list, parses to itself |
| Validation.ParseColorIntegers | utils.py:51-55 | the scalar 0 is black, 1 is white and an integer 2..255 is that grey level |
| Validation.ParseRange | utils.py:17-35 | a count n >= 0 becomes 0, 1, ..., n-1; a negative count fails its assertion; any other sequence passes through unchanged |
| Validation.ParseRangeIdempotent | utils.py:718-721 | parsing an already-parsed range again changes nothing, as drawCrosses does when it hands its parsed counts on |
| Validation.CheckVector | utils.py:71-90 | passes exactly for a list of length 2 or an array of shape (2,); a list or array of any other size fails its assertion; any other value raises ValueError |
| Mapping.DmdRealSize | utils.py:130-135 | the configured 1140 x 912 device has a real-space buffer of 1482 rows and 1481 columns |
| Mapping.RealSpace | utils.py:153-179 | every mirror in range lands inside the real buffer, for both flip settings; the pixel's anti-diagonal row + col equals row + cols - 1 without flip (rows - 1 - row + cols - 1 with flip), so it fixes the mirror row |
| Mapping.RealSpaceRoundTrip | utils.py:174-177 | MirrorOf undoes realSpace for every mirror index |
| Mapping.MirrorOfRoundTrip | utils.py:174-177 | realSpace undoes MirrorOf for every real-space pixel |
| Mapping.RealSpaceInjective | utils.py:174-177 | no two mirrors map to the same real pixel |
| Mapping.Mapped | utils.py:141-142 | the images of all rows * cols mirrors, in range and pairwise distinct |
| Mapping.MappedAt | utils.py:141-142 | the image of mirror (r, c) sits at flat position r * cols + c of the mirror list, in the row-major order of the flattened meshgrid |
| Mapping.MappedRowsAt | utils.py:141-142 | in the images of the first n mirror rows, listed row after row, mirror (r, c) sits at position r * cols + c |
| Mapping.RowMajorEntry | utils.py:141-142 | entry k of that listing is the image of mirror (k // cols, k % cols), as in the flattened `indexing='ij'` meshgrid |
| Mapping.MappedMembership | utils.py:144-145 | a real pixel is mapped exactly when the mirror it comes from exists |
| Mapping.RealIndices | utils.py:147 | the flattened real meshgrid lists every real pixel exactly once |
| Mapping.GridPoints | utils.py:147 | the flattened m x n meshgrid has m * n entries, lists no point twice, and lists exactly the points with 0 <= i < m and 0 <= j < n |
| Mapping.Background | utils.py:144-148 | the background pixels are distinct and are exactly the real pixels that no mirror maps to |
| Mapping.PartitionComplete | utils.py:150 | the background count plus the mapped count equals real_nrows * real_ncols |
| Mapping.ConstructionCheck | utils.py:150-151 | the constructor's pixel-count check never raises, for any geometry and either flip setting |
| DmdFrame.Frame.constructor | utils.py:130-151 | a red real buffer of real_nrows x real_ncols, a black mirror buffer of rows x cols, and the mapped/background partition, whose counts fill the real buffer |
| DmdFrame.Frame.SetRealArray | utils.py:181-199 | succeeds exactly when the colour parses, and then leaves every mapped pixel and every mirror in that colour and every background pixel red, so each mirror still shows its real pixel; a rejected colour changes neither buffer |
| DmdFrame.Frame.Paint | utils.py:193 | fancy-index assignment: the listed pixels take the colour and every other pixel keeps its value |
| DmdFrame.Frame.MappedPixel | utils.py:255 | the entry the reshape puts at mirror (r, c) is realSpace(r, c), inside the real buffer |
| DmdFrame.Frame.UpdateDmdArray | utils.py:249-255 | afterwards every mirror (r, c) holds the real pixel realSpace(r, c); the real buffer is not touched (outside its modifies clause) |
| DmdFrame.Frame.LoadRealImage | utils.py:236-247 | a 3-band image (such as 'RGB') of exactly the real buffer's size replaces the real buffer and the mirrors are re-derived from it; any other size fails its assertion, and a same-size image with another number of bands fails with numpy's broadcast ValueError; a failure changes nothing |
| DmdFrame.DefaultColors | utils.py:279-284 | drawPattern's default pattern colour 1 is white, its default background is red, and its default template (none given) is the complement of white, black |
| DmdFrame.Frame.Targets | utils.py:312 | each listed point names the real pixel numpy writes, a negative index counting from the end |
| DmdFrame.Frame.DrawPattern | utils.py:279-318 | an unparsable colour or template changes nothing; with reset, mapped pixels take the template colour (by default the complement) and the background turns red; a shape-(0,) or out-of-range point list raises IndexError after the reset; otherwise every listed pixel takes the colour, then every background pixel takes the background colour (also a listed one), and the mirrors are re-derived; an unparsable background colour stops before that repaint |
| Grid.FromList | utils.py:472 | np.array of a point list lists those points; it is the shape-(0,) array exactly when the list is empty |
| Grid.Range | utils.py:469-470 | range(lo, hi) holds lo, lo + 1, ..., hi - 1, and nothing when hi <= lo |
| Grid.StepRange | utils.py:930 | range(start, stop, step) holds start + k * step for each k while short of stop, and stops at the first value past the stop |
| Grid.RowMajor | utils.py:469-471 | the nested comprehension holds exactly the (i, j) with i in the rows, j in the columns and the condition true |
| Grid.RowMajorOrdered | utils.py:1125-1127 | over increasing rows and columns, the comprehension lists its points in strictly increasing row-major order, as the masked flattened meshgrid does |
| Grid.ColumnMajor | utils.py:539 | the comprehension with the column loop outside holds exactly the (i, j) with i in the rows, j in the columns and the condition true |
| Grid.Filter | utils.py:148 | boolean-mask selection keeps exactly the items that pass, never lengthens the list, and keeps it free of repeats |
| Painters.FloorDiv | utils.py:798-799 | numpy's integer `//`: floor division for a non-zero divisor, and 0 for a zero divisor |
| Painters.Concatenate | utils.py:518 | np.concatenate succeeds exactly for a non-empty list of arrays that are all shape (0,) or all shape (N, 2), and then lists their points in order |
| Painters.Gather | utils.py:510-518 | the non-empty shapes joined: this succeeds exactly when some shape has a pixel, and otherwise raises "need at least one array to concatenate" |
| Painters.NonEmpty | utils.py:516-517 | the shapes the loop appends are those with a pixel, and together they list the same points as all the shapes |
| Painters.NonEmptyGather | utils.py:517-518 | concatenating the appended shapes is Gather of all the shapes |
| Painters.DrawCircle | utils.py:442-472 | exactly the grid pixels within the radius of the shifted centre (nrows // 2 + row_offset, ncols // 2 + col_offset); none for a negative radius; the shape-(0,) array exactly when there is no such pixel |
| Painters.CircleRadiusZero | utils.py:466-471 | a circle of radius 0 draws the centre and no other pixel when the centre is on the grid, and nothing otherwise |
| Painters.DrawSquare | utils.py:802-826 | exactly the grid pixels of the box of half side `radius` around the shifted centre |
| Painters.CircleInSquare | utils.py:821-824 | every pixel of a circle lies in the square with the same centre and radius |
| Painters.DrawHorizontalLine | utils.py:520-540 | exactly the grid pixels whose row is within half_width of the shifted centre row, in every column |
| Painters.DrawVerticalLine | utils.py:542-562 | exactly the grid pixels whose column is within half_width of the shifted centre column, in every row |
| Painters.DrawCross | utils.py:564-584 | the cross succeeds exactly when both lines are empty or both are not; it is then the union of the two lines; otherwise it fails with the dimension mismatch |
| Painters.PairPoints | utils.py:583 | two arrays joined list the points of both |
| Painters.DrawAngledLine | utils.py:667-675 | at an angle of 0 (mod 180) it is the horizontal line, and at 90 (mod 180) the vertical line, through the same offsets |
| Painters.DrawCheckerBoard | utils.py:782-800 | always an (N, 2) array of exactly the grid pixels whose row block and column block (blocks of `size`) differ in parity |
| Painters.CheckerBoardAlternates | utils.py:798-799 | moving `size` columns along a row switches between selected and not selected |
| Painters.NextBlockParity | utils.py:798-799 | the block `size` pixels further along has the other parity |
| Painters.DrawHorizontalStrip | utils.py:869-889 | fails with "Row offset out of range" unless 0 <= top < nrows - width; otherwise exactly rows top .. top + width - 1 across the grid |
| Painters.DrawVerticalStrip | utils.py:891-911 | fails with "Column offset out of range" unless 0 <= left < ncols - width; otherwise exactly columns left .. left + width - 1 down the grid |
| Painters.DrawHorizontalHalfPlane | utils.py:953-973 | fails unless the top row is on the grid; otherwise exactly the grid rows from the top row down |
| Painters.DrawVerticalHalfPlane | utils.py:975-995 | fails unless the left column is on the grid; otherwise exactly the grid columns from the left column on |
| Painters.LatticeArrayErrors | utils.py:508-518 | a negative count fails its assertion; once both counts parse, the only failure is that every shape is empty; a success is an (N, 2) array |
| Painters.LatticeArrayMembership | utils.py:510-518 | the array is the union of the shapes at the nodes (i * row_spacing + row_offset, j * col_spacing + col_offset), and it exists as soon as one node draws a pixel |
| Painters.ArrayOfStampsMembership | utils.py:474-518 | a pixel of drawArrayOfCircles (drawArrayOfSquares) lies in the circle (square) around some node, and every such pixel is drawn |
| Painters.CollectLattice | utils.py:510-517 | the nested loop leaves in corr exactly the non-empty shapes of the lattice, row by row |
| Painters.CollectRow | utils.py:511-517 | the inner loop appends the non-empty shapes of one lattice row to those kept so far |
| Painters.DrawLattice | utils.py:508-518 | drawArrayOfCircles / drawArrayOfSquares compute the parse, loop and concatenate that LatticeArray specifies |
| Painters.DrawArrayOfCircles | utils.py:474-518 | the lattice array with a circle at every node |
| Painters.DrawArrayOfSquares | utils.py:828-867 | the lattice array with a square at every node |
| Painters.LinesArrayMembership | utils.py:586-614 | the array of lines is the union of the lines at the offsets i * spacing + offset; it exists as soon as one line is on the grid, and otherwise there is nothing to concatenate |
| Painters.DrawLines | utils.py:607-614 | the loop parses the count, keeps the non-empty lines and concatenates them, as LinesArray specifies |
| Painters.DrawHorizontalLines | utils.py:586-614 | the array of horizontal lines at the parsed row indices |
| Painters.DrawVerticalLines | utils.py:616-644 | the array of vertical lines at the parsed column indices |
| Painters.JoinLines | utils.py:720-723 | two (N, 2) arrays always join, and the first exception wins |
| Painters.DrawCrosses | utils.py:684-723 | parses nx then ny, draws the horizontal lines at the ny offsets and the vertical lines at the nx offsets, and joins them, as CrossesArray specifies |
| Painters.CrossesErrors | utils.py:718-723 | once both counts parse, drawCrosses fails only when a family of lines has nothing to concatenate |
| Painters.CrossesMembership | utils.py:684-723 | the crosses are the union of the horizontal lines at the row nodes and the vertical lines at the column nodes |
| Painters.CrossesParseErrors | utils.py:718-719 | a count that fails its assertion fails drawCrosses, nx before ny |
| Painters.Collect | utils.py:930 | a list comprehension whose items may raise gives all the items in order, or the first exception raised |
| Painters.StripsArraySuccess | utils.py:913-931 | with a positive width the strips exist exactly when the first one fits, 0 <= offset < extent - width; past the end nothing is left to concatenate; a negative offset fails the first strip's assertion |
| Painters.StripsNeedPositiveWidth | utils.py:930 | a width of 0 is a zero range step, which raises; a negative width never draws strips |
| Painters.StripsArrayMembership | utils.py:913-931 | the strips array is the union of the strips at the starts range(offset, extent - width, 2 * width) |
| Painters.StripsOutcome | utils.py:913-951 | the strips are drawn exactly when the width is positive and the first strip fits, and they are then the union of the strips at the starts |
| Painters.StripsDisjoint | utils.py:930 | two strip starts are at least 2 * width apart, so no pixel lies in two strips |
| Painters.DrawHorizontalStrips | utils.py:913-931 | succeeds exactly when width > 0 and 0 <= row_offset < nrows - width; a zero width raises the range error; on success, the union of the horizontal strips |
| Painters.DrawVerticalStrips | utils.py:933-951 | succeeds exactly when width > 0 and 0 <= col_offset < ncols - width; a zero width raises the range error; on success, the union of the vertical strips |
| Painters.DrawAnchorCircles | utils.py:997-1022 | the loop appends every anchor's circle, empty or not, and concatenates them |
| Painters.AnchorCirclesSuccess | utils.py:1017-1022 | succeeds exactly when there is an anchor and the circles are all on the grid or all off it |
| Painters.AnchorCirclesErrors | utils.py:1017-1022 | no anchor leaves nothing to concatenate; otherwise the only failure is a mix of shape-(0,) and (N, 2) arrays |
| Painters.AnchorCirclesMembership | utils.py:997-1022 | the anchor circles are the union of the circles around the anchors |
| Painters.DrawAnchorCirclesWithBackgroundCircles | utils.py:1024-1057 | the background lattice of circles at nodes -20..19 on both axes, then the anchor circles, joined |
| Painters.BackgroundCircles | utils.py:1049-1056 | a pixel is a background pixel exactly when it lies within bg_radius of some node (i * bg_spacing, j * bg_spacing) with -20 <= i, j < 20 |
| Painters.AnchorsWithBackgroundMembership | utils.py:1049-1057 | the pattern is the union of the background circles and the anchor circles |
| Dither.FieldMax | utils.py:336 | image.max() is at least every cell and is attained by some cell |
| Dither.FieldMin | utils.py:337 | image.min() is at most every cell and is attained by some cell |
| Dither.Normalized | utils.py:336-341 | every cell is rescaled by the same map, min to 0 and max to 1 |
| Dither.NormalizedRange | utils.py:336-341 | every normalised cell lies in [0, 1] |
| Dither.NormalizedExtremes | utils.py:338-341 | a constant field becomes all zeros; otherwise the minimum cells become exactly 0 and the maximum cells exactly 1 |
| Dither.NormalizedMonotone | utils.py:341 | normalisation keeps the order of the cells |
| Dither.NormalizePattern | utils.py:327-341 | an empty array raises the empty-reduction ValueError and is left unchanged; otherwise the array now holds the normalised field |
| Dither.CutoffBinary | utils.py:396-398 | a thresholded cell is 0 or 1, and it is 1 exactly when the input reached the threshold |
| Dither.CutoffIdempotent | utils.py:396-398 | thresholding the result again at a threshold in (0, 1] changes nothing |
| Dither.Cutoff | utils.py:382-399 | the array now holds the thresholded field |
| Dither.RandomCertain | utils.py:414-416 | with draws in [0, 1) the result is 0 or 1; a cell at or above 1 always becomes 1, and a cell at or below 0 always becomes 0 |
| Dither.RandomDither | utils.py:402-417 | the array now holds, cell by cell, 1 where the cell exceeded its draw and 0 elsewhere |
| Dither.Round | utils.py:365 | np.round gives an integer within 1/2 of its argument |
| Dither.RoundHalfToEven | utils.py:365 | a value exactly halfway between two integers rounds to the even one of the two |
| Dither.RoundNearest | utils.py:365 | any other value rounds to the integer strictly within 1/2 of it |
| Dither.RoundTies | utils.py:365 | examples of ties: 0.5 to 0, 1.5 to 2, -0.5 to 0 |
| Dither.PartialNext | utils.py:370-377 | each neighbour update adds its share of the error to its target when the bounds test admits it, and changes nothing else |
| Dither.ReceivedAll | utils.py:370-377 | the four updates under floyd_steinberg's own bounds tests: 7/16 right, 1/16 down-right, 5/16 down, 3/16 down-left |
| Dither.StepCells | utils.py:364-377 | one visit sets the cell to its rounded value, adds each admitted neighbour's share of the error, and keeps every other cell |
| Dither.StepKeepsBefore | utils.py:370-377 | a visit changes no cell that comes before it in raster order |
| Dither.StepRounds | utils.py:364-366 | a visit sets the visited cell to its rounded value |
| Dither.VisitedFinal | utils.py:362-377 | once visited, a cell never changes again in the rest of the scan |
| Dither.DiffuseKeeps | utils.py:370-377 | the visit of (y, x) keeps every cell before it |
| Dither.KeepsPrevious | utils.py:362-377 | going back one visit, to the previous column or to the end of the row above, leaves every earlier cell unchanged |
| Dither.FloydSteinbergCell | utils.py:345-379 | each output cell is the rounding of the value the cell had accumulated when the scan reached it: an integer within 1/2 of that value |
| Dither.KeptAndLost | utils.py:370-377 | the shares kept on the field and the shares turned away by the bounds tests add up to the whole error |
| Dither.CellChangeSum | utils.py:370-377 | changing one cell changes the field's total by the difference |
| Dither.PartialSum | utils.py:364-377 | after the rounding and the first k updates, the total has lost the error and regained the shares kept so far |
| Dither.PartialNextSum | utils.py:370-377 | each admitted update adds its share to the total, and a turned-away one adds nothing |
| Dither.StepSum | utils.py:364-377 | one visit removes from the total exactly the part of its error that falls off the field |
| Dither.Conservation | utils.py:361-377 | the input's total minus the output's total is the sum, over the visits, of each error times the weights of its off-field neighbours |
| Dither.SumPrevious | utils.py:361-377 | one visit lowers the total by exactly what it discards at the border, and the end of a row changes nothing |
| Dither.AddShare | utils.py:370-377 | one guarded `+=` performs the matching neighbour update on the array |
| Dither.Visit | utils.py:364-377 | one iteration of the inner loop performs one visit on the array |
| Dither.SpreadError | utils.py:370-377 | the four guarded updates push the error to the admitted neighbours |
| Dither.SpreadRight | utils.py:370-373 | the updates to the right and down-right |
| Dither.SpreadBelow | utils.py:374-377 | the updates down and down-left |
| Dither.FloydSteinberg | utils.py:345-379 | the array now holds the field after visiting every cell in raster order |
| DitheredPainting.SelectDither | utils.py:1063-1070 | a known name selects the method of that name; any other name raises ValueError("Invalid dithering method"), and then no method has that name |
| DitheredPainting.SelectDitherRoundTrip | utils.py:1063-1070 | each method is selected by its own name |
| DitheredPainting.OnesOf | utils.py:1126-1127 | the listed coordinates are exactly the cells equal to 1, in strictly increasing row-major order |
| DitheredPainting.CutoffLatticePoints | utils.py:1120-1127 | with cutoff, the pattern lists exactly the pixels whose normalised intensity reaches 1/2 |
| DitheredPainting.FloydSteinbergLatticePoints | utils.py:1120-1127 | with Floyd-Steinberg, the pattern lists exactly the pixels whose accumulated value rounds to 1 when the scan reaches them |
| DitheredPainting.ConstantIntensityEmpty | utils.py:1120-1127 | a constant intensity normalises to zeros, so cutoff, and random with draws in [0, 1), switch no pixel on |
| DitheredPainting.CopyOf | utils.py:1123 | image.copy() is a new array with the same cells |
| DitheredPainting.ApplyDither | utils.py:1123 | the chosen method turns the array into the field that method specifies |
| DitheredPainting.DitheredPainter.constructor | utils.py:1072-1074 | both patterns start as separate nrows x ncols arrays of zeros |
| DitheredPainting.DitheredPainter.FinishLattice | utils.py:1120-1127 | the pattern holds the normalised intensity, the binary pattern holds a separate dithered copy, and the result lists the pixels equal to 1; an empty grid raises the empty-reduction ValueError after the pattern has been replaced, and keeps the old binary pattern |
| DitheredPainting.DitheredPainter.Draw1dLattice | utils.py:1096-1127 | a bad lattice vector raises first and changes nothing; otherwise the lattice is finished as above: a fresh pattern, a fresh binary pattern on success, and the old binary pattern kept when the empty grid raises |
| DitheredPainting.DitheredPainter.Draw2dLattice | utils.py:1129-1177 | the first lattice vector is checked, then the second; either failure changes nothing; otherwise the lattice is finished as above: a fresh pattern, a fresh binary pattern on success, and the old binary pattern kept when the empty grid raises |
| DitheredPainting.NewDitheredPainter | utils.py:1060-1074 | an unknown method name raises first; a negative size then raises from np.zeros; otherwise a valid painter of that size with the named method, whose pattern and binary pattern are fresh arrays of zeros |

## Left out

- `getTemplateImage` (utils.py:201-234) draws text with a TrueType font through PIL. It is cosmetic and needs a font file.
- `saveDmdArrayToImage` (utils.py:257-277) writes BMP files and prints. It is file I/O.
- `displayPattern` (utils.py:1076-1094) is matplotlib plotting.
- `simulateImage` (utils.py:320-322) is unfinished and returns nothing.
- The lattice intensity of `draw1dLattice` and `draw2dLattice` is a sum of floating-point cosines. It is a parameter (`intensity`) of `Draw1dLattice` and `Draw2dLattice`. The model covers everything after it: the vector checks, normalisation, dithering and collecting the ones.
- `Dither.random` draws from an unseeded random generator. The draws are a parameter (`draws`) of `RandomDither` and of the lattice methods.
- `drawAngledLine` at angles other than multiples of 90 degrees, `drawAngledCross` and `drawStar` use sin, cos and atan2 on floats. `DrawAngledLine` requires an angle of 0 or 90 modulo 180.
- The `numba` `@jit` decorator on `floyd_steinberg` does not change its behaviour.
- Floating point: every field is an exact real. Rounding errors of float64 arithmetic, NaN and infinities are not modelled.
- Dither.FloydSteinbergCell: the output cells are integers within 1/2 of the accumulated values, but they are not proved to be 0 or 1. Near the borders of [0, 1] `np.round` can give -0 or 2.
- DitheredPainting.ConstantIntensityEmpty: covers cutoff and random only. For Floyd-Steinberg on an all-zero field the result is not stated.
- Validation.ParseColor: the range check of the list/array branch (utils.py:61) runs after the uint8 cast and can never fail. Only the shape check is modelled. A list or array holds integers; float items and nested lists are not modelled.
- Values of the wrong Python type (a string count, a float radius, a bool colour) are not modelled. Integer parameters are `int`, and colour arguments are the `ColorSpec` cases.
- `Frame(flip=FLIP)` and `drawPattern(color=1, reset=True, template_color=None, bg_color=[255, 0, 0])` have default arguments (utils.py:15, 93, 279-284). In the model every argument is an explicit parameter; the defaults are the constants `Mapping.DmdFlip`, `DmdFrame.DefaultColor`, `DefaultReset`, `DefaultTemplate` and `DefaultBackground`.
- DmdFrame.Frame.LoadRealImage: a PIL image is given as its pixel array plus its number of bands. A 3-band image, such as 'RGB', is loaded. A single-band image whose (H, W) array happens to broadcast into the (H, W, 3) buffer is treated as failing. That needs a real buffer 1 or 3 columns wide, which the configured device does not have.
- Mapping.DMD: the source hard-codes the 1140 x 912 device (utils.py:11-12). The model proves the mapping facts for every geometry with at least one row and one column, and `DmdRealSize` gives the configured sizes.
- The `Painter` constructor (utils.py:420-440) only stores `nrows` and `ncols`. It is the datatype `Painters.Painter`.
- The `rows` and `cols` meshgrid fields of `DitheredPainter` (utils.py:1074) are not stored. `OnesOf` lists the masked meshgrid coordinates directly.
- DmdFrame.Frame.DrawPattern: `corr` is a coordinate array of shape (0,) or (N, 2). Arrays of other shapes or of non-integer entries are not modelled.
