# pigo-wasm-demos: a Dafny model of the demos' sequential core

The repository is a set of browser face-effect demos written in Go and compiled to
WebAssembly. Each demo grabs webcam frames, runs the pigo face detector, and draws an
effect: blurred faces, a pixelated mosaic, triangulated faces, a face mask, a
blurred background, or masquerade masks. Most of the code is JavaScript and DOM
plumbing. This project models the parts that are self-contained sequential logic,
and proves what they compute.

- **Pixel-buffer conversions** (`Pixels`, after `pixels/image.go` and the copies in
  each canvas):
  - `RgbaToGrayscale` compacts an interleaved RGBA buffer into one luma byte per
    pixel, in place, on an `array`.
  - `ImgToPix` walks an image column by column and appends four bytes per pixel.
  - `PixToImage` fills a fresh `NrgbaImage` (a class over an `array`) through
    `SetNRGBA`, transposing the buffer.
  - The two conversions cancel on square, opaque buffers (`RoundTrip`).
- **Elliptical alpha mask** (`Ellipses`, after `draw/ellipse.go`): the bounding box
  and the point-in-ellipse test. `Float` values from `GoNumeric` model Go's
  division by a zero radius.
- **Variadic `min` / `max`** (`PixelateMath`, after `pixelate/math.go`).
- **Park–Miller generator and noise guard** (`PixelateSeed`, after
  `pixelate/seed.go`):
  - `Prng` is a class whose `RandomSeed` advances its state.
  - `NextLongRand` is Carta's 16-bit-split computation, proved equal to
    16807·seed mod (2^31 − 1).
  - `AddNoise` draws one value per pixel and applies the all-or-nothing guard.
- **Cell-averaging mosaic** (`PixelateDrawer`, after `pixelate/drawer.go`):
  - the cell-size choice and `imgRatio`;
  - the grid of cells, which is disjoint, covering and non-empty;
  - `getAvgColor`, whose running sums are proved to give the floor-average of
    each channel;
  - `Draw`'s nested cell loop, specified as the grid of per-cell paints.
- **Per-demo parameter state machines**:
  - `PixelateCanvas`, `FaceblurCanvas`, `TriangulateCanvas`, `FacemaskCanvas`,
    `BgblurCanvas` and `MasqueradeCanvas` each hold a `Canvas` class.
  - Its `DetectKeyPress` updates the fields the Go key handler updates.
  - It is proved against a pure `KeyPress` function, whose bounds, undo and
    involution properties are lemmas.
- **Per-demo `drawDetection` decisions**:
  - which detections are handled (`det[3] > 50`, as in `Detections`);
  - the processor sync in triangulate and facemask;
  - the blur region in faceblur;
  - the fresh `c.frame` that `pixToImage` leaves for each face handled in
    triangulate, facemask and faceblur;
  - the radii and gradient scale factors in bgblur;
  - the mask gating in masquerade.

Go's integer and float semantics are written out where they matter:
- `GoDiv` truncates toward zero.
- `TruncToInt` is `int(float64)`.
- `Quo` is float division, which can give ±Inf or NaN.
- `Byte` and `Word16` are the `uint8` and `uint16` ranges.
- `&` and `>>` on non-negative values are `%` and `/`.

`Images` holds the parts of Go's `image` and `image/color` packages that the core
relies on:
- `Rectangle.Intersect`;
- the `NRGBA.RGBA()` premultiplication formula;
- `image.NRGBA` with `SetNRGBA`.

## Model

| member | source | states |
|---|---|---|
| GoNumeric.TruncToInt | bgblur/canvas.go:263-264 | `int(f)` truncates toward zero: for f ≥ 0 the result is the largest integer ≤ f (and ≥ 0), for f < 0 the smallest integer ≥ f (and ≤ 0) |
| GoNumeric.GoDiv | bgblur/canvas.go:265 | Go's integer `/` agrees with floor division on a non-negative dividend and positive divisor |
| GoNumeric.Quo | bgblur/canvas.go:270-276 | float64 division of integers is finite exactly when the divisor is non-zero, and NaN exactly for 0/0 |
| Images.Rect.Intersect | pixelate/drawer.go:48-52 | the intersection contains exactly the points in both rectangles, and an empty intersection is `image.ZR` |
| Images.Premultiply | pixels/image.go:24 | the `NRGBA.RGBA()` channel of an opaque pixel is v·257 |
| Images.NrgbaImage.constructor | pixels/image.go:33 | `image.NewNRGBA` gives a w×h image whose pixels are all transparent black |
| Images.NrgbaImage.SetNRGBA | pixels/image.go:45 | an in-bounds `SetNRGBA` changes exactly pixel (x, y); out of bounds it changes nothing |
| Pixels.Luma | pixels/image.go:55-59 | the luma of a grey pixel is that grey, and every luma lies between the pixel's smallest and largest channel |
| Pixels.RgbaToGrayscale | pixels/image.go:52-63 | returns the same array; byte k becomes the luma of the original bytes 4k..4k+2 for k < dx·dy, and bytes from dx·dy on keep their values |
| Pixels.GrayscaleStep | pixels/image.go:53-60 | writing byte k never disturbs the bytes 4k' + c read by later pixels k' > k, so the in-place pass equals the pure compaction |
| Pixels.PixelBytes | pixels/image.go:25 | every pixel contributes exactly four bytes |
| Pixels.ColumnsLength | pixels/image.go:20-28 | the result of `ImgToPix` has length 4·Dx·Dy |
| Pixels.ColumnsAt | pixels/image.go:22-25 | pixel (i, j) lands at bytes 4·((i − Min.X)·Dy + (j − Min.Y)) .. +3, X outer and Y inner |
| Pixels.ImgToPix | pixels/image.go:18-29 | the appended bytes are the column-order byte sequence of the image |
| Pixels.TransposedAt | pixels/image.go:38-46 | the buffer pixel at row y, column k is stored at image point (X = y, Y = k) |
| Pixels.TransposedPixel | pixels/image.go:40-45 | reading image point (x, y) back gives all four channels of buffer pixel x·dim + y, alpha included |
| Pixels.StoredStep | pixels/image.go:40-45 | each `SetNRGBA` of the nested loop fills exactly the one cell that the transpose assigns to that buffer pixel |
| Pixels.SourceUnique | pixels/image.go:38-45 | every image cell has exactly one source pixel in the buffer |
| Pixels.StoredAll | pixels/image.go:38-47 | after the dim² steps the image is the full transpose of the buffer |
| Pixels.PixToImage | pixels/image.go:32-49 | requires 4·dim² bytes; returns a fresh dim×dim image holding the transpose of the buffer |
| Pixels.CopyIntoZeroed | triangulate/canvas.go:309-312 | `js.CopyBytesToGo` into a fresh `make([]byte, n)` gives n bytes: the source's bytes where it has them, 0 after its end |
| Pixels.OpaqueBytes | pixels/image.go:24-25 | an opaque pixel comes back from `RGBA()` and `>> 8` with its own four bytes |
| Pixels.RoundTrip | pixels/image.go:18-49 | for a square buffer whose alpha bytes are all 255, `ImgToPix(PixToImage(p, dim)) == p` |
| Ellipses.Ellipse.Bounds | draw/ellipse.go:20-30 | the box is 2Rx wide and 2Ry tall, centred on (Cx, Cy) |
| Ellipses.Ellipse.At | draw/ellipse.go:32-42 | only alpha 255 or alpha 0 is ever returned |
| Ellipses.AtIff | draw/ellipse.go:34-39 | a point is opaque exactly when (x−Cx)²/Rx² + (y−Cy)²/Ry² ≤ 1 with both radii non-zero |
| Ellipses.CentreOpaque | draw/ellipse.go:34-39 | the centre is opaque exactly when both radii are non-zero |
| Ellipses.Symmetric | draw/ellipse.go:34-35 | the mask is unchanged by reflecting x about Cx or y about Cy |
| Ellipses.OutsideClear | draw/ellipse.go:34-41 | a point with \|x−Cx\| > \|Rx\| or \|y−Cy\| > \|Ry\| is transparent |
| Ellipses.ZeroRadiusClear | draw/ellipse.go:34-38 | a zero radius makes the float sum +Inf or NaN, so the `<= 1` test fails |
| PixelateMath.Min | pixelate/math.go:6-15 | requires an argument; the result is one of the arguments and ≤ each of them |
| PixelateMath.Max | pixelate/math.go:18-27 | requires an argument; the result is one of the arguments and ≥ each of them |
| PixelateSeed.ParkMillerRange | pixelate/seed.go:53-61 | a state in [1, 2^31−2] maps into [1, 2^31−2], so the generator never reaches 0 |
| PixelateSeed.FoldStep | pixelate/seed.go:53-61 | `(lo & 0x7fffffff) + 1` on an overflowed lo is lo − (2^31 − 1) |
| PixelateSeed.CartaCorrect | pixelate/seed.go:48-63 | Carta's split computation equals 16807·seed mod (2^31 − 1) |
| PixelateSeed.GenStateRange | pixelate/seed.go:19-24 | every state reached from the initial state 1 stays in [1, 2^31−2] |
| PixelateSeed.Prng.constructor | pixelate/seed.go:19-24 | a fresh generator has a = 16807, m = 2^31 − 1 and state 1 |
| PixelateSeed.Prng.NextLongRand | pixelate/seed.go:48-63 | for 1 ≤ seed ≤ 2^31−2, the result is 16807·seed mod (2^31 − 1) |
| PixelateSeed.Prng.RandomSeed | pixelate/seed.go:66-69 | the state advances once by `nextLongRand`, a, m and div are untouched, and the result is state/(2^31−1) in (0, 1) |
| PixelateSeed.Guarded | pixelate/seed.go:33-37 | noise is added to R, G and B together or not at all, and it is added exactly when every \|channel + noise\| < 255 |
| PixelateSeed.NoiseStepsAt | pixelate/seed.go:26-28 | pixel (x, y) is the (x·Dy + y)-th visited, x outer and y inner, and its noise is the (x·Dy + y + 1)-th draw: randomSeed advances the generator from 1 before it returns, so the q-th pixel sees the state after q + 1 steps |
| PixelateSeed.NoisePixel | pixelate/seed.go:28-37 | one pixel advances the generator exactly once and applies the guard to that noise |
| PixelateSeed.AddNoise | pixelate/seed.go:17-45 | a fresh generator visits every pixel once, in column order, with the guarded noise |
| PixelateDrawer.Round | pixelate/drawer.go:111-113 | `math.Floor`: the result is the greatest integer ≤ x |
| PixelateDrawer.MinUint16 | pixelate/drawer.go:116-121 | the result is the smaller of the two arguments |
| PixelateDrawer.MaxUint16 | pixelate/drawer.go:124-129 | the result is the larger of the two arguments |
| PixelateDrawer.ToUint16 | pixelate/drawer.go:88-91 | the `uint16` conversion keeps every value in range |
| PixelateDrawer.ImgRatio | pixelate/drawer.go:23-31 | integer ratio of the longer to the shorter side, times the longer side: at least the longer side and at most longer²/shorter |
| PixelateDrawer.ImgRatioSquareSymmetric | pixelate/drawer.go:23-31 | a square image gives its side, and swapping width and height gives the same ratio |
| PixelateDrawer.CellSize | pixelate/drawer.go:33-37 | a non-zero csize is used unchanged; zero gives floor(imgRatio·0.015) |
| PixelateDrawer.ZeroCellSize | pixelate/drawer.go:33-47 | with csize 0, an image whose imgRatio is below 67 (40 × 40, say) gets cell size 0, on which the loop at line 46 never advances |
| PixelateDrawer.FloorOfFraction | pixelate/drawer.go:33-37 | `math.Floor` of a non-negative fraction is integer division |
| PixelateDrawer.StepsSpec | pixelate/drawer.go:46-47 | cell origins are exactly the multiples of cellSize below the image side |
| PixelateDrawer.NextStep | pixelate/drawer.go:46-47 | the loop's `x += cellSize` moves to the next origin and stops after the last one |
| PixelateDrawer.CellRectOk | pixelate/drawer.go:48-52 | each cell [x, x+cs)×[y, y+cs) clipped to the bounds is the grid cell and is never empty, so `image.ZR` is never drawn |
| PixelateDrawer.CellOwner | pixelate/drawer.go:48-52 | a point in cell (i, j) has i = x/cs and j = y/cs |
| PixelateDrawer.CellsDisjoint | pixelate/drawer.go:48-52 | two different cells share no point |
| PixelateDrawer.CellsCover | pixelate/drawer.go:46-52 | every image point lies in a cell the loop visits |
| PixelateDrawer.CellNonEmpty | pixelate/drawer.go:46-52 | every visited cell contains its origin and has positive width and height |
| PixelateDrawer.CellPixelsAt | pixelate/drawer.go:79-80 | the pixel walk of `getAvgColor` visits (x, y) at position (x−Min.X)·Dy + (y−Min.Y) |
| PixelateDrawer.CellPixelsIn | pixelate/drawer.go:79-80 | every visited pixel lies in the cell's bounds |
| PixelateDrawer.SumColumn | pixelate/drawer.go:80-85 | the inner loop adds one column of the cell to the running R, G and B sums |
| PixelateDrawer.SumPixel | pixelate/drawer.go:81-84 | adding pixel (x, y) extends each channel sum by that pixel's channel |
| PixelateDrawer.GetAvgColor | pixelate/drawer.go:73-94 | R, G and B are each the floor of the channel sum over the pixel count, and alpha is 255 |
| PixelateDrawer.SumBounds | pixelate/drawer.go:79-85 | a channel sum lies between count·min and count·max |
| PixelateDrawer.QuotientBetween | pixelate/drawer.go:88-91 | the floor quotient of such a sum lies between min and max |
| PixelateDrawer.AverageBetween | pixelate/drawer.go:88-91 | each average lies between the cell's smallest and largest channel value, so the min/max clamp does nothing |
| PixelateDrawer.AverageUniform | pixelate/drawer.go:79-93 | a cell of one colour averages to exactly that colour's R, G and B, with the alpha field 255 that getAvgColor sets (in an NRGBA64 that is not 0xffff; drawCell reads only R, G and B) |
| PixelateDrawer.GridLength | pixelate/drawer.go:46-57 | the nested loop makes nx·ny cells |
| PixelateDrawer.GridAt | pixelate/drawer.go:46-57 | the (i, j)-th cell is the (i·ny + j)-th painted, x outer and y inner |
| PixelateDrawer.PaintsAt | pixelate/drawer.go:46-58 | the mosaic paints cell (i, j) at position i·Steps(dy) + j, as `drawCell(x, y, cellSize, colour)` with the unclipped origin (i·cellSize, j·cellSize) and side cellSize; only the colour comes from the clipped rectangle, as its average |
| PixelateDrawer.Draw | pixelate/drawer.go:19-63 | the cell size is chosen as `CellSize`, and the cells painted are the whole grid in loop order |
| PixelateDrawer.PaintColumn | pixelate/drawer.go:47-57 | the inner loop paints column i of the grid, top to bottom |
| PixelateDrawer.PaintCell | pixelate/drawer.go:48-58 | one cell is painted at its unclipped origin with side cellSize, in the average colour of its rectangle clipped to the image bounds |
| Detections.ConfidentIndicesSpec | triangulate/canvas.go:299-302 | the faces handled are exactly those with `det[3] > 50`, each once, in order (soundness and order are already in the function's contract; this adds completeness) |
| Detections.ConfidentIndices | triangulate/canvas.go:299-302 | at most one index per detection; each index names a detection with `det[3] > 50`, and the indices increase |
| PixelateCanvas.KeyPress | pixelate/canvas.go:314-346 | every key keeps numOfColors in [2, 33] and cellSize in [8, 31] |
| PixelateCanvas.RunInRange | pixelate/canvas.go:314-346 | from any state in range, every key sequence stays in range |
| PixelateCanvas.ReachableCellSize | pixelate/canvas.go:332-339 | from the defaults (cell size 10), every key sequence leaves a cellSize that `quant.Draw` uses unchanged and that is never 0 |
| PixelateCanvas.RepeatMoreColors | pixelate/canvas.go:324-327 | repeated "=" raises numOfColors by one per press up to 33, then stops |
| PixelateCanvas.TogglesInvolutive | pixelate/canvas.go:318-323 | "s", "f" and "n" each flip one flag, and pressing twice restores the state |
| PixelateCanvas.StepsUndo | pixelate/canvas.go:324-339 | "=" then "-", and "]" then "[", restore the state inside the bounds |
| PixelateCanvas.OtherKeys | pixelate/canvas.go:340-341 | any other key only clears showFrame |
| PixelateCanvas.Canvas.constructor | pixelate/canvas.go:65-92 | the canvas starts at 640×480 with colours 8, cell size 10 and every flag off |
| PixelateCanvas.Canvas.DetectKeyPress | pixelate/canvas.go:314-346 | the handler updates the fields as `KeyPress` does, and keeps them in range |
| PixelateCanvas.Canvas.RgbaToGrayscale | pixelate/canvas.go:197-209 | the same in-place compaction over width·height pixels |
| PixelateCanvas.Canvas.PixToImage | pixelate/canvas.go:212-234 | `c.frame` becomes the transpose of the dim×dim buffer, alpha copied |
| PixelateCanvas.Canvas.ImgToPix | pixelate/canvas.go:237-248 | four bytes per pixel in column order, with alpha forced to 255 |
| FaceblurCanvas.KeyPress | faceblur/canvas.go:339-363 | every key keeps blurRadius in [5, 51] |
| FaceblurCanvas.RunInRange | faceblur/canvas.go:339-363 | from any state in range, every key sequence keeps blurRadius in [5, 51] |
| FaceblurCanvas.TogglesInvolutive | faceblur/canvas.go:343-348 | "s", "f" and "b" each flip one flag, and pressing twice restores the state |
| FaceblurCanvas.OtherKeys | faceblur/canvas.go:357-358 | any other key only clears showFrame |
| FaceblurCanvas.Region | faceblur/canvas.go:265-281 | the region has side scale and its mask is centred on (det[1], det[0]); for a non-negative scale the square holds that centre and the mask is at least as wide as it is tall |
| FaceblurCanvas.PlanSpec | faceblur/canvas.go:258-336 | a detection is handled exactly when `det[3] > 50`, once, in order, and blurred exactly when isBlured is set |
| FaceblurCanvas.Plan | faceblur/canvas.go:258-264 | no more decisions than detections, each for a detection with `det[3] > 50`; that each such detection gets exactly one, in order, is `PlanSpec` |
| FaceblurCanvas.Canvas.constructor | faceblur/canvas.go:56-80 | the canvas starts at 1024×640 with blur radius 20, blurring on, and frame and pupils off |
| FaceblurCanvas.Canvas.DetectKeyPress | faceblur/canvas.go:339-363 | the handler updates the fields as `KeyPress` does, and keeps them in range |
| FaceblurCanvas.Canvas.DrawDetection | faceblur/canvas.go:258-336 | the work done is the plan for the detections under the current settings; when isBlured, each handled face replaces `c.frame`, so afterwards it is a fresh scale × scale image of the last one (unchanged when no face is blurred) |
| FaceblurCanvas.Canvas.HandleFace | faceblur/canvas.go:260-330 | the loop body for one confident detection: its work is `Work` of the current settings (blur region only when isBlured), the settings are unchanged, and when isBlured `c.frame` becomes a fresh scale×scale image, otherwise it stays |
| FaceblurCanvas.Canvas.FaceFrame | faceblur/canvas.go:269-285 | one blurred face: its region bytes, copied into a scale·scale·4 buffer, become a fresh scale × scale `c.frame`; the settings are unchanged |
| FaceblurCanvas.Canvas.RgbaToGrayscale | faceblur/canvas.go:199-211 | byte k becomes the luma of pixel k, in place, for k < width·height |
| FaceblurCanvas.Canvas.PixToImage | faceblur/canvas.go:214-231 | `c.frame` becomes the transpose of the buffer, all four channels copied |
| FaceblurCanvas.Canvas.ImgToPix | faceblur/canvas.go:234-245 | four bytes per pixel in column order, with alpha forced to 255 |
| TriangleProcessor.Processor.constructor | triangulate/canvas.go:103-116 | the processor starts with the given parameters, blur radius 2, no noise, blur factor 2, edge factor 4 and a transparent white background |
| TriangulateCanvas.RateStep | triangulate/canvas.go:407-414 | a ±0.005 step keeps pointRate on its grid |
| TriangulateCanvas.RateFloor | triangulate/canvas.go:411-414 | "9" never takes pointRate below its minimum |
| TriangulateCanvas.KeyPressInRange | triangulate/canvas.go:383-431 | every key keeps trianglePoints in [150, 770] ≡ 10 mod 20, pointsThreshold even in [2, 26], strokeWidth in [0, 5], and wireframe on exactly when strokeWidth > 0 |
| TriangulateCanvas.KeyPress | triangulate/canvas.go:383-431 | each key changes only the fields of its own case: "f" showFrame, "g" isGrayScaled, "-"/"=" trianglePoints, "["/"]" pointsThreshold, "0"/"9" pointRate, "1"/"2" strokeWidth and wireframe; isSolid never changes |
| TriangulateCanvas.RateKeysInRange | triangulate/canvas.go:407-414 | "0" and "9" keep pointRate between its bounds, on its grid |
| TriangulateCanvas.StrokeKeysInRange | triangulate/canvas.go:415-426 | "1" and "2" keep strokeWidth in [0, 5] and wireframe on exactly when strokeWidth > 0 |
| TriangulateCanvas.CounterKeysInRange | triangulate/canvas.go:387-406 | the counter and flag keys keep every field in range |
| TriangulateCanvas.PointsKeysInRange | triangulate/canvas.go:391-398 | "-" and "=" keep trianglePoints in [150, 770] ≡ 10 mod 20 |
| TriangulateCanvas.ThresholdKeysInRange | triangulate/canvas.go:399-406 | "[" and "]" keep pointsThreshold even in [2, 26] |
| TriangulateCanvas.FlagKeysInRange | triangulate/canvas.go:387-390 | "f", "g" and unlisted keys keep every field in range |
| TriangulateCanvas.RunInRange | triangulate/canvas.go:383-431 | from any state in range, every key sequence stays in range |
| TriangulateCanvas.StrokeUndo | triangulate/canvas.go:415-426 | "2" then "1" restores stroke width and wireframe |
| TriangulateCanvas.OtherKeys | triangulate/canvas.go:386-427 | with no default branch, an unlisted key changes nothing |
| TriangulateCanvas.Canvas.constructor | triangulate/canvas.go:75-123 | the canvas starts at 640×480 with 450 points, threshold 10, rate 0.075, stroke 0 and no wireframe, and its processor and triangle carry those values |
| TriangulateCanvas.Canvas.DetectKeyPress | triangulate/canvas.go:383-431 | the handler updates the fields as `KeyPress` does, and keeps them in range |
| TriangulateCanvas.Canvas.ToggleKeys | triangulate/canvas.go:387-390 | "f" and "g" flip showFrame and isGrayScaled |
| TriangulateCanvas.Canvas.PointsKeys | triangulate/canvas.go:391-398 | "-" and "=" move trianglePoints by 20 under their guards |
| TriangulateCanvas.Canvas.ThresholdKeys | triangulate/canvas.go:399-406 | "[" and "]" move pointsThreshold by 2 under their guards |
| TriangulateCanvas.Canvas.RateKeys | triangulate/canvas.go:407-414 | "0" and "9" move pointRate by 0.005 under their guards |
| TriangulateCanvas.Canvas.StrokeKeys | triangulate/canvas.go:415-426 | "1" and "2" move strokeWidth by one and couple wireframe to it |
| TriangulateCanvas.Canvas.DrawDetection | triangulate/canvas.go:290-359 | the five UI fields are copied into the processor, the triangle takes the processor's parameters, only the faces with `det[3] > 50` are processed, and each of them replaces `c.frame` by a fresh image, so afterwards `c.frame` is the scale × scale image of the last one (unchanged when none is processed) |
| TriangulateCanvas.Canvas.SyncProcessor | triangulate/canvas.go:291-297 | the processor takes maxPoints, grayscale, strokeWidth, pointsThreshold and wireframe from the canvas and keeps its pointRate and solid stroke; the triangle is built from the processor; the canvas settings and frame are unchanged |
| TriangulateCanvas.Canvas.TriangulateFaces | triangulate/canvas.go:299-354 | the faces processed are `ConfidentIndices(dets)`; with none `c.frame` is unchanged, otherwise it is a fresh image sized to the last processed face; settings and triangle are unchanged |
| TriangulateCanvas.Canvas.TriangulateFace | triangulate/canvas.go:300-359 | one confident face: `pixToImage` leaves a fresh scale×scale `c.frame`; settings and triangle are unchanged |
| TriangulateCanvas.Canvas.RgbaToGrayscale | triangulate/canvas.go:241-253 | byte k becomes the luma of pixel k, in place |
| TriangulateCanvas.Canvas.PixToImage | triangulate/canvas.go:256-273 | `c.frame` becomes the transpose of the buffer |
| TriangulateCanvas.Canvas.ImgToPix | triangulate/canvas.go:276-287 | four bytes per pixel in column order, keeping the source alpha |
| FacemaskCanvas.KeyPressInRange | facemask/canvas.go:440-482 | every key keeps trianglePoints a multiple of 20 in [40, 820], pointsThreshold a multiple of 5 in [0, 55], strokeWidth in [0, 5], and wireframe 1 exactly when strokeWidth > 0 |
| FacemaskCanvas.KeyPress | facemask/canvas.go:440-482 | each listed key changes only the fields of its own case ("f" showFrame, "g" isGrayScaled, "-"/"=" trianglePoints, "["/"]" pointsThreshold, "1"/"2" strokeWidth and wireframe); any other key only clears showFrame |
| FacemaskCanvas.StrokeKeysInRange | facemask/canvas.go:464-475 | "1" and "2" keep strokeWidth in [0, 5] and wireframe coupled to it |
| FacemaskCanvas.CounterKeysInRange | facemask/canvas.go:444-477 | the counter, flag and default keys keep every field in range |
| FacemaskCanvas.PointsKeysInRange | facemask/canvas.go:448-455 | "-" and "=" keep trianglePoints a multiple of 20 in [40, 820] |
| FacemaskCanvas.ThresholdKeysInRange | facemask/canvas.go:456-463 | "[" and "]" keep pointsThreshold a multiple of 5 in [0, 55] |
| FacemaskCanvas.FlagKeysInRange | facemask/canvas.go:444-477 | "f", "g" and the default branch keep every field in range |
| FacemaskCanvas.RunInRange | facemask/canvas.go:440-482 | from any state in range, every key sequence stays in range |
| FacemaskCanvas.StrokeUndo | facemask/canvas.go:464-475 | "2" then "1" restores stroke width and wireframe |
| FacemaskCanvas.OtherKeys | facemask/canvas.go:476-477 | any other key only clears showFrame |
| FacemaskCanvas.MaskedIndicesSpec | facemask/canvas.go:352-364 | a face is masked exactly when `det[3] > 50` and both pupils are found, each once, in order |
| FacemaskCanvas.MaskedIndices | facemask/canvas.go:352-364 | at most one index per face; each index names a confident face with both pupils, and the indices increase |
| FacemaskCanvas.Canvas.constructor | facemask/canvas.go:84-148 | the canvas starts at 640×480 with 200 points, threshold 20, stroke 0 and no wireframe, and its processor and triangle carry those values |
| FacemaskCanvas.Canvas.DetectKeyPress | facemask/canvas.go:440-482 | the handler updates the fields as `KeyPress` does, and keeps them in range |
| FacemaskCanvas.Canvas.ToggleKeys | facemask/canvas.go:444-447 | "f" and "g" flip showFrame and isGrayScaled |
| FacemaskCanvas.Canvas.PointsKeys | facemask/canvas.go:448-455 | "-" and "=" move trianglePoints by 20 under their guards |
| FacemaskCanvas.Canvas.ThresholdKeys | facemask/canvas.go:456-463 | "[" and "]" move pointsThreshold by 5 under their guards |
| FacemaskCanvas.Canvas.StrokeKeys | facemask/canvas.go:464-475 | "1" and "2" move strokeWidth by one and couple wireframe to it |
| FacemaskCanvas.Canvas.DrawDetection | facemask/canvas.go:325-400 | the five UI fields are copied into the processor before any face, the faces masked are the confident ones with both pupils, and each of them replaces `c.frame`, so afterwards `c.frame` is a fresh image holding the transposed region bytes of the last masked face (unchanged when none is masked) |
| FacemaskCanvas.Canvas.SyncProcessor | facemask/canvas.go:339-345 | the processor takes maxPoints, grayscale, strokeWidth, pointsThreshold and wireframe from the canvas and keeps its pointRate and solid stroke; the triangle is built from the processor; the canvas settings and frame are unchanged |
| FacemaskCanvas.Canvas.MaskFaces | facemask/canvas.go:350-397 | the faces masked are `MaskedIndices(faces)`; with none `c.frame` is unchanged, otherwise it is a fresh image holding the transpose of the last masked face's zero-extended region |
| FacemaskCanvas.Canvas.MaskFace | facemask/canvas.go:352-364 | one face passes the gates `det[3] > 50` and both pupils found exactly when `Masked`; then `c.frame` is a fresh image holding the transpose of its zero-extended region, otherwise it stays; settings and triangle are unchanged |
| FacemaskCanvas.Canvas.FaceFrame | facemask/canvas.go:394-400 | one masked face: its region bytes, copied into a scale·scale·4 buffer, become a fresh `c.frame` holding their transpose; the settings and the triangle are unchanged |
| FacemaskCanvas.Canvas.RgbaToGrayscale | facemask/canvas.go:271-283 | byte k becomes the luma of pixel k, in place |
| FacemaskCanvas.Canvas.PixToImage | facemask/canvas.go:286-308 | `c.frame` becomes the transpose of the buffer |
| FacemaskCanvas.Canvas.ImgToPix | facemask/canvas.go:311-322 | four bytes per pixel in column order, keeping the source alpha |
| BgblurCanvas.KeyPress | bgblur/canvas.go:334-356 | every key keeps blurRadius in [5, 51] |
| BgblurCanvas.RunInRange | bgblur/canvas.go:334-356 | from any state in range, every key sequence keeps blurRadius in [5, 51] |
| BgblurCanvas.TogglesInvolutive | bgblur/canvas.go:338-341 | "s" and "f" each flip one flag, and pressing twice restores the state |
| BgblurCanvas.StepUndo | bgblur/canvas.go:342-349 | "]" then "[" restores blurRadius inside its bounds |
| BgblurCanvas.OtherKeys | bgblur/canvas.go:350-351 | any other key only clears showFrame |
| BgblurCanvas.TruncMono | bgblur/canvas.go:263-264 | `int()` truncation keeps the order of non-negative values |
| BgblurCanvas.RadiiOf | bgblur/canvas.go:263-268 | for a non-negative scale, scx ≥ scy ≥ 0 and rx ≥ ry ≥ 0, so the `rx >= ry` branch is the one taken |
| BgblurCanvas.RadiiPositive | bgblur/canvas.go:263-265 | from detection scale 5 up, both radii are at least 1 |
| BgblurCanvas.ScaleFactors | bgblur/canvas.go:268-278 | the axis of the longer radius has factor and inverse 1; with positive radii every factor is finite, the other axis factor is ≥ 1, and on each axis scale·invScale = 1 |
| BgblurCanvas.ZeroRadius | bgblur/canvas.go:268-278 | a zero vertical radius makes scaleY +Inf with invScaleY 0, or NaN for both when rx is 0 too |
| BgblurCanvas.PlanSpec | bgblur/canvas.go:250-331 | a detection is handled exactly when `det[3] > 50`, once, in order |
| BgblurCanvas.PlanWork | bgblur/canvas.go:258-278 | each handled detection gets the radii and factors of its own scale |
| BgblurCanvas.Gradient | bgblur/canvas.go:263-278 | the block computes the radii and factors of the detection; for scale ≥ 0 the branch `rx >= ry` is taken (scaleX = invScaleX = 1), and from scale 5 up scaleY is a finite factor ≥ 1 whose inverse is invScaleY |
| BgblurCanvas.Canvas.constructor | bgblur/canvas.go:59-96 | the canvas starts at 1024×640 with blur radius 20 and frame and pupils off |
| BgblurCanvas.Canvas.DetectKeyPress | bgblur/canvas.go:334-356 | the handler updates the fields as `KeyPress` does, and keeps them in range |
| BgblurCanvas.Canvas.DrawDetection | bgblur/canvas.go:250-331 | the work done is the plan for the detections under the current settings |
| MasqueradeCanvas.CycleBounds | masquerade/canvas.go:366-393 | the next and previous mask index stay in [0, n), undo each other, and the next one is (i + 1) mod n |
| MasqueradeCanvas.RunInRange | masquerade/canvas.go:350-398 | from any state in range, eyeMaskIdx stays in [0, 5] and mouthMaskIdx in [0, 1] |
| MasqueradeCanvas.CycleUndo | masquerade/canvas.go:366-393 | "e" then "d", "d" then "e", "r" then "f" and "f" then "r" restore the indices |
| MasqueradeCanvas.Toggle | masquerade/canvas.go:354-365 | the flags change exactly when the key is one of "q", "z", "a", "w", "x", "s" |
| MasqueradeCanvas.Cycle | masquerade/canvas.go:366-393 | keys other than "e", "d", "r", "f" leave the indices; on in-range indices the result is in range and differs exactly for those four keys |
| MasqueradeCanvas.KeyPress | masquerade/canvas.go:350-398 | a key changes the flags or the mask indices, never both, and keeps both indices in range |
| MasqueradeCanvas.RepeatNextEye | masquerade/canvas.go:366-372 | k presses of "e" advance eyeMaskIdx by k mod 6 |
| MasqueradeCanvas.SixEyePresses | masquerade/canvas.go:366-372 | six presses of "e" return to the start |
| MasqueradeCanvas.TogglesInvolutive | masquerade/canvas.go:354-365 | "q", "z", "a", "w", "x" and "s" each flip one flag, and pressing twice restores the state |
| MasqueradeCanvas.OtherKeys | masquerade/canvas.go:353-394 | with no default branch, any other key changes nothing |
| MasqueradeCanvas.CarriedPupilsDereferenceNil | masquerade/canvas.go:243-333 | as written, a face with no pupils after one with both passes the eye gate and dereferences nil |
| MasqueradeCanvas.GatesComplete | masquerade/canvas.go:246-247 | every face with `det[3] > 50` gets one decision, in order |
| MasqueradeCanvas.GatesSound | masquerade/canvas.go:293-333 | with the per-face gate, a mask is drawn only for a face whose two pupils were found |
| MasqueradeCanvas.GatesAgree | masquerade/canvas.go:243-320 | when every confident face has both pupils, the code as written and the per-face gate decide the same |
| MasqueradeCanvas.GatesAsWritten | masquerade/canvas.go:243-333 | as written: decisions in strictly increasing face order (so at most one per face), each for a face with `det[3] > 50`, outlined per the flags, with a mask only when showPupil is set |
| MasqueradeCanvas.Gates | masquerade/canvas.go:243-333 | with the per-face gate: decisions in strictly increasing face order (so at most one per face), each for a face with `det[3] > 50`, outlined per the flags, with a mask only when showPupil is set; that every such face gets one is `GatesComplete` |
| MasqueradeCanvas.Canvas.constructor | masquerade/canvas.go:77-101 | the canvas starts at 1024×640 with the default flags and mask index 0 for both masks |
| MasqueradeCanvas.Canvas.DetectKeyPress | masquerade/canvas.go:350-398 | the handler updates flags and mask indices as `KeyPress` does, and keeps them in range |
| MasqueradeCanvas.Canvas.ToggleKeys | masquerade/canvas.go:354-365 | the six toggle keys flip their flag and leave the mask indices alone |
| MasqueradeCanvas.Canvas.MaskKeys | masquerade/canvas.go:366-393 | "e", "d", "r" and "f" cycle the mask indices with wrap-around and leave the flags alone |
| MasqueradeCanvas.Canvas.DrawDetection | masquerade/canvas.go:242-347 | the masks drawn are the per-face gates for the current flags |
| MasqueradeCanvas.Canvas.RgbaToGrayscale | masquerade/canvas.go:227-239 | byte k becomes the luma of pixel k, in place |

## Left out

- Pixels.Luma: the BT.709 weights are taken as exact decimals and the sum rounded half away from zero; Go's float64 rounding of the weighted sum is not modelled.
- Ellipses.Ellipse.At: the test is decided on exact reals, so float rounding at the boundary of the ellipse is not modelled.
- FaceblurCanvas.Region: `int(float64(scale) * 0.8 / k)` is taken on exact reals, so float rounding of the radii is not modelled.
- BgblurCanvas.RadiiOf: the 1.2, 0.8, 1.6 and 2.1 factors are applied on exact reals, so float rounding of the radii is not modelled.
- PixelateDrawer.CellSize: the 0.015 factor is taken as the exact 3/200.
- TriangulateCanvas.RateSteps: pointRate moves on an exact 0.005 grid, where float64 additions drift at once. From 0.075, four presses of "0" give 0.09500000000000001 in float64, which fails `pointRate <= maxPointRate` (triangulate/canvas.go:408), so Go stops there while the model reaches 0.100 on the fifth press. Thirteen presses of "9" give 0.009999999999999998 in float64, below minPointRate, which `InRange` excludes; the model stops at 0.010.
- `Ellipse.ColorModel` only returns `color.AlphaModel` and states nothing about behaviour.
- The gg drawing in `Draw` and `drawCell`, `quant.Quantize`, `noise` and `convertToNRGBA64` are outside this model. `Draw` returns the cells it would paint, with their rectangles and colours.
- PixelateDrawer.Draw: the quantized image's bounds are assumed to be (0, 0, dx, dy). The palette quantizer that produces them is outside this model.
- PixelateSeed.Prng.RandomSeed: `float64(rand) * div` (pixelate/seed.go:68) is taken as the exact quotient rand/(2^31 − 1); float64 rounding of the product is not modelled.
- PixelateSeed.NoisePixel: `(f − 0.1) * float64(amount)` and `rf + noise` (pixelate/seed.go:28, 33) are exact reals, so the `< 255` guard is decided without float rounding; a sum within rounding distance of ±255 may be decided the other way in Go.
- PixelateSeed.AddNoise: draws its noise through NoisePixel, with the same exact-real guard.
- PixelateDrawer.Draw: requires a positive cell size. With csize 0 on an image whose imgRatio is below 67 (`ZeroCellSize`, e.g. 40 × 40), or with a negative csize, the loops at pixelate/drawer.go:46-47 never end. The pixelate canvas only passes cell sizes from 8 up (`ReachableCellSize`).
- TriangulateCanvas.Canvas.DrawDetection: the `return err` after `triangle.Draw` (triangulate/canvas.go:328-331 and 366-369) is not modelled; every confident face is taken to triangulate. Only the size and freshness of `c.frame` are stated, because `draw.DrawMask` then writes into it.
- FacemaskCanvas.Canvas.DrawDetection: the `return err` after `triangle.Draw` (facemask/canvas.go:330-333 and 400-403) is not modelled; every masked face is taken to triangulate.
- FaceblurCanvas.Canvas.DrawDetection: the `return err` after `blurFace` (faceblur/canvas.go:292-295) would end drawDetection on a `stackblur.Process` error; the model handles every confident face, as `Plan` states. Only the size and freshness of `c.frame` are stated, because `draw.DrawMask` then writes into it.
- TriangulateCanvas.Canvas.DrawDetection, FacemaskCanvas.Canvas.DrawDetection and FaceblurCanvas.Canvas.DrawDetection take the bytes `getImageData` returns for each face as an input and require a non-negative scale for the faces that reach `pixToImage`, where Go panics on a negative one; pigo reports positive sizes. With the goroutines of triangulate and facemask run in slice order, the last face handled is the one whose image stays in `c.frame`.
- PixelateSeed.AddNoise: the float→uint8 conversion when the guard rejects and the final `Set` are not modelled. Out-of-range conversion is implementation-defined in Go. The model returns, per pixel, the guard decision and the shifted channels.
- Integer overflow of Go's 64-bit `int` is not modelled. Every integer here is unbounded. No bound used by the demos comes near 2^63.
- Goroutines, the `errgroup` fan-out and `sync.Mutex` in `Render` and `drawDetection` are not modelled. Faces are processed sequentially in slice order.
- `Render`, `StartWebcam`, `Stop`, `Log`, `Alert` and `loadImage` are browser, network or console I/O. So are all `js.Value` calls inside `drawDetection`: canvas 2-D drawing, `getImageData`, `putImageData` and the gradient API. `detector/fetch.go`, the HTTP server and the entry points are not part of this model either.
- The pigo detector, `DetectLeftPupil`, `DetectRightPupil` and `DetectMouthPoints` are outside this model. Detections and pupils are inputs.
- `stackblur.Process`, `triangle.Draw`, `draw.Draw` and `draw.DrawMask` are outside this model.
- The `atan2` lean angle and its `|angle| > 0.1` test, and the `imgScale` mask sizing, are trigonometry and float arithmetic and are left out.
- bgblur/canvas.go:130-131 passes an `image.Rectangle` where `pixels.PixToImage` takes `dim int`. The two shown versions disagree, so that call path is not modelled.
- bgblur/canvas.go:294 reads `rightPupil.Col - leftPupil.Col` for every face with `det[3] > 50`, without the nil checks made at lines 315 and 321, so a confident face whose pupil detection fails panics there. The lean angle and the pupils are not modelled, so this crash path is not either; what the code should do for a missing pupil (skip the rotation or skip the face) is not evident from it.
- `pixelateDetectedRegion` and `drawDetection` of pixelate/canvas.go are not modelled beyond the cell size they hand to `quant.Draw`.
- TriangulateCanvas.Canvas.DrawDetection: pointRate is changed by "0" and "9" but is not among the five fields copied into the processor, so the processor keeps its initial rate. The model states this as it is written.
- Pixels.RgbaToGrayscale: the Go slice is an `array` whose length is checked up front. The requires clause states the index bound that Go checks at run time, where it would panic.

## Findings

| source | as written | input that shows it | evidently intended | confidence | as-written member | corrected member |
|---|---|---|---|---|---|---|
| masquerade/canvas.go:243-333 | `p1` and `p2` are declared once before the loop and overwritten only when a pupil is found. The mask gates `p1.x != 0 && p2.y != 0` therefore pass on pupils left over from an earlier face, and the eye branch then reads `leftPupil.Row` of a nil pupil. | Two confident faces with showPupil and showEyeMask on: the first has both pupils, the second has none (`CarriedPupilsDereferenceNil`). | Gate each face's masks on that face's own pupils. | not executed | MasqueradeCanvas.GatesAsWritten | MasqueradeCanvas.Gates |
