/** pixelate/drawer.go: the mosaic. The frame is cut into cellSize × cellSize squares
    (clipped to the image), and each square is painted with the integer average of
    its pixels in the quantized image. */
module PixelateDrawer {
  import opened GoNumeric
  import opened Images

  // ------------------------------------------------------------ small helpers

  /** round: math.Floor. */
  function Round(x: real): (n: int)
    ensures n as real <= x < n as real + 1.0
  {
    x.Floor
  }

  /** minUint16 */
  function MinUint16(x: Word16, y: Word16): (r: Word16)
    ensures r <= x && r <= y && (r == x || r == y)
  {
    if x < y then x else y
  }

  /** maxUint16 */
  function MaxUint16(x: Word16, y: Word16): (r: Word16)
    ensures r >= x && r >= y && (r == x || r == y)
  {
    if x > y then x else y
  }

  /** Go's uint16(v) conversion keeps the low 16 bits (two's complement). */
  function ToUint16(v: int): (r: Word16)
    ensures 0 <= v < 65536 ==> r == v
  {
    v % 65536
  }

  // ------------------------------------------------------------ cell size

  /** imgRatio: (w/h)·w for a landscape frame, (h/w)·h otherwise, in integers. The
      divisor is the smaller side, which must not be zero. */
  function ImgRatio(w: int, h: int): (ratio: int)
    requires w > 0 && h > 0
    ensures ratio >= Max(w, h)
    ensures ratio * Min(w, h) <= Max(w, h) * Max(w, h)
  {
    if w > h then
      QuotientTimes(w, h);
      (w / h) * w
    else
      QuotientTimes(h, w);
      (h / w) * h
  }

  lemma QuotientTimes(big: int, small: int)
    requires big >= small > 0
    ensures (big / small) * big >= big
    ensures (big / small) * big * small <= big * big
  {
    var q := big / small;
    assert q >= 1;
    MulMono(1, q, big);
    assert q * small <= big;
    calc {
      q * big * small;
      (q * small) * big;
    <= { MulMono(q * small, big, big); }
      big * big;
    }
  }

  /** A square frame yields its side; swapping the sides does not change the ratio. */
  lemma {:induction false} ImgRatioSquareSymmetric(w: int, h: int)
    requires w > 0 && h > 0
    ensures w == h ==> ImgRatio(w, h) == w
    ensures ImgRatio(w, h) == ImgRatio(h, w)
  {
    if w == h {
      assert w / w == 1;
    }
  }

  /** The cell size Draw uses: csize when it is non-zero, otherwise
      int(round(imgRatio · 0.015)), with 0.015 taken as the exact decimal. */
  function CellSize(dx: int, dy: int, csize: int): (cellSize: int)
    requires csize == 0 ==> dx > 0 && dy > 0
    ensures csize != 0 ==> cellSize == csize
    ensures csize == 0 ==> cellSize == ImgRatio(dx, dy) * 3 / 200 && cellSize >= 0
  {
    if csize == 0 then
      var ratio := ImgRatio(dx, dy);
      FloorOfFraction(ratio * 3, 200);
      TruncToInt(Round(ratio as real * 0.015) as real)
    else csize
  }

  /** With csize 0, an image whose ratio is below 67 (a 40 × 40 image has ratio 40)
      gets cell size 0, on which Draw's loops would never advance. */
  lemma ZeroCellSize(dx: int, dy: int)
    requires dx > 0 && dy > 0 && ImgRatio(dx, dy) < 67
    ensures CellSize(dx, dy, 0) == 0
  {
  }

  lemma FloorOfFraction(a: int, b: int)
    requires a >= 0 && b > 0
    ensures (a as real / b as real).Floor == a / b
  {
    var q, r := a / b, a % b;
    assert a == q * b + r;
    assert a as real / b as real == q as real + r as real / b as real;
  }

  // ------------------------------------------------------------ the grid

  /** Iterations of `for x := 0; x < n; x += cs`. */
  function Steps(n: int, cs: int): nat
    requires cs > 0
  {
    if n <= 0 then 0 else (n - 1) / cs + 1
  }

  /** The i-th origin i·cs is inside [0, n) exactly for the first Steps(n, cs) values. */
  lemma {:induction false} StepsSpec(n: int, cs: int, i: int)
    requires cs > 0 && i >= 0
    ensures i * cs < n <==> i < Steps(n, cs)
  {
    MulMono(0, i, cs);
    if n > 0 {
      var q := (n - 1) / cs;
      assert n - 1 == q * cs + (n - 1) % cs;
      if i <= q {
        MulMono(i, q, cs);
      } else {
        MulMono(q + 1, i, cs);
      }
    }
  }

  /** One more step of `x += cs` keeps x == i·cs and the loop test in step with Steps. */
  lemma NextStep(n: int, cs: int, i: int, x: int)
    requires cs > 0 && i >= 0 && x == i * cs
    ensures x + cs == (i + 1) * cs && (x + cs < n <==> i + 1 < Steps(n, cs))
  {
    MulSucc(i, cs);
    StepsSpec(n, cs, i + 1);
  }

  /** Cell (i, j): image.Rect(i·cs, j·cs, i·cs + cs, j·cs + cs) intersected with the
      quantized image's bounds (ZR when nothing is left). */
  function GridCell(i: int, j: int, cs: int, bounds: Rect): Rect
  {
    Rect(i * cs, j * cs, i * cs + cs, j * cs + cs).Intersect(bounds)
  }

  /** A point of cell (i, j) has i = x div cs and j = y div cs: so two different cells
      share no point. */
  lemma {:induction false} CellOwner(i: int, j: int, cs: int, bounds: Rect, x: int, y: int)
    requires cs > 0 && GridCell(i, j, cs, bounds).Contains(x, y)
    ensures i == x / cs && j == y / cs
  {
    assert i * cs <= x < i * cs + cs;
    assert j * cs <= y < j * cs + cs;
    DivModOf(i, x - i * cs, cs);
    DivModOf(j, y - j * cs, cs);
  }

  lemma {:induction false} CellsDisjoint(i: int, j: int, i': int, j': int, cs: int, bounds: Rect, x: int, y: int)
    requires cs > 0 && (i, j) != (i', j')
    ensures !(GridCell(i, j, cs, bounds).Contains(x, y) && GridCell(i', j', cs, bounds).Contains(x, y))
  {
    if GridCell(i, j, cs, bounds).Contains(x, y) && GridCell(i', j', cs, bounds).Contains(x, y) {
      CellOwner(i, j, cs, bounds, x, y);
      CellOwner(i', j', cs, bounds, x, y);
    }
  }

  /** With the quantized image at (0, 0, dx, dy), every point lies in the cell
      (x div cs, y div cs), which is one the loop visits. */
  lemma {:induction false} CellsCover(dx: int, dy: int, cs: int, x: int, y: int)
    requires cs > 0 && 0 <= x < dx && 0 <= y < dy
    ensures x / cs < Steps(dx, cs) && y / cs < Steps(dy, cs)
    ensures GridCell(x / cs, y / cs, cs, Rect(0, 0, dx, dy)).Contains(x, y)
  {
    var i, j := x / cs, y / cs;
    assert x == i * cs + x % cs && 0 <= x % cs < cs;
    assert y == j * cs + y % cs && 0 <= y % cs < cs;
    assert i * cs <= x < dx && j * cs <= y < dy;
    StepsSpec(dx, cs, i);
    StepsSpec(dy, cs, j);
    var cell := Rect(i * cs, j * cs, i * cs + cs, j * cs + cs);
    assert cell.Contains(x, y) && Rect(0, 0, dx, dy).Contains(x, y);
  }

  /** Every visited cell is non-empty (it contains its own origin), so the image.ZR
      fallback is never taken and getAvgColor never divides by zero. */
  lemma {:induction false} CellNonEmpty(dx: int, dy: int, cs: int, i: int, j: int)
    requires cs > 0 && 0 <= i < Steps(dx, cs) && 0 <= j < Steps(dy, cs)
    ensures GridCell(i, j, cs, Rect(0, 0, dx, dy)).Contains(i * cs, j * cs)
    ensures GridCell(i, j, cs, Rect(0, 0, dx, dy)).Dx() > 0
    ensures GridCell(i, j, cs, Rect(0, 0, dx, dy)).Dy() > 0
  {
    StepsSpec(dx, cs, i);
    StepsSpec(dy, cs, j);
    MulMono(0, i, cs);
    MulMono(0, j, cs);
  }

  // ------------------------------------------------------------ the average colour

  /** An image.NRGBA64 seen through its bounds and NRGBA64At. */
  datatype Picture64 = Picture64(bounds: Rect, at: (int, int) -> Nrgba64)

  datatype Channel = R | G | B

  function Chan(c: Nrgba64, ch: Channel): Word16
  {
    match ch
    case R => c.r
    case G => c.g
    case B => c.b
  }

  /** The pixels of an image in getAvgColor's visiting order (X outer, Y inner). */
  ghost function CellPixels(img: Picture64): (s: seq<Nrgba64>)
    ensures |s| == Extent(img.bounds.minX, img.bounds.maxX) * Extent(img.bounds.minY, img.bounds.maxY)
  {
    var b := img.bounds;
    var w, h := Extent(b.minX, b.maxX), Extent(b.minY, b.maxY);
    if h == 0 then [] else
      seq(w * h, n requires 0 <= n < w * h => img.at(b.minX + n / h, b.minY + n % h))
  }

  lemma {:induction false} CellPixelsAt(img: Picture64, x: int, y: int)
    requires img.bounds.Contains(x, y)
    ensures var b := img.bounds;
            var q := (x - b.minX) * (b.maxY - b.minY) + (y - b.minY);
            0 <= q < |CellPixels(img)| && CellPixels(img)[q] == img.at(x, y)
  {
    var b := img.bounds;
    var w, h := b.maxX - b.minX, b.maxY - b.minY;
    assert Extent(b.minX, b.maxX) == w && Extent(b.minY, b.maxY) == h;
    IdxBound(y - b.minY, x - b.minX, h, w);
    DivModOf(x - b.minX, y - b.minY, h);
  }

  /** Every element of CellPixels is a pixel inside the bounds. */
  lemma {:induction false} CellPixelsIn(img: Picture64, k: int)
    requires 0 <= k < |CellPixels(img)|
    ensures exists x, y :: img.bounds.Contains(x, y) && CellPixels(img)[k] == img.at(x, y)
  {
    var b := img.bounds;
    var w, h := Extent(b.minX, b.maxX), Extent(b.minY, b.maxY);
    IndexInGrid(k, w, h);
    assert img.bounds.Contains(b.minX + k / h, b.minY + k % h);
  }

  lemma IndexInGrid(k: int, nx: nat, ny: nat)
    requires 0 <= k < nx * ny
    ensures ny > 0 && 0 <= k / ny < nx && 0 <= k % ny < ny
  {
    IdxOfDivMod(k, if ny > 0 then ny else 1);
    if k / ny >= nx { MulMono(nx, k / ny, ny); }
  }

  /** Sum of one channel over a sequence of pixels. */
  ghost function Sum(s: seq<Nrgba64>, ch: Channel): (total: nat)
  {
    if |s| == 0 then 0 else Sum(s[..|s| - 1], ch) + Chan(s[|s| - 1], ch)
  }

  /** getAvgColor's channel value: uint16(sum / count), clamped to [0, 65535]. */
  function AvgChannel(sum: nat, count: int): Word16
    requires count != 0
  {
    MaxUint16(0, MinUint16(65535, ToUint16(GoDiv(sum, count))))
  }

  /** The colour getAvgColor returns for an image: per-channel average, alpha 255. */
  ghost function Average(img: Picture64): Nrgba64
    requires img.bounds.Dx() * img.bounds.Dy() != 0
  {
    var s, n := CellPixels(img), img.bounds.Dx() * img.bounds.Dy();
    Nrgba64(AvgChannel(Sum(s, R), n), AvgChannel(Sum(s, G), n), AvgChannel(Sum(s, B), n), 255)
  }

  /** getAvgColor: running sums over the cell, X outer and Y inner, then the averages.
      A zero-area cell divides by zero (Go panics). */
  method GetAvgColor(img: Picture64) returns (c: Nrgba64)
    requires img.bounds.Dx() * img.bounds.Dy() != 0
    ensures c == Average(img)
  {
    var bounds := img.bounds;
    ghost var all := CellPixels(img);
    ghost var w, h := Extent(bounds.minX, bounds.maxX), Extent(bounds.minY, bounds.maxY);
    var r, g, b := 0, 0, 0;
    ghost var q := 0;  // pixels summed so far
    if w > 0 { MulMono(1, w, h); }
    var x := bounds.minX;
    while x < bounds.maxX
      invariant bounds.minX <= x <= bounds.minX + w
      invariant q == (x - bounds.minX) * h && 0 <= q
      invariant x < bounds.maxX ==> q + h <= w * h
      invariant q <= |all|
      invariant r == Sum(all[..q], R) && g == Sum(all[..q], G) && b == Sum(all[..q], B)
    {
      r, g, b := SumColumn(img, x, r, g, b, q);
      q := q + h;
      ColumnStep(x - bounds.minX, w, h);
      x := x + 1;
    }
    assert all[..q] == all by {
      assert q == w * h;
    }
    var n := bounds.Dx() * bounds.Dy();
    c := Nrgba64(MaxUint16(0, MinUint16(65535, ToUint16(GoDiv(r, n)))),
                 MaxUint16(0, MinUint16(65535, ToUint16(GoDiv(g, n)))),
                 MaxUint16(0, MinUint16(65535, ToUint16(GoDiv(b, n)))),
                 255);
  }

  /** getAvgColor's inner loop for column x: add the column's pixels, top to bottom, to
      the running sums of the base pixels visited before it. */
  method SumColumn(img: Picture64, x: int, r0: int, g0: int, b0: int, ghost base: nat)
    returns (r: int, g: int, b: int)
    requires img.bounds.minX <= x < img.bounds.maxX
    requires base == (x - img.bounds.minX) * Extent(img.bounds.minY, img.bounds.maxY)
    requires base + Extent(img.bounds.minY, img.bounds.maxY) <= |CellPixels(img)|
    requires var s := CellPixels(img)[..base];
             r0 == Sum(s, R) && g0 == Sum(s, G) && b0 == Sum(s, B)
    ensures var s := CellPixels(img)[..base + Extent(img.bounds.minY, img.bounds.maxY)];
            r == Sum(s, R) && g == Sum(s, G) && b == Sum(s, B)
  {
    var bounds := img.bounds;
    ghost var all := CellPixels(img);
    r, g, b := r0, g0, b0;
    ghost var ext := Extent(bounds.minY, bounds.maxY);
    ghost var q := base;
    var y := bounds.minY;
    while y < bounds.maxY
      invariant bounds.minY <= y <= bounds.minY + ext
      invariant q == base + (y - bounds.minY) && q <= base + ext <= |all|
      invariant r == Sum(all[..q], R) && g == Sum(all[..q], G) && b == Sum(all[..q], B)
    {
      var c := img.at(x, y);
      SumPixel(img, x, y, q);
      r := r + c.r;
      g := g + c.g;
      b := b + c.b;
      q := q + 1;
      y := y + 1;
    }
    assert q == base + ext;
  }

  /** Pixel (x, y) is element q of the visiting order, so summing it extends the sums
      of the first q pixels to the first q + 1. */
  lemma SumPixel(img: Picture64, x: int, y: int, q: int)
    requires img.bounds.Contains(x, y)
    requires q == (x - img.bounds.minX) * Extent(img.bounds.minY, img.bounds.maxY) + (y - img.bounds.minY)
    ensures 0 <= q < |CellPixels(img)|
    ensures var s, c := CellPixels(img), img.at(x, y);
            && Sum(s[..q + 1], R) == Sum(s[..q], R) + c.r
            && Sum(s[..q + 1], G) == Sum(s[..q], G) + c.g
            && Sum(s[..q + 1], B) == Sum(s[..q], B) + c.b
  {
    CellPixelsAt(img, x, y);
    SumStep(CellPixels(img), q);
  }

  /** After column k of w (each h pixels high), k + 1 columns are summed, and another
      column still fits when there is one. */
  lemma ColumnStep(k: int, w: nat, h: nat)
    requires 0 <= k < w
    ensures k * h + h == (k + 1) * h
    ensures k + 1 < w ==> (k + 1) * h + h <= w * h
    ensures k + 1 == w ==> (k + 1) * h == w * h
  {
    MulSucc(k, h);
    if k + 1 < w {
      MulMono(k + 2, w, h);
      MulSucc(k + 1, h);
    }
  }

  lemma SumStep(s: seq<Nrgba64>, q: nat)
    requires q < |s|
    ensures forall ch :: Sum(s[..q + 1], ch) == Sum(s[..q], ch) + Chan(s[q], ch)
  {
    assert s[..q + 1][..q] == s[..q];
  }

  /** If every pixel's channel lies in [lo, hi], so does their sum over the count. */
  lemma {:induction false} SumBounds(s: seq<Nrgba64>, ch: Channel, lo: int, hi: int)
    requires forall k :: 0 <= k < |s| ==> lo <= Chan(s[k], ch) <= hi
    ensures lo * |s| <= Sum(s, ch) <= hi * |s|
  {
    if |s| > 0 {
      var n := |s| - 1;
      var init := s[..n];
      assert forall k :: 0 <= k < n ==> init[k] == s[k];
      SumBounds(init, ch, lo, hi);
      assert Sum(s, ch) == Sum(init, ch) + Chan(s[n], ch);
      assert lo <= Chan(s[n], ch) <= hi;
      MulSucc(n, lo);
      MulSucc(n, hi);
    }
  }

  lemma MulMonoWhen(a: int, b: int, c: int)
    ensures a <= b && c >= 0 ==> a * c <= b * c
  {
    if a <= b && c >= 0 { MulMono(a, b, c); }
  }

  lemma {:induction false} QuotientBetween(sum: int, n: int, lo: int, hi: int)
    requires n > 0 && lo * n <= sum <= hi * n
    ensures lo <= sum / n <= hi
  {
    var q := sum / n;
    assert sum == q * n + sum % n;
    MulMonoWhen(q + 1, lo, n);
    MulMonoWhen(hi + 1, q, n);
  }

  /** Each average channel lies between the cell's smallest and largest value of that
      channel; in particular it is below 65536, so the conversion and the clamps of
      getAvgColor change nothing. */
  lemma {:induction false} AverageBetween(img: Picture64, ch: Channel, lo: int, hi: int)
    requires img.bounds.Dx() > 0 && img.bounds.Dy() > 0
    requires forall x, y :: img.bounds.Contains(x, y) ==> lo <= Chan(img.at(x, y), ch) <= hi
    ensures var s, n := CellPixels(img), img.bounds.Dx() * img.bounds.Dy();
            && Chan(Average(img), ch) == Sum(s, ch) / n
            && lo <= Chan(Average(img), ch) <= hi
  {
    var b := img.bounds;
    var s, n := CellPixels(img), b.Dx() * b.Dy();
    forall k | 0 <= k < |s|
      ensures lo <= Chan(s[k], ch) <= hi
    {
      CellPixelsIn(img, k);
    }
    assert |s| == n;
    MulMono(1, b.Dx(), b.Dy());
    SumBounds(s, ch, lo, hi);
    SumBounds(s, ch, 0, 65535);
    QuotientBetween(Sum(s, ch), n, lo, hi);
    QuotientBetween(Sum(s, ch), n, 0, 65535);
  }

  /** A cell of one colour averages to exactly that colour, with alpha 255. */
  lemma {:induction false} AverageUniform(img: Picture64, c: Nrgba64)
    requires img.bounds.Dx() > 0 && img.bounds.Dy() > 0
    requires forall x, y :: img.bounds.Contains(x, y) ==> img.at(x, y) == c
    ensures Average(img) == Nrgba64(c.r, c.g, c.b, 255)
  {
    AverageBetween(img, R, c.r, c.r);
    AverageBetween(img, G, c.g, c.g);
    AverageBetween(img, B, c.b, c.b);
  }

  // ------------------------------------------------------------ Draw

  /** One drawCell call: the cell's origin, its side, and its colour. */
  datatype CellPaint = CellPaint(x: int, y: int, size: int, color: Nrgba64)

  /** The drawCell call for grid cell (i, j). */
  ghost function PaintOf(qimg: Picture64, dx: int, dy: int, cs: int, i: int, j: int): CellPaint
    requires cs > 0 && qimg.bounds == Rect(0, 0, dx, dy)
    requires 0 <= i < Steps(dx, cs) && 0 <= j < Steps(dy, cs)
  {
    CellNonEmpty(dx, dy, cs, i, j);
    var cell := GridCell(i, j, cs, qimg.bounds);
    MulMono(1, cell.Dx(), cell.Dy());
    CellPaint(i * cs, j * cs, cs, Average(Picture64(cell, qimg.at)))
  }

  /** The cell function drawCell is called with: PaintOf on the grid, unused elsewhere. */
  ghost function CellAt(qimg: Picture64, dx: int, dy: int, cs: int): (int, int) -> CellPaint
    requires cs > 0 && qimg.bounds == Rect(0, 0, dx, dy)
  {
    (i, j) =>
      if 0 <= i < Steps(dx, cs) && 0 <= j < Steps(dy, cs) then PaintOf(qimg, dx, dy, cs, i, j)
      else CellPaint(i * cs, j * cs, cs, Nrgba64(0, 0, 0, 0))
  }

  /** Row i of an n × ny grid of calls f(i, 0), …, f(i, ny − 1). */
  function Row<T>(f: (int, int) -> T, i: int, ny: nat): (s: seq<T>)
    ensures |s| == ny && forall j :: 0 <= j < ny ==> s[j] == f(i, j)
  {
    seq(ny, j => f(i, j))
  }

  /** The calls of two nested loops, X outer and Y inner, over the first n rows. */
  function Grid<T>(f: (int, int) -> T, n: nat, ny: nat): seq<T>
  {
    if n == 0 then [] else Grid(f, n - 1, ny) + Row(f, n - 1, ny)
  }

  lemma {:induction false} GridLength<T>(f: (int, int) -> T, n: nat, ny: nat)
    ensures |Grid(f, n, ny)| == n * ny
  {
    if n > 0 {
      GridLength(f, n - 1, ny);
      MulSucc(n - 1, ny);
    }
  }

  /** Call number i·ny + j of the nested loops is f(i, j). */
  lemma {:induction false} GridAt<T>(f: (int, int) -> T, n: nat, ny: nat, i: int, j: int)
    requires 0 <= i < n && 0 <= j < ny
    ensures i * ny + j < |Grid(f, n, ny)| && Grid(f, n, ny)[i * ny + j] == f(i, j)
  {
    var prev, row := Grid(f, n - 1, ny), Row(f, n - 1, ny);
    GridLength(f, n - 1, ny);
    if i < n - 1 {
      IdxBound(j, i, ny, n - 1);
      GridAt(f, n - 1, ny, i, j);
      assert (prev + row)[i * ny + j] == prev[i * ny + j];
    } else {
      assert (prev + row)[i * ny + j] == row[j];
    }
  }

  /** Every drawCell call of the grid loop, in order (X outer, Y inner). */
  ghost function Paints(qimg: Picture64, dx: int, dy: int, cs: int): seq<CellPaint>
    requires cs > 0 && qimg.bounds == Rect(0, 0, dx, dy)
  {
    Grid(CellAt(qimg, dx, dy, cs), Steps(dx, cs), Steps(dy, cs))
  }

  /** The grid loop makes nx·ny calls, and call number i·ny + j paints cell (i, j). */
  lemma PaintsAt(qimg: Picture64, dx: int, dy: int, cs: int, i: int, j: int)
    requires cs > 0 && qimg.bounds == Rect(0, 0, dx, dy)
    requires 0 <= i < Steps(dx, cs) && 0 <= j < Steps(dy, cs)
    ensures |Paints(qimg, dx, dy, cs)| == Steps(dx, cs) * Steps(dy, cs)
    ensures i * Steps(dy, cs) + j < |Paints(qimg, dx, dy, cs)|
            && Paints(qimg, dx, dy, cs)[i * Steps(dy, cs) + j] == PaintOf(qimg, dx, dy, cs, i, j)
  {
    var f := CellAt(qimg, dx, dy, cs);
    GridLength(f, Steps(dx, cs), Steps(dy, cs));
    GridAt(f, Steps(dx, cs), Steps(dy, cs), i, j);
  }

  /** Quant.Draw from the quantized image on: choose the cell size, walk the grid and
      paint every cell with its average colour. The quantizer (and the conversion to
      NRGBA64) is not part of this model: qimg is its result, taken to have the frame's
      size at the origin. The loop only ends for a positive cell size. */
  method Draw(dx: int, dy: int, qimg: Picture64, csize: int) returns (paints: seq<CellPaint>)
    requires csize == 0 ==> dx > 0 && dy > 0
    requires CellSize(dx, dy, csize) > 0
    requires qimg.bounds == Rect(0, 0, dx, dy)
    ensures paints == Paints(qimg, dx, dy, CellSize(dx, dy, csize))
  {
    var cellSize := CellSize(dx, dy, csize);
    ghost var f := CellAt(qimg, dx, dy, cellSize);
    ghost var nx, ny := Steps(dx, cellSize), Steps(dy, cellSize);
    paints := [];
    ghost var i := 0;
    var x := 0;
    StepsSpec(dx, cellSize, 0);
    while x < dx
      invariant 0 <= i <= nx && x == i * cellSize
      invariant x < dx <==> i < nx
      invariant paints == Grid(f, i, ny)
      decreases nx - i
    {
      var row := PaintColumn(dx, dy, qimg, cellSize, i, x);
      paints := paints + row;
      NextStep(dx, cellSize, i, x);
      i := i + 1;
      x := x + cellSize;
    }
  }

  /** The inner loop of the grid walk for cell column i (left edge x): one drawCell per
      cell, top to bottom. */
  method PaintColumn(dx: int, dy: int, qimg: Picture64, cellSize: int, ghost i: int, x: int)
    returns (paints: seq<CellPaint>)
    requires cellSize > 0 && qimg.bounds == Rect(0, 0, dx, dy)
    requires 0 <= i < Steps(dx, cellSize) && x == i * cellSize
    ensures paints == Row(CellAt(qimg, dx, dy, cellSize), i, Steps(dy, cellSize))
  {
    ghost var f := CellAt(qimg, dx, dy, cellSize);
    ghost var ny := Steps(dy, cellSize);
    paints := [];
    ghost var j := 0;
    var y := 0;
    StepsSpec(dy, cellSize, 0);
    while y < dy
      invariant 0 <= j <= ny && y == j * cellSize
      invariant y < dy <==> j < ny
      invariant paints == Row(f, i, j)
      decreases ny - j
    {
      var paint := PaintCell(dx, dy, qimg, cellSize, i, j, x, y);
      RowSnoc(f, i, j);
      paints := paints + [paint];
      NextStep(dy, cellSize, j, y);
      j := j + 1;
      y := y + cellSize;
    }
  }

  /** A row one call longer ends with that call. */
  lemma RowSnoc<T>(f: (int, int) -> T, i: int, n: nat)
    ensures Row(f, i, n + 1) == Row(f, i, n) + [f(i, n)]
  {
  }

  /** The body of the grid walk for cell (i, j), at (x, y): clip the cell's square to
      the image, average it, and paint the square with that colour. */
  method PaintCell(dx: int, dy: int, qimg: Picture64, cellSize: int, ghost i: int, ghost j: int,
                   x: int, y: int) returns (paint: CellPaint)
    requires cellSize > 0 && qimg.bounds == Rect(0, 0, dx, dy)
    requires 0 <= i < Steps(dx, cellSize) && 0 <= j < Steps(dy, cellSize)
    requires x == i * cellSize && y == j * cellSize
    ensures paint == CellAt(qimg, dx, dy, cellSize)(i, j)
  {
    var rect := ClipCell(dx, dy, qimg.bounds, cellSize, i, j, x, y);
    var cellColor := GetAvgColor(Picture64(rect, qimg.at));
    paint := CellPaint(x, y, cellSize, cellColor);
    assert paint == PaintOf(qimg, dx, dy, cellSize, i, j);
  }

  /** The square of cell (i, j), clipped to the image; an empty clip becomes image.ZR. */
  method ClipCell(dx: int, dy: int, bounds: Rect, cellSize: int, ghost i: int, ghost j: int,
                  x: int, y: int) returns (rect: Rect)
    requires cellSize > 0 && bounds == Rect(0, 0, dx, dy)
    requires 0 <= i < Steps(dx, cellSize) && 0 <= j < Steps(dy, cellSize)
    requires x == i * cellSize && y == j * cellSize
    ensures rect == GridCell(i, j, cellSize, bounds) && rect.Dx() * rect.Dy() > 0
  {
    rect := Rect(x, y, x + cellSize, y + cellSize);
    rect := rect.Intersect(bounds);
    if rect.Empty() {
      rect := ZR;
    }
    CellRectOk(dx, dy, cellSize, i, j, rect);
  }

  /** The rectangle the loop body computes for cell (i, j) is GridCell(i, j), and its
      area is positive. */
  lemma CellRectOk(dx: int, dy: int, cs: int, i: int, j: int, rect: Rect)
    requires cs > 0 && 0 <= i < Steps(dx, cs) && 0 <= j < Steps(dy, cs)
    requires rect == (var r := Rect(i * cs, j * cs, i * cs + cs, j * cs + cs).Intersect(Rect(0, 0, dx, dy));
                      if r.Empty() then ZR else r)
    ensures rect == GridCell(i, j, cs, Rect(0, 0, dx, dy))
    ensures rect.Dx() * rect.Dy() > 0
  {
    CellNonEmpty(dx, dy, cs, i, j);
    MulMono(1, rect.Dx(), rect.Dy());
  }
}
