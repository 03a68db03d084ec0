/** pixels/image.go: conversions between a packed RGBA byte buffer and an image,
    and the in-place grayscale compaction that feeds the face detector. */
module Pixels {
  import opened GoNumeric
  import opened Images

  // ---------------------------------------------------------------- grayscale

  /** Luma of one pixel with the ITU-R BT.709 weights 0.2126, 0.7152, 0.0722, rounded
      half away from zero (math.Round). The weights are taken as exact decimals. */
  function Luma(r: Byte, g: Byte, b: Byte): (y: Byte)
    ensures r == g == b ==> y == r
    ensures Min(r, Min(g, b)) <= y <= Max(r, Max(g, b))
  {
    (2126 * r + 7152 * g + 722 * b + 5000) / 10000
  }

  /** Number of pixels visited by `for r < dx { for c < dy { ... } }`. */
  function PixelCount(dx: int, dy: int): nat
  {
    if dx > 0 && dy > 0 then dx * dy else 0
  }

  /** The bytes a grayscale pass leaves behind: byte k (k < n) is the luma of the
      original pixel k (bytes 4k .. 4k+2), and every later byte is unchanged. */
  ghost function Grayscale(s: seq<Byte>, n: nat): seq<Byte>
    requires n == 0 || 4 * n - 2 < |s|
  {
    seq(|s|, k requires 0 <= k < |s| =>
      if k < n then Luma(s[4 * k], s[4 * k + 1], s[4 * k + 2]) else s[k])
  }

  /** RgbaToGrayscale: writes byte r·dy + c for r < dx, c < dy, in increasing order,
      reading the RGBA bytes of the same pixel from the same buffer. A write at k
      never lands on a byte 4k' .. 4k'+2 still to be read (k < 4k'), so the in-place
      pass agrees with the out-of-place definition. The last read, byte 4n − 2,
      must be inside the slice (Go panics otherwise). */
  method RgbaToGrayscale(data: array<Byte>, dx: int, dy: int) returns (res: array<Byte>)
    requires PixelCount(dx, dy) == 0 || 4 * PixelCount(dx, dy) - 2 < data.Length
    modifies data
    ensures res == data
    ensures data[..] == Grayscale(old(data[..]), PixelCount(dx, dy))
  {
    ghost var n := PixelCount(dx, dy);
    ghost var orig := data[..];
    ghost var written := 0;  // r·dy while dy > 0: the bytes already holding a luma
    if dx > 0 && dy > 0 { MulMono(1, dx, dy); }
    var r := 0;
    while r < dx
      invariant 0 <= r && (dx >= 0 ==> r <= dx)
      invariant written == (if dy > 0 then r * dy else 0) && 0 <= written <= n
      invariant dy > 0 && r < dx ==> written + dy <= n
      invariant data[..] == Grayscale(orig, written)
    {
      GrayscaleRow(data, orig, written, r, dy);
      if dy > 0 {
        written := written + dy;
        assert written == (r + 1) * dy;
        if r + 1 < dx {
          MulMono(r + 2, dx, dy);
          assert written + dy == (r + 2) * dy;
        }
      }
      r := r + 1;
    }
    assert written == n;
    res := data;
  }

  /** The inner loop of RgbaToGrayscale for row r: bytes r·dy .. r·dy + dy − 1 get the
      lumas of their pixels (nothing happens when dy <= 0). */
  method GrayscaleRow(data: array<Byte>, ghost orig: seq<Byte>, ghost written: int, r: int, dy: int)
    requires |orig| == data.Length
    requires written == (if dy > 0 then r * dy else 0) && written >= 0
    requires dy > 0 ==> 4 * (written + dy) - 2 < |orig|
    requires data[..] == Grayscale(orig, written)
    modifies data
    ensures data[..] == Grayscale(orig, if dy > 0 then written + dy else written)
  {
    var c := 0;
    while c < dy
      invariant 0 <= c && (dy > 0 ==> c <= dy) && (dy <= 0 ==> c == 0)
      invariant data[..] == Grayscale(orig, written + c)
    {
      var k := r * dy + c;
      assert k == written + c;
      GrayscaleStep(orig, k);
      data[k] := Luma(data[4 * k], data[4 * k + 1], data[4 * k + 2]);
      c := c + 1;
    }
  }

  /** One step of the pass: once bytes 0 .. k−1 hold their lumas, pixel k's RGBA bytes
      are still the original ones, and writing its luma extends the prefix by one. */
  lemma GrayscaleStep(s: seq<Byte>, k: nat)
    requires 4 * k + 2 < |s|
    ensures var g := Grayscale(s, k);
            && g[4 * k] == s[4 * k] && g[4 * k + 1] == s[4 * k + 1] && g[4 * k + 2] == s[4 * k + 2]
            && Grayscale(s, k + 1) == g[k := Luma(s[4 * k], s[4 * k + 1], s[4 * k + 2])]
  {
  }

  // ------------------------------------------------------------ image → bytes

  /** Whether the fourth byte of every pixel is forced to 255 (pixels.ImgToPix and the
      pixelate / faceblur copies) or taken from the image (the triangulate and
      facemask copies, which append uint8(a>>8)). */
  datatype AlphaMode = ForceOpaque | KeepAlpha

  /** The four bytes appended for one pixel: uint8(v>>8) per channel. */
  function PixelBytes(c: Rgba64, mode: AlphaMode): (bs: seq<Byte>)
    ensures |bs| == 4
  {
    [c.r / 256, c.g / 256, c.b / 256, if mode == ForceOpaque then 255 else c.a / 256]
  }

  /** Column-major byte layout of an image: pixel (i, j) occupies bytes
      4·((i − minX)·H + (j − minY)) .. +3, where H is the number of rows. */
  ghost function Columns(img: Picture, mode: AlphaMode): seq<Byte>
  {
    var b := img.bounds;
    var w, h := Extent(b.minX, b.maxX), Extent(b.minY, b.maxY);
    if h == 0 then [] else
      seq(4 * (w * h), n requires 0 <= n < 4 * (w * h) =>
        PixelBytes(img.at(b.minX + (n / 4) / h, b.minY + (n / 4) % h), mode)[n % 4])
  }

  /** The candidate fact about ImgToPix's output: length 4·W·H, and pixel (i, j) at
      byte offset 4·((i − minX)·H + (j − minY)), with its alpha byte per the mode. */
  lemma {:induction false} ColumnsAt(img: Picture, mode: AlphaMode, i: int, j: int, ch: int)
    requires img.bounds.Contains(i, j) && 0 <= ch < 4
    ensures var b := img.bounds;
            var w, h := b.maxX - b.minX, b.maxY - b.minY;
            var q := (i - b.minX) * h + (j - b.minY);
            && |Columns(img, mode)| == 4 * (w * h)
            && 0 <= 4 * q + ch < 4 * (w * h)
            && Columns(img, mode)[4 * q + ch] == PixelBytes(img.at(i, j), mode)[ch]
  {
    var b := img.bounds;
    var w, h := b.maxX - b.minX, b.maxY - b.minY;
    assert Extent(b.minX, b.maxX) == w && Extent(b.minY, b.maxY) == h && h > 0;
    var q := (i - b.minX) * h + (j - b.minY);
    IdxBound(j - b.minY, i - b.minX, h, w);
    assert 0 <= q < w * h;
    var n := 4 * q + ch;
    assert n / 4 == q && n % 4 == ch;
    DivModOf(i - b.minX, j - b.minY, h);
    assert q / h == i - b.minX && q % h == j - b.minY;
    assert Columns(img, mode)[n] == PixelBytes(img.at(b.minX + q / h, b.minY + q % h), mode)[ch];
  }

  lemma ColumnsLength(img: Picture, mode: AlphaMode)
    ensures |Columns(img, mode)| ==
      4 * (Extent(img.bounds.minX, img.bounds.maxX) * Extent(img.bounds.minY, img.bounds.maxY))
  {
  }

  /** Appending the four bytes found at offset 4q extends the prefix of length 4q. */
  lemma PrefixStep(all: seq<Byte>, q: nat, bs: seq<Byte>)
    requires 4 * q + 4 <= |all| && |bs| == 4
    requires forall ch :: 0 <= ch < 4 ==> all[4 * q + ch] == bs[ch]
    ensures all[..4 * q + 4] == all[..4 * q] + bs
  {
    assert all[..4 * q + 4] == all[..4 * q] + all[4 * q..4 * q + 4];
  }

  /** ImgToPix: walk the image column by column (X outer, Y inner) and append four
      bytes per pixel. `make` with a negative capacity panics, hence the requires. */
  method ImgToPix(img: Picture, mode: AlphaMode) returns (pixels: seq<Byte>)
    requires img.bounds.maxX * img.bounds.maxY * 4 >= 0
    ensures pixels == Columns(img, mode)
  {
    var b := img.bounds;
    ghost var w, h := Extent(b.minX, b.maxX), Extent(b.minY, b.maxY);
    ghost var all := Columns(img, mode);
    ColumnsLength(img, mode);
    ghost var q := 0;  // pixels appended so far
    if w > 0 { MulMono(1, w, h); }
    pixels := [];
    var i := b.minX;
    while i < b.maxX
      invariant b.minX <= i <= b.minX + w
      invariant q == (i - b.minX) * h && 0 <= q
      invariant i < b.maxX ==> q + h <= w * h
      invariant pixels == all[..4 * q]
    {
      ghost var base := q;
      var j := b.minY;
      while j < b.maxY
        invariant b.minY <= j <= b.minY + h
        invariant q == base + (j - b.minY)
        invariant pixels == all[..4 * q]
      {
        var c := img.at(i, j);
        forall ch | 0 <= ch < 4
          ensures 4 * q + ch < |all| && all[4 * q + ch] == PixelBytes(c, mode)[ch]
        {
          ColumnsAt(img, mode, i, j, ch);
        }
        PrefixStep(all, q, PixelBytes(c, mode));
        pixels := pixels + [c.r / 256, c.g / 256, c.b / 256,
                            if mode == ForceOpaque then 255 else c.a / 256];
        q := q + 1;
        j := j + 1;
      }
      assert q == (i + 1 - b.minX) * h;
      i := i + 1;
      if i < b.maxX {
        MulMono(i + 1 - b.minX, w, h);
        assert q + h == (i + 1 - b.minX) * h;
      }
    }
    assert q == w * h;
  }

  // ------------------------------------------------------------ bytes → image

  /** js.CopyBytesToGo into a fresh make([]byte, n): the first min(n, |src|) bytes
      come from src, the rest keep Go's zero value. */
  function CopyIntoZeroed(src: seq<Byte>, n: nat): (dst: seq<Byte>)
    ensures |dst| == n
    ensures forall k :: 0 <= k < n ==> dst[k] == if k < |src| then src[k] else 0
  {
    if |src| >= n then src[..n] else src + seq(n - |src|, _ => 0)
  }

  /** Pixel k of a packed RGBA buffer (bytes 4k .. 4k+3), color.NRGBA{} past its end. */
  function BufPixel(p: seq<Byte>, k: int): Nrgba
  {
    if 0 <= k && 4 * k + 3 < |p| then Nrgba(p[4 * k], p[4 * k + 1], p[4 * k + 2], p[4 * k + 3])
    else Transparent
  }

  /** The row-major pixels of the dim × dim image PixToImage builds: image point
      (X, Y) holds buffer pixel X·dim + Y, i.e. row X, column Y of the buffer. */
  ghost function Transposed(p: seq<Byte>, dim: nat): (s: seq<Nrgba>)
    ensures |s| == dim * dim
  {
    seq(dim * dim, n requires 0 <= n < dim * dim => BufPixel(p, (n % dim) * dim + n / dim))
  }

  lemma {:induction false} TransposedAt(p: seq<Byte>, dim: nat, x: int, y: int)
    requires 0 <= x < dim && 0 <= y < dim
    ensures 0 <= Idx(x, y, dim) < dim * dim
    ensures Transposed(p, dim)[Idx(x, y, dim)] == BufPixel(p, x * dim + y)
  {
    IdxBound(x, y, dim, dim);
    DivModOf(y, x, dim);
  }

  /** Where image cell n of the dim × dim image takes its pixel from: the buffer pixel
      (n mod dim)·dim + n div dim. */
  function Source(n: int, dim: nat): int
    requires dim > 0
  {
    (n % dim) * dim + n / dim
  }

  /** The image after the first m buffer pixels (in buffer order) have been stored;
      every other cell is still color.NRGBA{}. */
  ghost function Stored(p: seq<Byte>, dim: nat, m: int): (s: seq<Nrgba>)
    ensures |s| == dim * dim
  {
    seq(dim * dim, n requires 0 <= n < dim * dim =>
      if Source(n, dim) < m then BufPixel(p, Source(n, dim)) else Transparent)
  }

  /** Storing buffer pixel m = row·dim + col at image point (row, col) extends Stored. */
  lemma {:induction false} StoredStep(p: seq<Byte>, dim: nat, row: int, col: int)
    requires 0 <= row < dim && 0 <= col < dim
    ensures 0 <= Idx(row, col, dim) < dim * dim
    ensures Stored(p, dim, row * dim + col + 1) ==
      Stored(p, dim, row * dim + col)[Idx(row, col, dim) := BufPixel(p, row * dim + col)]
  {
    var m := row * dim + col;
    IdxBound(row, col, dim, dim);
    var cell := Idx(row, col, dim);
    var next, upd := Stored(p, dim, m + 1), Stored(p, dim, m)[cell := BufPixel(p, m)];
    forall n | 0 <= n < dim * dim
      ensures next[n] == upd[n]
    {
      SourceUnique(n, dim, row, col);
    }
  }

  /** Image cell n takes buffer pixel row·dim + col exactly when it is point (row, col). */
  lemma SourceUnique(n: int, dim: nat, row: int, col: int)
    requires 0 <= n < dim * dim && 0 <= row < dim && 0 <= col < dim
    ensures Source(n, dim) == row * dim + col <==> n == Idx(row, col, dim)
  {
    IdxOfDivMod(n, dim);
    DivModOf(col, row, dim);
    if Source(n, dim) == row * dim + col {
      IdxInjective(n / dim, n % dim, col, row, dim);
    }
  }

  /** Once every buffer pixel has been stored, the image is the transpose. */
  lemma StoredAll(p: seq<Byte>, dim: nat)
    ensures Stored(p, dim, dim * dim) == Transposed(p, dim)
  {
    forall n | 0 <= n < dim * dim
      ensures Source(n, dim) < dim * dim
    {
      IdxOfDivMod(n, dim);
      if n / dim >= dim { MulMono(dim, n / dim, dim); }
      IdxBound(n / dim, n % dim, dim, dim);
    }
  }

  /** PixToImage: image.NewNRGBA(Rect(0, 0, dim, dim)), then for buffer row y and byte
      offset x (step 4) store the four bytes at image point (y, x/4). Every byte read
      lies below 4·dim², which the buffer must cover (Go panics otherwise); a negative
      dim also panics, on the first read. */
  method PixToImage(pixels: seq<Byte>, dim: nat) returns (img: NrgbaImage)
    requires 4 * dim * dim <= |pixels|
    ensures fresh(img) && fresh(img.pix) && img.Valid()
    ensures img.width == dim && img.height == dim
    ensures img.pix[..] == Transposed(pixels, dim)
  {
    img := new NrgbaImage(dim, dim);
    var dx, dy := dim, dim;
    ghost var m := 0;  // buffer pixels stored so far
    assert img.pix[..] == Stored(pixels, dim, 0);
    var y := 0;
    while y < dy
      invariant 0 <= y <= dy && m == y * dim
      invariant img.pix[..] == Stored(pixels, dim, m)
    {
      ghost var base := m;
      var x := 0;
      while x < dx * 4
        invariant 0 <= x <= dx * 4 && x % 4 == 0
        invariant m == base + x / 4
        invariant img.pix[..] == Stored(pixels, dim, m)
      {
        var k := x / 4;
        IdxBound(k, y, dim, dim);
        assert 4 * (dim * dim) <= |pixels|;
        assert x + y * dx * 4 == 4 * m;
        var col := Nrgba(pixels[x + y * dx * 4], pixels[x + y * dx * 4 + 1],
                         pixels[x + y * dx * 4 + 2], pixels[x + y * dx * 4 + 3]);
        assert col == BufPixel(pixels, m);
        StoredStep(pixels, dim, y, k);
        img.SetNRGBA(y, k, col);
        m := m + 1;
        x := x + 4;
      }
      assert m == (y + 1) * dim;
      y := y + 1;
    }
    StoredAll(pixels, dim);
  }

  // ------------------------------------------------------------ round trip

  /** Converting an opaque square buffer to an image and back gives the buffer again:
      the transpose in PixToImage and the column-major walk in ImgToPix cancel, and an
      opaque channel v survives NRGBA.RGBA() as v·257, whose >>8 is v. */
  lemma {:induction false} RoundTrip(p: seq<Byte>, dim: nat, mode: AlphaMode)
    requires |p| == 4 * dim * dim
    requires forall k :: 0 <= k < dim * dim ==> p[4 * k + 3] == 255
    ensures Columns(PictureOf(Transposed(p, dim), dim, dim), mode) == p
  {
    var img := PictureOf(Transposed(p, dim), dim, dim);
    var cols := Columns(img, mode);
    ColumnsLength(img, mode);
    assert |p| == 4 * (dim * dim);
    forall n | 0 <= n < |p|
      ensures cols[n] == p[n]
    {
      RoundTripByte(p, dim, mode, n);
    }
  }

  lemma RoundTripByte(p: seq<Byte>, dim: nat, mode: AlphaMode, n: int)
    requires |p| == 4 * (dim * dim) && 0 <= n < |p|
    requires forall k :: 0 <= k < dim * dim ==> p[4 * k + 3] == 255
    ensures var img := PictureOf(Transposed(p, dim), dim, dim);
            n < |Columns(img, mode)| && Columns(img, mode)[n] == p[n]
  {
    var q, ch := n / 4, n % 4;
    ByteCoords(n, dim);
    var x, y := q / dim, q % dim;
    assert p[4 * q + 3] == 255;
    RoundTripAt(p, dim, mode, x, y, q, ch);
  }

  /** Byte n of a 4·dim² buffer is channel n mod 4 of pixel q = n div 4, at buffer row
      q div dim and column q mod dim. */
  lemma ByteCoords(n: int, dim: nat)
    requires 0 <= n < 4 * (dim * dim)
    ensures var q := n / 4;
            && 0 <= q < dim * dim && 4 * q + n % 4 == n
            && 0 <= q / dim < dim && 0 <= q % dim < dim && q / dim * dim + q % dim == q
  {
    var q := n / 4;
    IdxOfDivMod(q, dim);
    if q / dim >= dim { MulMono(dim, q / dim, dim); }
  }

  /** One byte of the round trip: channel ch of buffer pixel q = x·dim + y is stored at
      image point (x, y) and read back at byte 4q + ch. */
  lemma RoundTripAt(p: seq<Byte>, dim: nat, mode: AlphaMode, x: int, y: int, q: int, ch: int)
    requires |p| == 4 * (dim * dim) && 0 <= x < dim && 0 <= y < dim && 0 <= ch < 4
    requires q == x * dim + y && 0 <= q < dim * dim
    requires p[4 * q + 3] == 255
    ensures var img := PictureOf(Transposed(p, dim), dim, dim);
            4 * q + ch < |Columns(img, mode)| && Columns(img, mode)[4 * q + ch] == p[4 * q + ch]
  {
    var c := BufPixel(p, q);
    assert c == Nrgba(p[4 * q], p[4 * q + 1], p[4 * q + 2], p[4 * q + 3]);
    OpaqueBytes(c, mode);
    assert [c.r, c.g, c.b, c.a][ch] == p[4 * q + ch];
    TransposedPixel(p, dim, x, y);
    var img := PictureOf(Transposed(p, dim), dim, dim);
    assert img.at(x, y) == NrgbaToRgba64(c);
    ColumnsAt(img, mode, x, y, ch);
  }

  /** The image PixToImage builds shows buffer pixel x·dim + y at point (x, y). */
  lemma TransposedPixel(p: seq<Byte>, dim: nat, x: int, y: int)
    requires 0 <= x < dim && 0 <= y < dim
    ensures PixelAt(Transposed(p, dim), dim, dim, x, y) == BufPixel(p, x * dim + y)
  {
    TransposedAt(p, dim, x, y);
  }

  /** An opaque colour read through NRGBA.RGBA() and `>>8` gives back its own bytes. */
  lemma OpaqueBytes(c: Nrgba, mode: AlphaMode)
    requires c.a == 255
    ensures PixelBytes(NrgbaToRgba64(c), mode) == [c.r, c.g, c.b, c.a]
  {
    var w := NrgbaToRgba64(c);
    assert w.r == c.r * 257 == c.r * 256 + c.r;
    assert w.g == c.g * 257 == c.g * 256 + c.g;
    assert w.b == c.b * 257 == c.b * 256 + c.b;
  }
}
