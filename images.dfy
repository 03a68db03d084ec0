/** The parts of Go's `image` and `image/color` packages that the demos' pixel code
    depends on: rectangles, the NRGBA colour and its conversion to 16-bit
    alpha-premultiplied RGBA, and the in-memory NRGBA image. */
module Images {
  import opened GoNumeric

  /** image.Rectangle: the half-open box [minX, maxX) × [minY, maxY). */
  datatype Rect = Rect(minX: int, minY: int, maxX: int, maxY: int)
  {
    function Dx(): int { maxX - minX }
    function Dy(): int { maxY - minY }

    /** Rectangle.Empty */
    predicate Empty() { minX >= maxX || minY >= maxY }

    /** Point.In */
    predicate Contains(x: int, y: int) { minX <= x < maxX && minY <= y < maxY }

    /** Rectangle.Intersect: clip each side, and answer ZR when nothing is left. */
    function Intersect(s: Rect): (r: Rect)
      ensures r.Empty() ==> r == ZR
      ensures forall x, y :: r.Contains(x, y) <==> Contains(x, y) && s.Contains(x, y)
    {
      var r := Rect(Max(minX, s.minX), Max(minY, s.minY), Min(maxX, s.maxX), Min(maxY, s.maxY));
      if r.Empty() then ZR else r
    }
  }

  /** image.ZR, the zero rectangle. */
  const ZR: Rect := Rect(0, 0, 0, 0)

  function Max(a: int, b: int): int { if a < b then b else a }
  function Min(a: int, b: int): int { if a < b then a else b }

  /** Number of iterations of `for i := lo; i < hi; i++`. */
  function Extent(lo: int, hi: int): nat { if hi > lo then hi - lo else 0 }

  /** color.NRGBA: 8-bit, not alpha-premultiplied. */
  datatype Nrgba = Nrgba(r: Byte, g: Byte, b: Byte, a: Byte)

  /** color.NRGBA{}, what NewNRGBA fills an image with. */
  const Transparent: Nrgba := Nrgba(0, 0, 0, 0)

  /** The four values returned by Color.RGBA(): 16-bit, alpha-premultiplied. */
  datatype Rgba64 = Rgba64(r: Word16, g: Word16, b: Word16, a: Word16)

  /** color.NRGBA64: 16-bit, not alpha-premultiplied. */
  datatype Nrgba64 = Nrgba64(r: Word16, g: Word16, b: Word16, a: Word16)

  /** One channel of NRGBA.RGBA(): widen v to 16 bits (v | v<<8), then scale by a/0xff. */
  function Premultiply(v: Byte, a: Byte): (w: Word16)
    ensures a == 255 ==> w == v * 257
  {
    ProductBound(v, a);
    v * 257 * a / 255
  }

  lemma ProductBound(v: Byte, a: Byte)
    ensures 0 <= v * 257 * a <= 255 * 257 * 255
  {
    assert v * 257 * a <= 255 * 257 * a;
  }

  /** color.NRGBA.RGBA() */
  function NrgbaToRgba64(c: Nrgba): Rgba64
  {
    Rgba64(Premultiply(c.r, c.a), Premultiply(c.g, c.a), Premultiply(c.b, c.a), c.a * 257)
  }

  /** A read-only view of any image.Image: its bounds and At(x, y).RGBA(). */
  datatype Picture = Picture(bounds: Rect, at: (int, int) -> Rgba64)

  /** Position of pixel (x, y) in a row-major image of width w (PixOffset / 4). */
  function Idx(x: int, y: int, w: int): int { y * w + x }

  lemma IdxBound(x: int, y: int, w: nat, h: nat)
    requires 0 <= x < w && 0 <= y < h
    ensures 0 <= Idx(x, y, w) < w * h
  {
    MulMono(y + 1, h, w);
  }

  lemma IdxInjective(x: int, y: int, x': int, y': int, w: nat)
    requires 0 <= x < w && 0 <= x' < w
    requires Idx(x, y, w) == Idx(x', y', w)
    ensures x == x' && y == y'
  {
    if y < y' {
      MulMono(y + 1, y', w);
    } else if y' < y {
      MulMono(y' + 1, y, w);
    }
  }

  lemma IdxOfDivMod(n: int, w: nat)
    requires 0 <= n && w > 0
    ensures Idx(n % w, n / w, w) == n && 0 <= n % w < w && n / w >= 0
  {
  }

  /** Pixel (x, y) of a row-major width × height buffer of colours, or color.NRGBA{}
      outside the image, as NRGBA.At answers. */
  function PixelAt(s: seq<Nrgba>, w: nat, h: nat, x: int, y: int): Nrgba
  {
    if 0 <= x < w && 0 <= y < h && Idx(x, y, w) < |s| then s[Idx(x, y, w)] else Transparent
  }

  /** The image.Image view of an NRGBA image with bounds (0, 0, w, h). */
  function PictureOf(s: seq<Nrgba>, w: nat, h: nat): Picture
  {
    Picture(Rect(0, 0, w, h), (x, y) => NrgbaToRgba64(PixelAt(s, w, h, x, y)))
  }

  /** image.NRGBA with bounds (0, 0, width, height); one array cell per pixel, row-major. */
  class NrgbaImage {
    const width: nat
    const height: nat
    const pix: array<Nrgba>

    ghost predicate Valid()
    {
      pix.Length == width * height
    }

    /** image.NewNRGBA(image.Rect(0, 0, w, h)): every pixel is color.NRGBA{}. */
    constructor (w: nat, h: nat)
      ensures Valid() && width == w && height == h && fresh(pix)
      ensures forall n :: 0 <= n < pix.Length ==> pix[n] == Transparent
    {
      width, height := w, h;
      pix := new Nrgba[w * h](_ => Transparent);
    }

    /** NRGBA.SetNRGBA: a point outside the bounds is ignored. */
    method SetNRGBA(x: int, y: int, c: Nrgba)
      requires Valid()
      modifies pix
      ensures 0 <= x < width && 0 <= y < height ==> 0 <= Idx(x, y, width) < pix.Length
      ensures pix[..] == if 0 <= x < width && 0 <= y < height
                         then old(pix[..])[Idx(x, y, width) := c] else old(pix[..])
    {
      if 0 <= x < width && 0 <= y < height {
        IdxBound(x, y, width, height);
        pix[Idx(x, y, width)] := c;
      }
    }

    /** The image as an image.Image value. */
    function View(): Picture
      reads pix
    {
      PictureOf(pix[..], width, height)
    }
  }
}
