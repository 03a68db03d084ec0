/** pixelate/canvas.go: the pixelation demo's canvas state, its key handler and its
    copies of the pixel-buffer conversions. The DOM, the webcam and the render loop are
    not part of this model. */
module PixelateCanvas {
  import opened GoNumeric
  import opened Images
  import Pixels
  import PixelateDrawer

  const MinColors: int := 2
  const MaxColors: int := 32
  const MinCellSize: int := 8
  const MaxCellSize: int := 30

  const WindowWidth: int := 640
  const WindowHeight: int := 480

  /** The canvas fields the key handler reads and writes. */
  datatype Settings = Settings(showPupil: bool, showFrame: bool, useNoise: bool,
                               numOfColors: int, cellSize: int)

  /** NewCanvas: no pupils, no frame, no noise, 8 colours, cells of 10 pixels. */
  const Defaults: Settings := Settings(false, false, false, 8, 10)

  /** "=" and "]" test `<= max` before stepping, so each counter can pass its named
      maximum by one. */
  predicate InRange(s: Settings)
  {
    && MinColors <= s.numOfColors <= MaxColors + 1
    && MinCellSize <= s.cellSize <= MaxCellSize + 1
  }

  /** detectKeyPress: the first matching case of the switch; anything else only
      clears showFrame. */
  function KeyPress(s: Settings, key: string): (t: Settings)
    ensures InRange(s) ==> InRange(t)
  {
    if key == "s" then s.(showPupil := !s.showPupil)
    else if key == "f" then s.(showFrame := !s.showFrame)
    else if key == "n" then s.(useNoise := !s.useNoise)
    else if key == "=" then
      (if s.numOfColors <= MaxColors then s.(numOfColors := s.numOfColors + 1) else s)
    else if key == "-" then
      (if s.numOfColors > MinColors then s.(numOfColors := s.numOfColors - 1) else s)
    else if key == "]" then
      (if s.cellSize <= MaxCellSize then s.(cellSize := s.cellSize + 1) else s)
    else if key == "[" then
      (if s.cellSize > MinCellSize then s.(cellSize := s.cellSize - 1) else s)
    else s.(showFrame := false)
  }

  /** The settings after a sequence of key presses. */
  function Run(s: Settings, keys: seq<string>): Settings
    decreases |keys|
  {
    if |keys| == 0 then s else Run(KeyPress(s, keys[0]), keys[1..])
  }

  /** Whatever keys are pressed, the counters stay within their ranges. */
  lemma {:induction false} RunInRange(s: Settings, keys: seq<string>)
    requires InRange(s)
    ensures InRange(Run(s, keys))
    decreases |keys|
  {
    if |keys| > 0 {
      RunInRange(KeyPress(s, keys[0]), keys[1..]);
    }
  }

  /** From the defaults, every reachable state is in range, so the cell size handed
      to Quant.Draw is positive and used unchanged (no ratio-based fallback). */
  lemma {:induction false} ReachableCellSize(keys: seq<string>, dx: int, dy: int)
    ensures InRange(Run(Defaults, keys))
    ensures PixelateDrawer.CellSize(dx, dy, Run(Defaults, keys).cellSize) == Run(Defaults, keys).cellSize > 0
  {
    RunInRange(Defaults, keys);
  }

  /** n presses of "=" raise numOfColors to at most MaxColors + 1: the bound of
      InRange is reached, and not passed. */
  lemma {:induction false} RepeatMoreColors(s: Settings, n: nat)
    requires s.numOfColors <= MaxColors + 1
    ensures Run(s, seq(n, _ => "=")) ==
            s.(numOfColors := if s.numOfColors + n <= MaxColors + 1 then s.numOfColors + n else MaxColors + 1)
    decreases n
  {
    if n > 0 {
      var keys := seq(n, _ => "=");
      assert keys[0] == "=" && keys[1..] == seq(n - 1, _ => "=");
      RepeatMoreColors(KeyPress(s, "="), n - 1);
    }
  }

  /** "s", "f" and "n" each flip one flag: pressing one twice restores the state. */
  lemma TogglesInvolutive(s: Settings, key: string)
    requires key in ["s", "f", "n"]
    ensures KeyPress(s, key) != s
    ensures KeyPress(KeyPress(s, key), key) == s
  {
  }

  /** Inside the guards, "-" undoes "=" and "[" undoes "]". */
  lemma StepsUndo(s: Settings)
    requires MinColors <= s.numOfColors <= MaxColors
    requires MinCellSize <= s.cellSize <= MaxCellSize
    ensures KeyPress(KeyPress(s, "="), "-") == s
    ensures KeyPress(KeyPress(s, "]"), "[") == s
  {
  }

  /** An unlisted key changes nothing but showFrame, which it clears. */
  lemma OtherKeys(s: Settings, key: string)
    requires key !in ["s", "f", "n", "=", "-", "]", "["]
    ensures KeyPress(s, key) == s.(showFrame := false)
  {
  }

  class Canvas {
    const width: int
    const height: int
    var showPupil: bool
    var showFrame: bool
    var useNoise: bool
    var numOfColors: int
    var cellSize: int
    var frame: NrgbaImage?

    function Current(): Settings
      reads this
    {
      Settings(showPupil, showFrame, useNoise, numOfColors, cellSize)
    }

    predicate Valid()
      reads this
    {
      InRange(Current())
    }

    /** NewCanvas (its DOM calls left out). */
    constructor ()
      ensures Current() == Defaults && Valid()
      ensures width == WindowWidth && height == WindowHeight && frame == null
    {
      width, height := WindowWidth, WindowHeight;
      showPupil, showFrame, useNoise := false, false, false;
      numOfColors, cellSize := 8, 10;
      frame := null;
    }

    /** The keypress event handler installed by detectKeyPress. */
    method DetectKeyPress(key: string)
      requires Valid()
      modifies this
      ensures Valid()
      ensures Current() == KeyPress(old(Current()), key) && frame == old(frame)
    {
      if key == "s" {
        showPupil := !showPupil;
      } else if key == "f" {
        showFrame := !showFrame;
      } else if key == "n" {
        useNoise := !useNoise;
      } else if key == "=" {
        if numOfColors <= MaxColors {
          numOfColors := numOfColors + 1;
        }
      } else if key == "-" {
        if numOfColors > MinColors {
          numOfColors := numOfColors - 1;
        }
      } else if key == "]" {
        if cellSize <= MaxCellSize {
          cellSize := cellSize + 1;
        }
      } else if key == "[" {
        if cellSize > MinCellSize {
          cellSize := cellSize - 1;
        }
      } else {
        showFrame := false;
      }
    }

    /** rgbaToGrayscale: the shared compaction over width × height pixels. */
    method RgbaToGrayscale(data: array<Byte>) returns (res: array<Byte>)
      requires Pixels.PixelCount(width, height) == 0 || 4 * Pixels.PixelCount(width, height) - 2 < data.Length
      modifies data
      ensures res == data
      ensures data[..] == Pixels.Grayscale(old(data[..]), Pixels.PixelCount(width, height))
    {
      res := Pixels.RgbaToGrayscale(data, width, height);
    }

    /** pixToImage: the shared transpose, kept in c.frame. */
    method PixToImage(pixels: seq<Byte>, dim: nat) returns (img: NrgbaImage)
      requires 4 * dim * dim <= |pixels|
      modifies this
      ensures fresh(img) && img.Valid() && img.width == dim && img.height == dim
      ensures img.pix[..] == Pixels.Transposed(pixels, dim)
      ensures frame == img && Current() == old(Current())
    {
      img := Pixels.PixToImage(pixels, dim);
      frame := img;
    }

    /** imgToPix: column order, alpha forced to 255. */
    method ImgToPix(img: Picture) returns (pixels: seq<Byte>)
      requires img.bounds.maxX * img.bounds.maxY * 4 >= 0
      ensures pixels == Pixels.Columns(img, Pixels.ForceOpaque)
    {
      pixels := Pixels.ImgToPix(img, Pixels.ForceOpaque);
    }
  }
}
