/** triangulate/canvas.go: the triangulation demo's canvas state, its key handler, the
    processor update at the start of drawDetection and its copies of the pixel-buffer
    conversions. The per-face goroutines, the triangulation and the JS canvas calls are
    not part of this model; of the goroutines only the confidence gate is kept. */
module TriangulateCanvas {
  import opened GoNumeric
  import opened Images
  import opened Detections
  import opened TriangleProcessor
  import Pixels

  const MinTrianglePoints: int := 150
  const MaxTrianglePoints: int := 750
  const MinPointsThreshold: int := 2
  const MaxPointsThreshold: int := 25
  const MinPointRate: real := 0.010
  const MaxPointRate: real := 0.095
  const MinStrokeWidth: int := 0
  const MaxStrokeWidth: int := 4

  const WindowWidth: int := 640
  const WindowHeight: int := 480

  /** The canvas fields the key handler reads and writes. strokeWidth is a float64
      that only ever holds small whole numbers. */
  datatype Settings = Settings(showFrame: bool, isSolid: bool, isGrayScaled: bool,
                               wireframe: int, trianglePoints: int, pointsThreshold: int,
                               pointRate: real, strokeWidth: int)

  /** NewCanvas: no wireframe, stroke 0, 450 points, threshold 10, point rate 0.075. */
  const Defaults: Settings := Settings(false, false, false, WithoutWireframe, 450, 10, 0.075, 0)

  /** pointRate is a whole number of 0.005 steps. */
  predicate RateSteps(r: real)
  {
    (r * 200.0).Floor as real == r * 200.0
  }

  /** The counters keep their step grid and pass a named maximum by at most one step;
      the wireframe is on exactly while the stroke is positive. */
  predicate InRange(s: Settings)
  {
    && MinTrianglePoints <= s.trianglePoints <= MaxTrianglePoints + 20
    && s.trianglePoints % 20 == 10
    && MinPointsThreshold <= s.pointsThreshold <= MaxPointsThreshold + 1
    && s.pointsThreshold % 2 == 0
    && MinPointRate <= s.pointRate <= MaxPointRate + 0.005 && RateSteps(s.pointRate)
    && MinStrokeWidth <= s.strokeWidth <= MaxStrokeWidth + 1
    && (s.wireframe == WithWireframe || s.wireframe == WithoutWireframe)
    && (s.wireframe == WithWireframe <==> s.strokeWidth > 0)
  }

  /** detectKeyPress: the first matching case; there is no default case. */
  function KeyPress(s: Settings, key: string): (t: Settings)
    ensures key != "f" ==> t.showFrame == s.showFrame
    ensures key != "g" ==> t.isGrayScaled == s.isGrayScaled
    ensures key != "-" && key != "=" ==> t.trianglePoints == s.trianglePoints
    ensures key != "[" && key != "]" ==> t.pointsThreshold == s.pointsThreshold
    ensures key != "1" && key != "2" ==> t.strokeWidth == s.strokeWidth && t.wireframe == s.wireframe
    ensures t.isSolid == s.isSolid
    ensures key != "0" && key != "9" ==> t.pointRate == s.pointRate
  {
    if key == "f" then s.(showFrame := !s.showFrame)
    else if key == "g" then s.(isGrayScaled := !s.isGrayScaled)
    else if key == "-" then
      (if s.trianglePoints > MinTrianglePoints then s.(trianglePoints := s.trianglePoints - 20) else s)
    else if key == "=" then
      (if s.trianglePoints <= MaxTrianglePoints then s.(trianglePoints := s.trianglePoints + 20) else s)
    else if key == "[" then
      (if s.pointsThreshold > MinPointsThreshold then s.(pointsThreshold := s.pointsThreshold - 2) else s)
    else if key == "]" then
      (if s.pointsThreshold <= MaxPointsThreshold then s.(pointsThreshold := s.pointsThreshold + 2) else s)
    else if key == "0" then
      (if s.pointRate <= MaxPointRate then s.(pointRate := s.pointRate + 0.005) else s)
    else if key == "9" then
      (if s.pointRate > MinPointRate then s.(pointRate := s.pointRate - 0.005) else s)
    else if key == "1" then
      var t := if s.strokeWidth > MinStrokeWidth then s.(strokeWidth := s.strokeWidth - 1) else s;
      if t.strokeWidth == MinStrokeWidth then t.(wireframe := WithoutWireframe) else t
    else if key == "2" then
      var t := s.(wireframe := WithWireframe);
      if t.strokeWidth <= MaxStrokeWidth then t.(strokeWidth := t.strokeWidth + 1) else t
    else s
  }

  lemma RateStep(r: real)
    requires RateSteps(r)
    ensures RateSteps(r + 0.005) && RateSteps(r - 0.005)
  {
    var k := (r * 200.0).Floor;
    assert (r + 0.005) * 200.0 == (k + 1) as real;
    assert (r - 0.005) * 200.0 == (k - 1) as real;
  }

  /** Below the guard's 0.010 there is no grid point above 0.005. */
  lemma RateFloor(r: real)
    requires RateSteps(r) && r > MinPointRate
    ensures r - 0.005 >= MinPointRate
  {
    var k := (r * 200.0).Floor;
    assert k as real == r * 200.0 > 2.0;
  }

  /** Every key press keeps the ranges and the wireframe/stroke coupling. */
  lemma {:induction false} KeyPressInRange(s: Settings, key: string)
    requires InRange(s)
    ensures InRange(KeyPress(s, key))
  {
    if key == "0" || key == "9" {
      RateKeysInRange(s, key);
    } else if key == "1" || key == "2" {
      StrokeKeysInRange(s, key);
    } else {
      CounterKeysInRange(s, key);
    }
  }

  lemma RateKeysInRange(s: Settings, key: string)
    requires InRange(s) && (key == "0" || key == "9")
    ensures InRange(KeyPress(s, key))
  {
    RateStep(s.pointRate);
    if key == "9" && s.pointRate > MinPointRate {
      RateFloor(s.pointRate);
    }
  }

  lemma StrokeKeysInRange(s: Settings, key: string)
    requires InRange(s) && (key == "1" || key == "2")
    ensures InRange(KeyPress(s, key))
  {
  }

  lemma CounterKeysInRange(s: Settings, key: string)
    requires InRange(s) && key !in ["0", "9", "1", "2"]
    ensures InRange(KeyPress(s, key))
  {
    if key == "-" || key == "=" {
      PointsKeysInRange(s, key);
    } else if key == "[" || key == "]" {
      ThresholdKeysInRange(s, key);
    } else {
      FlagKeysInRange(s, key);
    }
  }

  lemma PointsKeysInRange(s: Settings, key: string)
    requires InRange(s) && (key == "-" || key == "=")
    ensures InRange(KeyPress(s, key))
  {
  }

  lemma ThresholdKeysInRange(s: Settings, key: string)
    requires InRange(s) && (key == "[" || key == "]")
    ensures InRange(KeyPress(s, key))
  {
  }

  /** The remaining keys only touch showFrame and isGrayScaled. */
  lemma FlagKeysInRange(s: Settings, key: string)
    requires InRange(s) && key !in ["0", "9", "1", "2"] && key !in ["-", "=", "[", "]"]
    ensures InRange(KeyPress(s, key))
  {
    var t := KeyPress(s, key);
    assert t == s.(showFrame := t.showFrame, isGrayScaled := t.isGrayScaled);
  }

  function Run(s: Settings, keys: seq<string>): Settings
    decreases |keys|
  {
    if |keys| == 0 then s else Run(KeyPress(s, keys[0]), keys[1..])
  }

  /** From the defaults, whatever keys are pressed, the state stays in range. */
  lemma {:induction false} RunInRange(s: Settings, keys: seq<string>)
    requires InRange(s)
    ensures InRange(Run(s, keys))
    decreases |keys|
  {
    if |keys| > 0 {
      KeyPressInRange(s, keys[0]);
      RunInRange(KeyPress(s, keys[0]), keys[1..]);
    }
  }

  /** "2" then "1" restores a stroke below the maximum, wireframe included. */
  lemma StrokeUndo(s: Settings)
    requires InRange(s) && s.strokeWidth <= MaxStrokeWidth
    ensures KeyPress(KeyPress(s, "2"), "1") == s
  {
  }

  /** There is no default case: an unlisted key changes nothing. */
  lemma OtherKeys(s: Settings, key: string)
    requires key !in ["f", "g", "-", "=", "[", "]", "0", "9", "1", "2"]
    ensures KeyPress(s, key) == s
  {
  }

  /** The processor parameters NewCanvas starts from. */
  function InitialParams(s: Settings): Params
  {
    Params(s.trianglePoints, s.pointsThreshold, s.pointRate, s.wireframe, s.strokeWidth,
           s.isSolid, s.isGrayScaled)
  }

  class Canvas {
    const width: int
    const height: int
    const processor: Processor
    var showFrame: bool
    var isSolid: bool
    var isGrayScaled: bool
    var wireframe: int
    var trianglePoints: int
    var pointsThreshold: int
    var pointRate: real
    var strokeWidth: int
    var frame: NrgbaImage?
    /** c.triangle: the copy of the processor the current frame is drawn with. */
    var triangle: Params

    function Current(): Settings
      reads this
    {
      Settings(showFrame, isSolid, isGrayScaled, wireframe, trianglePoints, pointsThreshold,
               pointRate, strokeWidth)
    }

    predicate Valid()
      reads this
    {
      InRange(Current())
    }

    /** NewCanvas (its DOM calls left out). */
    constructor ()
      ensures Current() == Defaults && Valid()
      ensures width == WindowWidth && height == WindowHeight && frame == null
      ensures fresh(processor) && processor.Current() == InitialParams(Defaults)
      ensures triangle == processor.Current()
    {
      width, height := WindowWidth, WindowHeight;
      showFrame, isSolid, isGrayScaled := false, false, false;
      wireframe, strokeWidth := WithoutWireframe, 0;
      trianglePoints, pointsThreshold, pointRate := 450, 10, 0.075;
      frame := null;
      var p := new Processor(Params(450, 10, 0.075, WithoutWireframe, 0, false, false));
      processor := p;
      triangle := p.Current();
    }

    /** The keypress event handler installed by detectKeyPress. Its switch is split by
        the pairs of keys that share a field; the cases keep the source's order. */
    method DetectKeyPress(key: string)
      requires Valid()
      modifies this
      ensures Valid()
      ensures Current() == KeyPress(old(Current()), key)
      ensures frame == old(frame) && triangle == old(triangle)
    {
      KeyPressInRange(Current(), key);
      if key == "f" || key == "g" {
        ToggleKeys(key);
      } else if key == "-" || key == "=" {
        PointsKeys(key);
      } else if key == "[" || key == "]" {
        ThresholdKeys(key);
      } else if key == "0" || key == "9" {
        RateKeys(key);
      } else if key == "1" || key == "2" {
        StrokeKeys(key);
      }
    }

    method ToggleKeys(key: string)
      requires key == "f" || key == "g"
      modifies this
      ensures Current() == KeyPress(old(Current()), key)
      ensures frame == old(frame) && triangle == old(triangle)
    {
      if key == "f" {
        showFrame := !showFrame;
      } else {
        isGrayScaled := !isGrayScaled;
      }
    }

    method PointsKeys(key: string)
      requires key == "-" || key == "="
      modifies this
      ensures Current() == KeyPress(old(Current()), key)
      ensures frame == old(frame) && triangle == old(triangle)
    {
      if key == "-" {
        if trianglePoints > MinTrianglePoints {
          trianglePoints := trianglePoints - 20;
        }
      } else {
        if trianglePoints <= MaxTrianglePoints {
          trianglePoints := trianglePoints + 20;
        }
      }
    }

    method ThresholdKeys(key: string)
      requires key == "[" || key == "]"
      modifies this
      ensures Current() == KeyPress(old(Current()), key)
      ensures frame == old(frame) && triangle == old(triangle)
    {
      if key == "[" {
        if pointsThreshold > MinPointsThreshold {
          pointsThreshold := pointsThreshold - 2;
        }
      } else {
        if pointsThreshold <= MaxPointsThreshold {
          pointsThreshold := pointsThreshold + 2;
        }
      }
    }

    method RateKeys(key: string)
      requires key == "0" || key == "9"
      modifies this
      ensures Current() == KeyPress(old(Current()), key)
      ensures frame == old(frame) && triangle == old(triangle)
    {
      if key == "0" {
        if pointRate <= MaxPointRate {
          pointRate := pointRate + 0.005;
        }
      } else {
        if pointRate > MinPointRate {
          pointRate := pointRate - 0.005;
        }
      }
    }

    /** "1" thins the stroke and drops the wireframe at 0; "2" turns the wireframe on
        and thickens the stroke. */
    method StrokeKeys(key: string)
      requires key == "1" || key == "2"
      modifies this
      ensures Current() == KeyPress(old(Current()), key)
      ensures frame == old(frame) && triangle == old(triangle)
    {
      if key == "1" {
        if strokeWidth > MinStrokeWidth {
          strokeWidth := strokeWidth - 1;
        }
        if strokeWidth == MinStrokeWidth {
          wireframe := WithoutWireframe;
        }
      } else {
        wireframe := WithWireframe;
        if strokeWidth <= MaxStrokeWidth {
          strokeWidth := strokeWidth + 1;
        }
      }
    }

    /** drawDetection: copy five settings into the processor and snapshot it, then
        triangulate each face whose det[3] > 50. The point rate and the solid-stroke
        flag are not copied, so after NewCanvas the "0" and "9" keys never reach the
        processor. regions[i] holds the bytes getImageData returns for the square of
        dets[i]; every triangulated face copies them into a scale·scale·4 buffer that
        pixToImage turns into a new c.frame (a negative scale panics there). Returns the
        indices of the faces that are triangulated. */
    method DrawDetection(dets: seq<Detection>, regions: seq<seq<Byte>>) returns (drawn: seq<nat>)
      requires |regions| == |dets|
      requires forall i :: 0 <= i < |dets| && Confident(dets[i]) ==> dets[i].scale >= 0
      modifies processor, this
      ensures processor.maxPoints == trianglePoints && processor.grayscale == isGrayScaled
      ensures processor.strokeWidth == strokeWidth && processor.pointsThreshold == pointsThreshold
      ensures processor.wireframe == wireframe
      ensures processor.pointRate == old(processor.pointRate)
      ensures processor.isStrokeSolid == old(processor.isStrokeSolid)
      ensures triangle == processor.Current()
      ensures Current() == old(Current())
      ensures drawn == ConfidentIndices(dets)
      ensures |drawn| == 0 ==> frame == old(frame)
      ensures |drawn| > 0 ==>
                frame != null && fresh(frame) && frame.width == frame.height == dets[drawn[|drawn| - 1]].scale
    {
      SyncProcessor();
      drawn := TriangulateFaces(dets, regions);
    }

    /** The head of drawDetection: the five settings go into the processor, and
        c.triangle takes a copy of it. */
    method SyncProcessor()
      modifies processor, this
      ensures processor.maxPoints == trianglePoints && processor.grayscale == isGrayScaled
      ensures processor.strokeWidth == strokeWidth && processor.pointsThreshold == pointsThreshold
      ensures processor.wireframe == wireframe
      ensures processor.pointRate == old(processor.pointRate)
      ensures processor.isStrokeSolid == old(processor.isStrokeSolid)
      ensures triangle == processor.Current()
      ensures Current() == old(Current()) && frame == old(frame)
    {
      processor.maxPoints := trianglePoints;
      processor.grayscale := isGrayScaled;
      processor.strokeWidth := strokeWidth;
      processor.pointsThreshold := pointsThreshold;
      processor.wireframe := wireframe;
      triangle := processor.Current();
    }

    /** The loop of drawDetection: every face whose det[3] > 50 has its region turned
        into a new c.frame by pixToImage. */
    method TriangulateFaces(dets: seq<Detection>, regions: seq<seq<Byte>>) returns (drawn: seq<nat>)
      requires |regions| == |dets|
      requires forall i :: 0 <= i < |dets| && Confident(dets[i]) ==> dets[i].scale >= 0
      modifies this
      ensures Current() == old(Current()) && triangle == old(triangle)
      ensures drawn == ConfidentIndices(dets)
      ensures |drawn| == 0 ==> frame == old(frame)
      ensures |drawn| > 0 ==>
                frame != null && fresh(frame) && frame.width == frame.height == dets[drawn[|drawn| - 1]].scale
    {
      drawn := [];
      ghost var last := -1;  // the last triangulated face, once there is one
      var i := 0;
      while i < |dets|
        invariant 0 <= i <= |dets|
        invariant drawn == ConfidentIndices(dets[..i])
        invariant Current() == old(Current()) && triangle == old(triangle)
        invariant |drawn| > 0 ==> last == drawn[|drawn| - 1] && 0 <= last < |dets|
        invariant |drawn| == 0 ==> frame == old(frame)
        invariant |drawn| > 0 ==> frame != null && fresh(frame) && frame.width == frame.height == dets[last].scale
      {
        ConfidentIndicesSnoc(dets, i);
        if dets[i].q > 50 {
          TriangulateFace(dets, regions, i);
          drawn := drawn + [i];
          last := i;
        }
        i := i + 1;
      }
      assert dets[..i] == dets;
    }

    /** The goroutine of drawDetection for a face with det[3] > 50: the bytes of its
        region, copied into a fresh scale·scale·4 buffer, become a new c.frame through
        pixToImage. */
    method TriangulateFace(dets: seq<Detection>, regions: seq<seq<Byte>>, i: int)
      requires 0 <= i < |dets| == |regions| && dets[i].scale >= 0
      modifies this
      ensures frame != null && fresh(frame) && frame.width == frame.height == dets[i].scale
      ensures Current() == old(Current()) && triangle == old(triangle)
    {
      var scale := dets[i].scale;
      var imgData := Pixels.CopyIntoZeroed(regions[i], 4 * scale * scale);
      var img := PixToImage(imgData, scale);
    }

    /** rgbaToGrayscale: the shared compaction over width × height pixels. */
    method RgbaToGrayscale(data: array<Byte>) returns (res: array<Byte>)
      requires Pixels.PixelCount(width, height) == 0 || 4 * Pixels.PixelCount(width, height) - 2 < data.Length
      modifies data
      ensures res == data
      ensures data[..] == Pixels.Grayscale(old(data[..]), Pixels.PixelCount(width, height))
    {
      res := Pixels.RgbaToGrayscale(data, width, height);
    }

    /** pixToImage: the shared transpose, kept in c.frame. */
    method PixToImage(pixels: seq<Byte>, dim: nat) returns (img: NrgbaImage)
      requires 4 * dim * dim <= |pixels|
      modifies this
      ensures fresh(img) && img.Valid() && img.width == dim && img.height == dim
      ensures img.pix[..] == Pixels.Transposed(pixels, dim)
      ensures frame == img && Current() == old(Current()) && triangle == old(triangle)
    {
      img := Pixels.PixToImage(pixels, dim);
      frame := img;
    }

    /** imgToPix: column order, keeping the source alpha (a>>8). */
    method ImgToPix(img: Picture) returns (pixels: seq<Byte>)
      requires img.bounds.maxX * img.bounds.maxY * 4 >= 0
      ensures pixels == Pixels.Columns(img, Pixels.KeepAlpha)
    {
      pixels := Pixels.ImgToPix(img, Pixels.KeepAlpha);
    }
  }
}
