/** facemask/canvas.go: the face-mask demo's canvas state, its key handler, the
    processor update and per-face gate of drawDetection, and its copies of the
    pixel-buffer conversions. The per-face goroutines, the triangulation, the mask
    image and the JS canvas calls are not part of this model. */
module FacemaskCanvas {
  import opened GoNumeric
  import opened Images
  import opened Detections
  import opened TriangleProcessor
  import Pixels

  const MinTrianglePoints: int := 50
  const MaxTrianglePoints: int := 800
  const MinPointsThreshold: int := 2
  const MaxPointsThreshold: int := 50
  const MinStrokeWidth: int := 0
  const MaxStrokeWidth: int := 4

  const WindowWidth: int := 640
  const WindowHeight: int := 480

  /** The canvas fields the key handler reads and writes. strokeWidth is a float64
      that only ever holds small whole numbers. */
  datatype Settings = Settings(showFrame: bool, isSolid: bool, isGrayScaled: bool,
                               wireframe: int, trianglePoints: int, pointsThreshold: int,
                               strokeWidth: int)

  /** NewCanvas: wireframe 0, stroke 0, 200 points, threshold 20. */
  const Defaults: Settings := Settings(false, false, false, 0, 200, 20, 0)

  /** The guards are tested before each step, so the point count moves in steps of 20
      over [40, 820] and the threshold in steps of 5 over [0, 55], one step past each
      named bound; the wireframe is 1 exactly while the stroke is positive. */
  predicate InRange(s: Settings)
  {
    && MinTrianglePoints - 10 <= s.trianglePoints <= MaxTrianglePoints + 20
    && s.trianglePoints % 20 == 0
    && 0 <= s.pointsThreshold <= MaxPointsThreshold + 5
    && s.pointsThreshold % 5 == 0
    && MinStrokeWidth <= s.strokeWidth <= MaxStrokeWidth + 1
    && (s.wireframe == 1 || s.wireframe == 0)
    && (s.wireframe == 1 <==> s.strokeWidth > 0)
  }

  /** detectKeyPress: the first matching case; anything else only clears showFrame. */
  function KeyPress(s: Settings, key: string): (t: Settings)
    ensures key in ["f", "g", "-", "=", "[", "]", "1", "2"] && key != "f" ==> t.showFrame == s.showFrame
    ensures key !in ["f", "g", "-", "=", "[", "]", "1", "2"] ==> t == s.(showFrame := false)
    ensures key != "g" ==> t.isGrayScaled == s.isGrayScaled
    ensures key != "-" && key != "=" ==> t.trianglePoints == s.trianglePoints
    ensures key != "[" && key != "]" ==> t.pointsThreshold == s.pointsThreshold
    ensures key != "1" && key != "2" ==> t.strokeWidth == s.strokeWidth && t.wireframe == s.wireframe
    ensures t.isSolid == s.isSolid
  {
    if key == "f" then s.(showFrame := !s.showFrame)
    else if key == "g" then s.(isGrayScaled := !s.isGrayScaled)
    else if key == "-" then
      (if s.trianglePoints > MinTrianglePoints then s.(trianglePoints := s.trianglePoints - 20) else s)
    else if key == "=" then
      (if s.trianglePoints <= MaxTrianglePoints then s.(trianglePoints := s.trianglePoints + 20) else s)
    else if key == "[" then
      (if s.pointsThreshold > MinPointsThreshold then s.(pointsThreshold := s.pointsThreshold - 5) else s)
    else if key == "]" then
      (if s.pointsThreshold <= MaxPointsThreshold then s.(pointsThreshold := s.pointsThreshold + 5) else s)
    else if key == "1" then
      var t := if s.strokeWidth > MinStrokeWidth then s.(strokeWidth := s.strokeWidth - 1) else s;
      if t.strokeWidth == MinStrokeWidth then t.(wireframe := 0) else t
    else if key == "2" then
      var t := s.(wireframe := 1);
      if t.strokeWidth <= MaxStrokeWidth then t.(strokeWidth := t.strokeWidth + 1) else t
    else s.(showFrame := false)
  }

  /** Every key press keeps the ranges and the wireframe/stroke coupling. */
  lemma {:induction false} KeyPressInRange(s: Settings, key: string)
    requires InRange(s)
    ensures InRange(KeyPress(s, key))
  {
    if key == "1" || key == "2" {
      StrokeKeysInRange(s, key);
    } else {
      CounterKeysInRange(s, key);
    }
  }

  lemma StrokeKeysInRange(s: Settings, key: string)
    requires InRange(s) && (key == "1" || key == "2")
    ensures InRange(KeyPress(s, key))
  {
  }

  lemma CounterKeysInRange(s: Settings, key: string)
    requires InRange(s) && key != "1" && key != "2"
    ensures InRange(KeyPress(s, key))
  {
    if key == "-" || key == "=" {
      PointsKeysInRange(s, key);
    } else if key == "[" || key == "]" {
      ThresholdKeysInRange(s, key);
    } else {
      FlagKeysInRange(s, key);
    }
  }

  lemma PointsKeysInRange(s: Settings, key: string)
    requires InRange(s) && (key == "-" || key == "=")
    ensures InRange(KeyPress(s, key))
  {
  }

  lemma ThresholdKeysInRange(s: Settings, key: string)
    requires InRange(s) && (key == "[" || key == "]")
    ensures InRange(KeyPress(s, key))
  {
  }

  /** The remaining keys only touch showFrame and isGrayScaled. */
  lemma FlagKeysInRange(s: Settings, key: string)
    requires InRange(s) && key != "1" && key != "2" && key !in ["-", "=", "[", "]"]
    ensures InRange(KeyPress(s, key))
  {
    var t := KeyPress(s, key);
    assert t == s.(showFrame := t.showFrame, isGrayScaled := t.isGrayScaled);
  }

  function Run(s: Settings, keys: seq<string>): Settings
    decreases |keys|
  {
    if |keys| == 0 then s else Run(KeyPress(s, keys[0]), keys[1..])
  }

  /** From the defaults, whatever keys are pressed, the state stays in range. */
  lemma {:induction false} RunInRange(s: Settings, keys: seq<string>)
    requires InRange(s)
    ensures InRange(Run(s, keys))
    decreases |keys|
  {
    if |keys| > 0 {
      KeyPressInRange(s, keys[0]);
      RunInRange(KeyPress(s, keys[0]), keys[1..]);
    }
  }

  /** "2" then "1" restores a stroke below the maximum, wireframe included. */
  lemma StrokeUndo(s: Settings)
    requires InRange(s) && s.strokeWidth <= MaxStrokeWidth
    ensures KeyPress(KeyPress(s, "2"), "1") == s
  {
  }

  /** An unlisted key changes nothing but showFrame, which it clears. */
  lemma OtherKeys(s: Settings, key: string)
    requires key !in ["f", "g", "-", "=", "[", "]", "1", "2"]
    ensures KeyPress(s, key) == s.(showFrame := false)
  {
  }

  /** The processor NewCanvas builds: the settings plus the fixed point rate 0.075. */
  function InitialParams(s: Settings): Params
  {
    Params(s.trianglePoints, s.pointsThreshold, 0.075, s.wireframe, s.strokeWidth,
           s.isSolid, s.isGrayScaled)
  }

  /** A face is triangulated and masked when det[3] > 50 and both pupils are found. */
  predicate Masked(f: Face)
  {
    Confident(f.det) && f.left.Some? && f.right.Some?
  }

  /** The indices of the masked faces, in order. */
  function MaskedIndices(faces: seq<Face>): (c: seq<nat>)
    ensures |c| <= |faces|
    ensures forall k :: 0 <= k < |c| ==> c[k] < |faces| && Masked(faces[c[k]])
    ensures forall k, l :: 0 <= k < l < |c| ==> c[k] < c[l]
  {
    if |faces| == 0 then [] else
    var i := |faces| - 1;
    MaskedIndices(faces[..i]) + (if Masked(faces[i]) then [i] else [])
  }

  /** MaskedIndices lists exactly the confident faces with both pupils, once each. */
  lemma {:induction false} MaskedIndicesSpec(faces: seq<Face>)
    ensures var m := MaskedIndices(faces);
            && (forall k :: 0 <= k < |m| ==> m[k] < |faces| && Masked(faces[m[k]]))
            && (forall i :: 0 <= i < |faces| && Masked(faces[i]) ==> i in m)
            && (forall k, l :: 0 <= k < l < |m| ==> m[k] < m[l])
  {
    if |faces| > 0 {
      var i := |faces| - 1;
      var prev := faces[..i];
      MaskedIndicesSpec(prev);
      var p, m := MaskedIndices(prev), MaskedIndices(faces);
      assert forall k :: 0 <= k < |p| ==> m[k] == p[k];
      forall j | 0 <= j < i && Masked(faces[j])
        ensures j in m
      {
        assert prev[j] == faces[j];
      }
    }
  }

  /** The frame pixToImage leaves for face i: the scale × scale image of the bytes
      copied from regions[i], transposed. */
  ghost predicate LastFrame(faces: seq<Face>, regions: seq<seq<Byte>>, i: int, img: NrgbaImage)
    reads img.pix
  {
    && 0 <= i < |faces| && 0 <= i < |regions| && faces[i].det.scale >= 0
    && img.width == img.height == faces[i].det.scale
    && img.pix[..] == Pixels.Transposed(Pixels.CopyIntoZeroed(regions[i], 4 * faces[i].det.scale * faces[i].det.scale),
                                        faces[i].det.scale)
  }

  /** MaskedIndices grows by one face at a time. */
  lemma MaskedIndicesSnoc(faces: seq<Face>, i: int)
    requires 0 <= i < |faces|
    ensures MaskedIndices(faces[..i + 1]) == MaskedIndices(faces[..i]) + (if Masked(faces[i]) then [i] else [])
  {
    assert faces[..i + 1][..i] == faces[..i];
  }

  class Canvas {
    const width: int
    const height: int
    const processor: Processor
    var showFrame: bool
    var isSolid: bool
    var isGrayScaled: bool
    var wireframe: int
    var trianglePoints: int
    var pointsThreshold: int
    var strokeWidth: int
    var frame: NrgbaImage?
    /** c.triangle: the copy of the processor the current frame is drawn with. */
    var triangle: Params

    function Current(): Settings
      reads this
    {
      Settings(showFrame, isSolid, isGrayScaled, wireframe, trianglePoints, pointsThreshold,
               strokeWidth)
    }

    predicate Valid()
      reads this
    {
      InRange(Current())
    }

    /** NewCanvas (its DOM calls and the mask image left out). */
    constructor ()
      ensures Current() == Defaults && Valid()
      ensures width == WindowWidth && height == WindowHeight && frame == null
      ensures fresh(processor) && processor.Current() == InitialParams(Defaults)
      ensures triangle == processor.Current()
    {
      width, height := WindowWidth, WindowHeight;
      showFrame, isSolid, isGrayScaled := false, false, false;
      wireframe, strokeWidth := 0, 0;
      trianglePoints, pointsThreshold := 200, 20;
      frame := null;
      var p := new Processor(Params(200, 20, 0.075, 0, 0, false, false));
      processor := p;
      triangle := p.Current();
    }

    /** The keypress event handler installed by detectKeyPress. Its switch is split by
        the pairs of keys that share a field; the cases keep the source's order. */
    method DetectKeyPress(key: string)
      requires Valid()
      modifies this
      ensures Valid()
      ensures Current() == KeyPress(old(Current()), key)
      ensures frame == old(frame) && triangle == old(triangle)
    {
      KeyPressInRange(Current(), key);
      if key == "f" || key == "g" {
        ToggleKeys(key);
      } else if key == "-" || key == "=" {
        PointsKeys(key);
      } else if key == "[" || key == "]" {
        ThresholdKeys(key);
      } else if key == "1" || key == "2" {
        StrokeKeys(key);
      } else {
        showFrame := false;
      }
    }

    method ToggleKeys(key: string)
      requires key == "f" || key == "g"
      modifies this
      ensures Current() == KeyPress(old(Current()), key)
      ensures frame == old(frame) && triangle == old(triangle)
    {
      if key == "f" {
        showFrame := !showFrame;
      } else {
        isGrayScaled := !isGrayScaled;
      }
    }

    method PointsKeys(key: string)
      requires key == "-" || key == "="
      modifies this
      ensures Current() == KeyPress(old(Current()), key)
      ensures frame == old(frame) && triangle == old(triangle)
    {
      if key == "-" {
        if trianglePoints > MinTrianglePoints {
          trianglePoints := trianglePoints - 20;
        }
      } else {
        if trianglePoints <= MaxTrianglePoints {
          trianglePoints := trianglePoints + 20;
        }
      }
    }

    method ThresholdKeys(key: string)
      requires key == "[" || key == "]"
      modifies this
      ensures Current() == KeyPress(old(Current()), key)
      ensures frame == old(frame) && triangle == old(triangle)
    {
      if key == "[" {
        if pointsThreshold > MinPointsThreshold {
          pointsThreshold := pointsThreshold - 5;
        }
      } else {
        if pointsThreshold <= MaxPointsThreshold {
          pointsThreshold := pointsThreshold + 5;
        }
      }
    }

    /** "1" thins the stroke and drops the wireframe at 0; "2" turns the wireframe on
        and thickens the stroke. */
    method StrokeKeys(key: string)
      requires key == "1" || key == "2"
      modifies this
      ensures Current() == KeyPress(old(Current()), key)
      ensures frame == old(frame) && triangle == old(triangle)
    {
      if key == "1" {
        if strokeWidth > MinStrokeWidth {
          strokeWidth := strokeWidth - 1;
        }
        if strokeWidth == MinStrokeWidth {
          wireframe := 0;
        }
      } else {
        wireframe := 1;
        if strokeWidth <= MaxStrokeWidth {
          strokeWidth := strokeWidth + 1;
        }
      }
    }

    /** drawDetection: copy five settings into the processor and snapshot it, then
        triangulate and mask each face whose det[3] > 50 and whose two pupils are
        found. regions[i] holds the bytes getImageData returns for the square of
        faces[i]; every masked face copies them into a scale·scale·4 buffer that
        pixToImage turns into a new c.frame (a negative scale panics there), which the
        triangulation only reads. Returns the indices of the masked faces. */
    method DrawDetection(faces: seq<Face>, regions: seq<seq<Byte>>) returns (masked: seq<nat>)
      requires |regions| == |faces|
      requires forall i :: 0 <= i < |faces| && Masked(faces[i]) ==> faces[i].det.scale >= 0
      modifies processor, this
      ensures processor.maxPoints == trianglePoints && processor.grayscale == isGrayScaled
      ensures processor.strokeWidth == strokeWidth && processor.pointsThreshold == pointsThreshold
      ensures processor.wireframe == wireframe
      ensures processor.pointRate == old(processor.pointRate)
      ensures processor.isStrokeSolid == old(processor.isStrokeSolid)
      ensures triangle == processor.Current()
      ensures Current() == old(Current())
      ensures masked == MaskedIndices(faces)
      ensures |masked| == 0 ==> frame == old(frame)
      ensures |masked| > 0 ==>
                frame != null && fresh(frame) && LastFrame(faces, regions, masked[|masked| - 1], frame)
    {
      SyncProcessor();
      masked := MaskFaces(faces, regions);
    }

    /** The head of drawDetection: the five settings go into the processor, and
        c.triangle takes a copy of it. */
    method SyncProcessor()
      modifies processor, this
      ensures processor.maxPoints == trianglePoints && processor.grayscale == isGrayScaled
      ensures processor.strokeWidth == strokeWidth && processor.pointsThreshold == pointsThreshold
      ensures processor.wireframe == wireframe
      ensures processor.pointRate == old(processor.pointRate)
      ensures processor.isStrokeSolid == old(processor.isStrokeSolid)
      ensures triangle == processor.Current()
      ensures Current() == old(Current()) && frame == old(frame)
    {
      processor.maxPoints := trianglePoints;
      processor.grayscale := isGrayScaled;
      processor.strokeWidth := strokeWidth;
      processor.pointsThreshold := pointsThreshold;
      processor.wireframe := wireframe;
      triangle := processor.Current();
    }

    /** The loop of drawDetection: every face whose det[3] > 50 and whose two pupils
        are found has its region turned into a new c.frame by pixToImage. */
    method MaskFaces(faces: seq<Face>, regions: seq<seq<Byte>>) returns (masked: seq<nat>)
      requires |regions| == |faces|
      requires forall i :: 0 <= i < |faces| && Masked(faces[i]) ==> faces[i].det.scale >= 0
      modifies this
      ensures Current() == old(Current()) && triangle == old(triangle)
      ensures masked == MaskedIndices(faces)
      ensures |masked| == 0 ==> frame == old(frame)
      ensures |masked| > 0 ==>
                frame != null && fresh(frame) && LastFrame(faces, regions, masked[|masked| - 1], frame)
    {
      masked := [];
      ghost var last := -1;  // the last masked face, once there is one
      var i := 0;
      while i < |faces|
        invariant 0 <= i <= |faces|
        invariant masked == MaskedIndices(faces[..i])
        invariant Current() == old(Current()) && triangle == old(triangle)
        invariant |masked| == 0 ==> frame == old(frame)
        invariant |masked| > 0 ==> last == masked[|masked| - 1]
        invariant |masked| > 0 ==> frame != null && fresh(frame) && LastFrame(faces, regions, last, frame)
      {
        MaskedIndicesSnoc(faces, i);
        var hit := MaskFace(faces, regions, i);
        if hit {
          masked := masked + [i];
          last := i;
        }
        i := i + 1;
      }
      assert faces[..i] == faces;
    }

    /** The goroutine of drawDetection for face i: a face whose det[3] > 50 and whose
        two pupils are found gets its region turned into a new c.frame. Reports
        whether it did. */
    method MaskFace(faces: seq<Face>, regions: seq<seq<Byte>>, i: int) returns (hit: bool)
      requires 0 <= i < |faces| == |regions|
      requires Masked(faces[i]) ==> faces[i].det.scale >= 0
      modifies this
      ensures hit == Masked(faces[i])
      ensures Current() == old(Current()) && triangle == old(triangle)
      ensures !hit ==> frame == old(frame)
      ensures hit ==> frame != null && fresh(frame) && LastFrame(faces, regions, i, frame)
    {
      hit := false;
      var face := faces[i];
      if face.det.q > 50 {
        if face.left.Some? && face.right.Some? {
          FaceFrame(faces, regions, i);
          hit := true;
        }
      }
    }

    /** The pixToImage call of one masked face: the bytes of its region, copied into
        a fresh scale·scale·4 buffer, become the new c.frame. */
    method FaceFrame(faces: seq<Face>, regions: seq<seq<Byte>>, i: int)
      requires 0 <= i < |faces| == |regions| && faces[i].det.scale >= 0
      modifies this
      ensures frame != null && fresh(frame) && LastFrame(faces, regions, i, frame)
      ensures Current() == old(Current()) && triangle == old(triangle)
    {
      var scale := faces[i].det.scale;
      var imgData := Pixels.CopyIntoZeroed(regions[i], 4 * scale * scale);
      var img := PixToImage(imgData, scale);
    }

    /** rgbaToGrayscale: the shared compaction over width × height pixels. */
    method RgbaToGrayscale(data: array<Byte>) returns (res: array<Byte>)
      requires Pixels.PixelCount(width, height) == 0 || 4 * Pixels.PixelCount(width, height) - 2 < data.Length
      modifies data
      ensures res == data
      ensures data[..] == Pixels.Grayscale(old(data[..]), Pixels.PixelCount(width, height))
    {
      res := Pixels.RgbaToGrayscale(data, width, height);
    }

    /** pixToImage: the shared transpose, kept in c.frame. */
    method PixToImage(pixels: seq<Byte>, dim: nat) returns (img: NrgbaImage)
      requires 4 * dim * dim <= |pixels|
      modifies this
      ensures fresh(img) && img.Valid() && img.width == dim && img.height == dim
      ensures img.pix[..] == Pixels.Transposed(pixels, dim)
      ensures frame == img && Current() == old(Current()) && triangle == old(triangle)
    {
      img := Pixels.PixToImage(pixels, dim);
      frame := img;
    }

    /** imgToPix: column order, keeping the source alpha (a>>8). */
    method ImgToPix(img: Picture) returns (pixels: seq<Byte>)
      requires img.bounds.maxX * img.bounds.maxY * 4 >= 0
      ensures pixels == Pixels.Columns(img, Pixels.KeepAlpha)
    {
      pixels := Pixels.ImgToPix(img, Pixels.KeepAlpha);
    }
  }
}
