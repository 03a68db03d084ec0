/** faceblur/canvas.go: the face-blur demo's canvas state, its key handler, the
    per-face decisions of drawDetection and its copies of the pixel-buffer conversions.
    The blur itself (stackblur), image/draw compositing and the JS canvas calls are not
    part of this model: drawDetection is modelled by what it decides for each face. */
module FaceblurCanvas {
  import opened GoNumeric
  import opened Images
  import opened Detections
  import Ellipses
  import Pixels

  const MinBlurRadius: int := 5
  const MaxBlurRadius: int := 50

  const WindowWidth: int := 1024
  const WindowHeight: int := 640

  /** The canvas fields the key handler and drawDetection use. */
  datatype Settings = Settings(showPupil: bool, showFrame: bool, isBlured: bool, blurRadius: int)

  /** NewCanvas: blurring on, radius 20, no pupils, no frame. */
  const Defaults: Settings := Settings(false, false, true, 20)

  /** "]" tests `<= max` before stepping, so the radius can pass its maximum by one. */
  predicate InRange(s: Settings)
  {
    MinBlurRadius <= s.blurRadius <= MaxBlurRadius + 1
  }

  /** detectKeyPress: the first matching case; anything else only clears showFrame. */
  function KeyPress(s: Settings, key: string): (t: Settings)
    ensures InRange(s) ==> InRange(t)
  {
    if key == "s" then s.(showPupil := !s.showPupil)
    else if key == "f" then s.(showFrame := !s.showFrame)
    else if key == "b" then s.(isBlured := !s.isBlured)
    else if key == "]" then
      (if s.blurRadius <= MaxBlurRadius then s.(blurRadius := s.blurRadius + 1) else s)
    else if key == "[" then
      (if s.blurRadius > MinBlurRadius then s.(blurRadius := s.blurRadius - 1) else s)
    else s.(showFrame := false)
  }

  function Run(s: Settings, keys: seq<string>): Settings
    decreases |keys|
  {
    if |keys| == 0 then s else Run(KeyPress(s, keys[0]), keys[1..])
  }

  /** From the defaults the radius stays in [5, 51] whatever keys are pressed. */
  lemma {:induction false} RunInRange(s: Settings, keys: seq<string>)
    requires InRange(s)
    ensures InRange(Run(s, keys))
    decreases |keys|
  {
    if |keys| > 0 {
      RunInRange(KeyPress(s, keys[0]), keys[1..]);
    }
  }

  /** "s", "f" and "b" each flip one flag: pressing one twice restores the state. */
  lemma TogglesInvolutive(s: Settings, key: string)
    requires key in ["s", "f", "b"]
    ensures KeyPress(s, key) != s
    ensures KeyPress(KeyPress(s, key), key) == s
  {
  }

  /** An unlisted key changes nothing but showFrame, which it clears. */
  lemma OtherKeys(s: Settings, key: string)
    requires key !in ["s", "f", "b", "]", "["]
    ensures KeyPress(s, key) == s.(showFrame := false)
  {
  }

  // ------------------------------------------------------------ drawDetection

  /** The face region replaced by its blurred copy: the getImageData / putImageData
      origin (row − scale/2, col − scale/2), its side, and the elliptical mask. */
  datatype BlurRegion = BlurRegion(x: int, y: int, size: int, mask: Ellipses.Ellipse)

  /** What drawDetection does for one confident detection: which one it is, the blur
      (when isBlured), whether it strokes the face rectangle and the pupils. */
  datatype FaceWork = FaceWork(index: nat, blur: Option<BlurRegion>, frame: bool, pupils: bool)

  /** The region of a detection, with row = det[1], col = det[0], scale = det[2] and the
      ellipse radii int(scale·0.8/1.55) and int(scale·0.8/2.2): for a non-negative
      scale, a square of side scale holding the mask's centre (det[1], det[0]), with
      the mask wider than it is tall. */
  function Region(d: Detection): (r: BlurRegion)
    ensures r.size == d.scale && r.mask.cx == d.col && r.mask.cy == d.row
    ensures d.scale >= 0 ==>
              && r.x <= r.mask.cx <= r.x + r.size && r.y <= r.mask.cy <= r.y + r.size
              && r.mask.rx >= r.mask.ry >= 0
  {
    var row, col, scale := d.col, d.row, d.scale;
    var s := scale as real;
    assert scale >= 0 ==> s * 0.8 / 1.55 >= s * 0.8 / 2.2 >= 0.0;
    BlurRegion(row - GoDiv(scale, 2), col - GoDiv(scale, 2), scale,
               Ellipses.Ellipse(row, col, TruncToInt(s * 0.8 / 1.55), TruncToInt(s * 0.8 / 2.2)))
  }

  function Work(i: nat, d: Detection, s: Settings): FaceWork
  {
    FaceWork(i, if s.isBlured then Some(Region(d)) else None, s.showFrame, s.showPupil)
  }

  /** The decisions of drawDetection over dets, in order. */
  function Plan(dets: seq<Detection>, s: Settings): (p: seq<FaceWork>)
    ensures |p| <= |dets|
    ensures forall k :: 0 <= k < |p| ==> p[k].index < |dets| && Confident(dets[p[k].index])
  {
    if |dets| == 0 then [] else
    var i := |dets| - 1;
    Plan(dets[..i], s) + (if Confident(dets[i]) then [Work(i, dets[i], s)] else [])
  }

  /** Plan grows by one detection at a time. */
  lemma PlanSnoc(dets: seq<Detection>, i: int, s: Settings)
    requires 0 <= i < |dets|
    ensures Plan(dets[..i + 1], s) == Plan(dets[..i], s) + (if Confident(dets[i]) then [Work(i, dets[i], s)] else [])
  {
    assert dets[..i + 1][..i] == dets[..i];
  }

  /** Some entry of the plan handles detection i. */
  predicate Handles(p: seq<FaceWork>, i: int) {
    exists k :: 0 <= k < |p| && p[k].index == i
  }

  /** A detection is handled exactly when it is confident (det[3] > 50), once, in
      order, and blurred exactly when isBlured is set. */
  lemma PlanSpec(dets: seq<Detection>, s: Settings)
    ensures forall k :: 0 <= k < |Plan(dets, s)| ==>
              var w := Plan(dets, s)[k];
              && w.index < |dets| && Confident(dets[w.index])
              && w == Work(w.index, dets[w.index], s)
              && (w.blur.Some? <==> s.isBlured)
    ensures forall i :: 0 <= i < |dets| && Confident(dets[i]) ==> Handles(Plan(dets, s), i)
    ensures forall k, l :: 0 <= k < l < |Plan(dets, s)| ==> Plan(dets, s)[k].index < Plan(dets, s)[l].index
  {
    PlanCovers(dets, s);
    PlanOrdered(dets, s);
    PlanWork(dets, s);
  }

  lemma {:induction false} PlanCovers(dets: seq<Detection>, s: Settings)
    ensures forall i :: 0 <= i < |dets| && Confident(dets[i]) ==> Handles(Plan(dets, s), i)
  {
    if |dets| > 0 {
      var i := |dets| - 1;
      var prev := dets[..i];
      PlanCovers(prev, s);
      var p, q := Plan(prev, s), Plan(dets, s);
      assert q == p + (if Confident(dets[i]) then [Work(i, dets[i], s)] else []);
      forall j | 0 <= j < |dets| && Confident(dets[j])
        ensures Handles(q, j)
      {
        if j < i {
          assert prev[j] == dets[j];
          assert Handles(p, j);
          var k :| 0 <= k < |p| && p[k].index == j;
          assert q[k] == p[k];
        } else {
          assert q[|p|].index == j;
        }
      }
    }
  }

  lemma {:induction false} PlanOrdered(dets: seq<Detection>, s: Settings)
    ensures forall k, l :: 0 <= k < l < |Plan(dets, s)| ==> Plan(dets, s)[k].index < Plan(dets, s)[l].index
  {
    if |dets| > 0 {
      var i := |dets| - 1;
      var prev := dets[..i];
      PlanOrdered(prev, s);
      var p, q := Plan(prev, s), Plan(dets, s);
      assert q == p + (if Confident(dets[i]) then [Work(i, dets[i], s)] else []);
      forall k, l | 0 <= k < l < |q|
        ensures q[k].index < q[l].index
      {
        assert q[k] == p[k];
        if l < |p| {
          assert q[l] == p[l];
        }
      }
    }
  }

  lemma {:induction false} PlanWork(dets: seq<Detection>, s: Settings)
    ensures forall k :: 0 <= k < |Plan(dets, s)| ==>
              Plan(dets, s)[k] == Work(Plan(dets, s)[k].index, dets[Plan(dets, s)[k].index], s)
  {
    if |dets| > 0 {
      var i := |dets| - 1;
      var prev := dets[..i];
      PlanWork(prev, s);
      var p, q := Plan(prev, s), Plan(dets, s);
      forall k | 0 <= k < |p|
        ensures q[k] == p[k] && dets[p[k].index] == prev[p[k].index]
      {
      }
    }
  }

  class Canvas {
    const width: int
    const height: int
    var showPupil: bool
    var showFrame: bool
    var isBlured: bool
    var blurRadius: int
    var frame: NrgbaImage?

    function Current(): Settings
      reads this
    {
      Settings(showPupil, showFrame, isBlured, blurRadius)
    }

    predicate Valid()
      reads this
    {
      InRange(Current())
    }

    /** NewCanvas (its DOM calls left out). */
    constructor ()
      ensures Current() == Defaults && Valid()
      ensures width == WindowWidth && height == WindowHeight && frame == null
    {
      width, height := WindowWidth, WindowHeight;
      showPupil, showFrame, isBlured := false, false, true;
      blurRadius := 20;
      frame := null;
    }

    /** The keypress event handler installed by detectKeyPress. */
    method DetectKeyPress(key: string)
      requires Valid()
      modifies this
      ensures Valid()
      ensures Current() == KeyPress(old(Current()), key) && frame == old(frame)
    {
      if key == "s" {
        showPupil := !showPupil;
      } else if key == "f" {
        showFrame := !showFrame;
      } else if key == "b" {
        isBlured := !isBlured;
      } else if key == "]" {
        if blurRadius <= MaxBlurRadius {
          blurRadius := blurRadius + 1;
        }
      } else if key == "[" {
        if blurRadius > MinBlurRadius {
          blurRadius := blurRadius - 1;
        }
      } else {
        showFrame := false;
      }
    }

    /** drawDetection's loop: skip a detection unless det[3] > 50, otherwise blur it
        (when isBlured) and stroke its frame and pupils as the flags say. regions[i]
        holds the bytes getImageData returns for the square of dets[i]; every blurred
        face copies them into a scale·scale·4 buffer that pixToImage turns into a new
        c.frame (a negative scale panics there). */
    method DrawDetection(dets: seq<Detection>, regions: seq<seq<Byte>>) returns (work: seq<FaceWork>)
      requires |regions| == |dets|
      requires isBlured ==> forall i :: 0 <= i < |dets| && Confident(dets[i]) ==> dets[i].scale >= 0
      modifies this
      ensures work == Plan(dets, Current()) && Current() == old(Current())
      ensures |work| == 0 || !isBlured ==> frame == old(frame)
      ensures |work| > 0 && isBlured ==>
                frame != null && fresh(frame)
                && frame.width == frame.height == dets[work[|work| - 1].index].scale
    {
      work := [];
      ghost var cur := Current();
      ghost var last := -1;  // the last handled detection, once there is one
      var i := 0;
      while i < |dets|
        invariant 0 <= i <= |dets|
        invariant work == Plan(dets[..i], cur) && Current() == cur
        invariant |work| > 0 ==> last == work[|work| - 1].index && 0 <= last < |dets|
        invariant |work| == 0 || !isBlured ==> frame == old(frame)
        invariant |work| > 0 && isBlured ==>
                    frame != null && fresh(frame) && frame.width == frame.height == dets[last].scale
      {
        PlanSnoc(dets, i, cur);
        var det := dets[i];
        if det.q > 50 {
          var w := HandleFace(dets, regions, i);
          work := work + [w];
          last := i;
        }
        i := i + 1;
      }
      assert dets[..i] == dets;
    }

    /** The body of drawDetection's loop for a detection with det[3] > 50: when
        isBlured, its blur region, whose bytes pixToImage turns into a new c.frame;
        then the frame and pupil strokes as the flags say. */
    method HandleFace(dets: seq<Detection>, regions: seq<seq<Byte>>, i: int) returns (w: FaceWork)
      requires 0 <= i < |dets| == |regions| && Confident(dets[i])
      requires isBlured ==> dets[i].scale >= 0
      modifies this
      ensures w == Work(i, dets[i], Current()) && Current() == old(Current())
      ensures !isBlured ==> frame == old(frame)
      ensures isBlured ==> frame != null && fresh(frame) && frame.width == frame.height == dets[i].scale
    {
      var blur := None;
      if isBlured {
        blur := Some(Region(dets[i]));
        FaceFrame(dets, regions, i);
      }
      w := FaceWork(i, blur, showFrame, showPupil);
    }

    /** The pixToImage call of one blurred face: the bytes of its region, copied into
        a fresh scale·scale·4 buffer, become the new c.frame. */
    method FaceFrame(dets: seq<Detection>, regions: seq<seq<Byte>>, i: int)
      requires 0 <= i < |dets| == |regions| && dets[i].scale >= 0
      modifies this
      ensures frame != null && fresh(frame) && frame.width == frame.height == dets[i].scale
      ensures Current() == old(Current())
    {
      var scale := dets[i].scale;
      var imgData := Pixels.CopyIntoZeroed(regions[i], 4 * scale * scale);
      var img := PixToImage(imgData, scale);
    }

    /** rgbaToGrayscale: the shared compaction over width × height pixels. */
    method RgbaToGrayscale(data: array<Byte>) returns (res: array<Byte>)
      requires Pixels.PixelCount(width, height) == 0 || 4 * Pixels.PixelCount(width, height) - 2 < data.Length
      modifies data
      ensures res == data
      ensures data[..] == Pixels.Grayscale(old(data[..]), Pixels.PixelCount(width, height))
    {
      res := Pixels.RgbaToGrayscale(data, width, height);
    }

    /** pixToImage: the shared transpose, kept in c.frame. */
    method PixToImage(pixels: seq<Byte>, dim: nat) returns (img: NrgbaImage)
      requires 4 * dim * dim <= |pixels|
      modifies this
      ensures fresh(img) && img.Valid() && img.width == dim && img.height == dim
      ensures img.pix[..] == Pixels.Transposed(pixels, dim)
      ensures frame == img && Current() == old(Current())
    {
      img := Pixels.PixToImage(pixels, dim);
      frame := img;
    }

    /** imgToPix: column order, alpha forced to 255. */
    method ImgToPix(img: Picture) returns (pixels: seq<Byte>)
      requires img.bounds.maxX * img.bounds.maxY * 4 >= 0
      ensures pixels == Pixels.Columns(img, Pixels.ForceOpaque)
    {
      pixels := Pixels.ImgToPix(img, Pixels.ForceOpaque);
    }
  }
}
