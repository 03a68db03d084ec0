/** bgblur/canvas.go: the background-blur demo's key handler and the integer radii and
    anisotropic scale factors drawDetection derives for the elliptical radial gradient
    around each face. The blur, the gradient and compositing calls are not part of this
    model: drawDetection is modelled by the numbers it hands to them. */
module BgblurCanvas {
  import opened GoNumeric
  import opened Detections

  const MinBlurRadius: int := 5
  const MaxBlurRadius: int := 50

  const WindowWidth: int := 1024
  const WindowHeight: int := 640

  /** The canvas fields the key handler and drawDetection use (blurRadius is a uint32
      that the guards keep far from either end of its range). */
  datatype Settings = Settings(showPupil: bool, showFrame: bool, blurRadius: int)

  /** NewCanvas: no pupils, no frame, radius 20. */
  const Defaults: Settings := Settings(false, false, 20)

  /** "]" tests `<= max` before stepping, so the radius can pass its maximum by one. */
  predicate InRange(s: Settings)
  {
    MinBlurRadius <= s.blurRadius <= MaxBlurRadius + 1
  }

  /** detectKeyPress: the first matching case; anything else only clears showFrame. */
  function KeyPress(s: Settings, key: string): (t: Settings)
    ensures InRange(s) ==> InRange(t)
  {
    if key == "s" then s.(showPupil := !s.showPupil)
    else if key == "f" then s.(showFrame := !s.showFrame)
    else if key == "]" then
      (if s.blurRadius <= MaxBlurRadius then s.(blurRadius := s.blurRadius + 1) else s)
    else if key == "[" then
      (if s.blurRadius > MinBlurRadius then s.(blurRadius := s.blurRadius - 1) else s)
    else s.(showFrame := false)
  }

  function Run(s: Settings, keys: seq<string>): Settings
    decreases |keys|
  {
    if |keys| == 0 then s else Run(KeyPress(s, keys[0]), keys[1..])
  }

  /** From the defaults the radius stays in [5, 51] whatever keys are pressed. */
  lemma {:induction false} RunInRange(s: Settings, keys: seq<string>)
    requires InRange(s)
    ensures InRange(Run(s, keys))
    decreases |keys|
  {
    if |keys| > 0 {
      RunInRange(KeyPress(s, keys[0]), keys[1..]);
    }
  }

  /** "s" and "f" each flip one flag: pressing one twice restores the state. */
  lemma TogglesInvolutive(s: Settings, key: string)
    requires key in ["s", "f"]
    ensures KeyPress(s, key) != s
    ensures KeyPress(KeyPress(s, key), key) == s
  {
  }

  /** Inside the guards, "[" undoes "]". */
  lemma StepUndo(s: Settings)
    requires MinBlurRadius <= s.blurRadius <= MaxBlurRadius
    ensures KeyPress(KeyPress(s, "]"), "[") == s
  {
  }

  /** An unlisted key changes nothing but showFrame, which it clears. */
  lemma OtherKeys(s: Settings, key: string)
    requires key !in ["s", "f", "]", "["]
    ensures KeyPress(s, key) == s.(showFrame := false)
  {
  }

  // ------------------------------------------------------------ drawDetection

  /** The face size and the ellipse's integer radii: scale = int(det[2]·1.2),
      scx = int(scale·0.8/1.6), scy = int(scale·0.8/2.1), rx = scx/2, ry = scy/2. */
  datatype Radii = Radii(scale: int, scx: int, scy: int, rx: int, ry: int)

  /** For a non-negative detection scale the ellipse is at least as wide as it is
      tall, so drawDetection always takes its `rx >= ry` branch. */
  function RadiiOf(d: Detection): (r: Radii)
    ensures d.scale >= 0 ==> r.scale >= 0 && r.scx >= r.scy >= 0 && r.rx >= r.ry >= 0
  {
    var scale := TruncToInt(d.scale as real * 1.2);
    var scx := TruncToInt(scale as real * 0.8 / 1.6);
    var scy := TruncToInt(scale as real * 0.8 / 2.1);
    assert scale >= 0 ==> scx >= scy >= 0 by {
      if scale >= 0 {
        var f := scale as real * 0.8;
        assert f / 1.6 >= f / 2.1 >= 0.0;
        TruncMono(f / 1.6, f / 2.1);
      }
    }
    Radii(scale, scx, scy, GoDiv(scx, 2), GoDiv(scy, 2))
  }

  /** Truncation toward zero keeps the order of non-negative values. */
  lemma TruncMono(a: real, b: real)
    requires a >= b >= 0.0
    ensures TruncToInt(a) >= TruncToInt(b) >= 0
  {
  }

  /** From a detection scale of 5 up, both radii are positive. */
  lemma {:induction false} RadiiPositive(d: Detection)
    requires d.scale >= 5
    ensures RadiiOf(d).rx >= RadiiOf(d).ry >= 1
  {
    var s := TruncToInt(d.scale as real * 1.2);
    assert s >= 6;
    var g := s as real * 0.8 / 2.1;
    assert g >= 2.0;
    TruncMono(g, 2.0);
  }

  /** The gradient's axis scale factors and their inverses, as float64 values. */
  datatype Factors = Factors(scaleX: Float, scaleY: Float, invScaleX: Float, invScaleY: Float)

  /** The quotient of the longer radius by the shorter is a finite factor of at least
      1, and the reverse quotient is its inverse. */
  lemma RatioInverse(a: int, b: int)
    ensures a >= b > 0 ==>
              && Quo(a, b).Finite? && Quo(b, a).Finite?
              && Quo(a, b).v >= 1.0 && Quo(a, b).v * Quo(b, a).v == 1.0
  {
    if a >= b > 0 {
      var x, y := a as real, b as real;
      assert (x / y) * (y / x) == 1.0;
    }
  }

  /** drawDetection's branch on rx >= ry: the longer axis keeps factor 1, the shorter
      one is stretched by the ratio of the radii. With both radii positive every
      factor is finite, the stretch is at least 1, and on each axis the inverse is
      the inverse. */
  function ScaleFactors(rx: int, ry: int): (f: Factors)
    ensures rx >= ry ==> f.scaleX == Finite(1.0) && f.invScaleX == Finite(1.0)
    ensures rx < ry ==> f.scaleY == Finite(1.0) && f.invScaleY == Finite(1.0)
    ensures rx > 0 && ry > 0 ==>
              && f.scaleX.Finite? && f.scaleY.Finite? && f.invScaleX.Finite? && f.invScaleY.Finite?
              && f.scaleX.v >= 1.0 && f.scaleY.v >= 1.0
              && f.scaleX.v * f.invScaleX.v == 1.0
              && f.scaleY.v * f.invScaleY.v == 1.0
  {
    RatioInverse(rx, ry);
    RatioInverse(ry, rx);
    if rx >= ry then Factors(Finite(1.0), Quo(rx, ry), Finite(1.0), Quo(ry, rx))
    else Factors(Quo(ry, rx), Finite(1.0), Quo(rx, ry), Finite(1.0))
  }

  /** A zero vertical radius (faces of scale below 5) gives scaleY = +Inf with
      invScaleY = 0, or NaN for both when the horizontal radius is zero too. */
  lemma ZeroRadius(rx: int, ry: int)
    requires ry == 0 <= rx
    ensures var f := ScaleFactors(rx, ry);
            && f.scaleX == Finite(1.0) && f.invScaleX == Finite(1.0)
            && (rx > 0 ==> f.scaleY == PosInf && f.invScaleY == Finite(0.0))
            && (rx == 0 ==> f.scaleY == NaN && f.invScaleY == NaN)
  {
  }

  /** What drawDetection does for one confident detection: which one it is, the radii
      and factors of its gradient, and whether it strokes the frame and the pupils. */
  datatype FaceWork = FaceWork(index: nat, radii: Radii, factors: Factors, frame: bool, pupils: bool)

  function Work(i: nat, d: Detection, s: Settings): FaceWork
  {
    var r := RadiiOf(d);
    FaceWork(i, r, ScaleFactors(r.rx, r.ry), s.showFrame, s.showPupil)
  }

  /** The decisions of drawDetection over dets, in order. */
  function Plan(dets: seq<Detection>, s: Settings): seq<FaceWork>
  {
    if |dets| == 0 then [] else
    var i := |dets| - 1;
    Plan(dets[..i], s) + (if Confident(dets[i]) then [Work(i, dets[i], s)] else [])
  }

  /** A detection is handled exactly when det[3] > 50, once, in order, with the
      radii and factors of its own scale. */
  lemma {:induction false} PlanSpec(dets: seq<Detection>, s: Settings)
    ensures var p := Plan(dets, s);
            && (forall k :: 0 <= k < |p| ==> p[k].index < |dets| && Confident(dets[p[k].index]))
            && (forall i :: 0 <= i < |dets| && Confident(dets[i]) ==>
                  exists k :: 0 <= k < |p| && p[k].index == i)
            && (forall k, l :: 0 <= k < l < |p| ==> p[k].index < p[l].index)
  {
    if |dets| > 0 {
      var i := |dets| - 1;
      var prev := dets[..i];
      PlanSpec(prev, s);
      var p, q := Plan(prev, s), Plan(dets, s);
      assert forall k :: 0 <= k < |p| ==> q[k] == p[k];
      forall j | 0 <= j < |dets| && Confident(dets[j])
        ensures exists k :: 0 <= k < |q| && q[k].index == j
      {
        if j < i {
          assert prev[j] == dets[j];
          var k :| 0 <= k < |p| && p[k].index == j;
          assert q[k].index == j;
        } else {
          assert q[|p|].index == j;
        }
      }
    }
  }

  /** Each decision carries the radii and factors of its own detection. */
  lemma {:induction false} PlanWork(dets: seq<Detection>, s: Settings)
    ensures forall k :: 0 <= k < |Plan(dets, s)| ==> Plan(dets, s)[k].index < |dets|
    ensures forall k :: 0 <= k < |Plan(dets, s)| ==>
              Plan(dets, s)[k] == Work(Plan(dets, s)[k].index, dets[Plan(dets, s)[k].index], s)
  {
    if |dets| > 0 {
      var i := |dets| - 1;
      var prev := dets[..i];
      PlanWork(prev, s);
      var p, q := Plan(prev, s), Plan(dets, s);
      forall k | 0 <= k < |p|
        ensures q[k] == p[k] && p[k].index < |prev| && dets[p[k].index] == prev[p[k].index]
      {
      }
    }
  }

  /** The straight-line block of drawDetection that sizes one face's gradient:
      the radii, then the scale factors on the branch rx >= ry. The statements are
      written out on purpose, in the order drawDetection runs them; RadiiOf and
      ScaleFactors are their specification, and the first ensures ties the two. */
  method Gradient(det: Detection) returns (r: Radii, f: Factors)
    ensures r == RadiiOf(det) && f == ScaleFactors(r.rx, r.ry)
    ensures det.scale >= 0 ==> r.rx >= r.ry >= 0 && f.scaleX == Finite(1.0) && f.invScaleX == Finite(1.0)
    ensures det.scale >= 5 ==>
              && f.scaleY.Finite? && f.invScaleY.Finite? && f.scaleY.v >= 1.0
              && f.scaleY.v * f.invScaleY.v == 1.0
  {
    var scale := TruncToInt(det.scale as real * 1.2);
    var scx, scy := TruncToInt(scale as real * 0.8 / 1.6), TruncToInt(scale as real * 0.8 / 2.1);
    var rx, ry := GoDiv(scx, 2), GoDiv(scy, 2);
    var scaleX, scaleY, invScaleX, invScaleY;
    if rx >= ry {
      scaleX, invScaleX := Finite(1.0), Finite(1.0);
      scaleY := Quo(rx, ry);
      invScaleY := Quo(ry, rx);
    } else {
      scaleY, invScaleY := Finite(1.0), Finite(1.0);
      scaleX := Quo(ry, rx);
      invScaleX := Quo(rx, ry);
    }
    r, f := Radii(scale, scx, scy, rx, ry), Factors(scaleX, scaleY, invScaleX, invScaleY);
    if det.scale >= 5 {
      RadiiPositive(det);
    }
  }

  class Canvas {
    const width: int
    const height: int
    var showPupil: bool
    var showFrame: bool
    var blurRadius: int

    function Current(): Settings
      reads this
    {
      Settings(showPupil, showFrame, blurRadius)
    }

    predicate Valid()
      reads this
    {
      InRange(Current())
    }

    /** NewCanvas (its DOM calls left out). */
    constructor ()
      ensures Current() == Defaults && Valid()
      ensures width == WindowWidth && height == WindowHeight
    {
      width, height := WindowWidth, WindowHeight;
      showPupil, showFrame := false, false;
      blurRadius := 20;
    }

    /** The keypress event handler installed by detectKeyPress. */
    method DetectKeyPress(key: string)
      requires Valid()
      modifies this
      ensures Valid()
      ensures Current() == KeyPress(old(Current()), key)
    {
      if key == "s" {
        showPupil := !showPupil;
      } else if key == "f" {
        showFrame := !showFrame;
      } else if key == "]" {
        if blurRadius <= MaxBlurRadius {
          blurRadius := blurRadius + 1;
        }
      } else if key == "[" {
        if blurRadius > MinBlurRadius {
          blurRadius := blurRadius - 1;
        }
      } else {
        showFrame := false;
      }
    }

    /** drawDetection's loop: skip a detection unless det[3] > 50, otherwise compute
        its radii and the gradient's scale factors. */
    method DrawDetection(dets: seq<Detection>) returns (work: seq<FaceWork>)
      ensures work == Plan(dets, Current())
    {
      work := [];
      var i := 0;
      while i < |dets|
        invariant 0 <= i <= |dets|
        invariant work == Plan(dets[..i], Current())
      {
        assert dets[..i + 1][..i] == dets[..i];
        var det := dets[i];
        if det.q > 50 {
          var r, f := Gradient(det);
          work := work + [FaceWork(i, r, f, showFrame, showPupil)];
        }
        i := i + 1;
      }
      assert dets[..i] == dets;
    }
  }
}
