/** masquerade/canvas.go: the mask demo's key handler (flag toggles and the cycling of
    the eye-mask and mouth-mask indices), the per-face decisions of drawDetection and
    its grayscale conversion. The mask images, their natural sizes, the lean angles
    and the JS canvas calls are not part of this model. */
module MasqueradeCanvas {
  import opened GoNumeric
  import opened Detections
  import Pixels

  /** len(eyemasks) and len(mouthmasks). */
  const EyeMasks: int := 6
  const MouthMasks: int := 2

  const WindowWidth: int := 1024
  const WindowHeight: int := 640

  /** The canvas flags the key handler toggles and drawDetection reads. */
  datatype Flags = Flags(showPupil: bool, showFaceRect: bool, showEyeMask: bool,
                         showMouthMask: bool, showCoord: bool, drawCircle: bool)

  /** The package-level eyeMaskIdx and mouthMaskIdx. */
  datatype Masks = Masks(eyeMaskIdx: int, mouthMaskIdx: int)

  datatype Settings = Settings(flags: Flags, masks: Masks)

  /** NewCanvas: pupils and both masks shown, no rectangle, no circle, no coordinates;
      both indices start at Go's zero value. */
  const Defaults: Settings := Settings(Flags(true, false, true, true, false, false), Masks(0, 0))

  predicate InRange(s: Settings)
  {
    0 <= s.masks.eyeMaskIdx < EyeMasks && 0 <= s.masks.mouthMaskIdx < MouthMasks
  }

  /** "e" / "r": step up, back to 0 past the last mask. */
  function CycleUp(i: int, n: int): int
  {
    if i + 1 > n - 1 then 0 else i + 1
  }

  /** "d" / "f": step down, to the last mask below 0. */
  function CycleDown(i: int, n: int): int
  {
    if i - 1 < 0 then n - 1 else i - 1
  }

  /** Both steps stay among the n masks and each undoes the other. */
  lemma CycleBounds(i: int, n: int)
    requires 0 <= i < n
    ensures 0 <= CycleUp(i, n) < n && 0 <= CycleDown(i, n) < n
    ensures CycleDown(CycleUp(i, n), n) == i && CycleUp(CycleDown(i, n), n) == i
    ensures CycleUp(i, n) == (i + 1) % n
  {
  }

  /** The flag cases of detectKeyPress. */
  function Toggle(f: Flags, key: string): (r: Flags)
    ensures key in ["q", "z", "a", "w", "x", "s"] <==> r != f
  {
    if key == "q" then f.(showFaceRect := !f.showFaceRect)
    else if key == "z" then f.(showPupil := !f.showPupil)
    else if key == "a" then f.(drawCircle := !f.drawCircle)
    else if key == "w" then f.(showEyeMask := !f.showEyeMask)
    else if key == "x" then f.(showCoord := !f.showCoord)
    else if key == "s" then f.(showMouthMask := !f.showMouthMask)
    else f
  }

  /** The mask cases of detectKeyPress. */
  function Cycle(m: Masks, key: string): (r: Masks)
    ensures key !in ["e", "d", "r", "f"] ==> r == m
    ensures 0 <= m.eyeMaskIdx < EyeMasks && 0 <= m.mouthMaskIdx < MouthMasks ==>
              0 <= r.eyeMaskIdx < EyeMasks && 0 <= r.mouthMaskIdx < MouthMasks
              && (key in ["e", "d", "r", "f"] <==> r != m)
  {
    if key == "e" then m.(eyeMaskIdx := CycleUp(m.eyeMaskIdx, EyeMasks))
    else if key == "d" then m.(eyeMaskIdx := CycleDown(m.eyeMaskIdx, EyeMasks))
    else if key == "r" then m.(mouthMaskIdx := CycleUp(m.mouthMaskIdx, MouthMasks))
    else if key == "f" then m.(mouthMaskIdx := CycleDown(m.mouthMaskIdx, MouthMasks))
    else m
  }

  /** detectKeyPress: each key belongs to one case, which changes either a flag or a
      mask index; the switch has no default, so any other key changes nothing. */
  function KeyPress(s: Settings, key: string): (r: Settings)
    ensures r.flags == s.flags || r.masks == s.masks
    ensures InRange(s) ==> InRange(r)
  {
    Settings(Toggle(s.flags, key), Cycle(s.masks, key))
  }

  function Run(s: Settings, keys: seq<string>): Settings
    decreases |keys|
  {
    if |keys| == 0 then s else Run(KeyPress(s, keys[0]), keys[1..])
  }

  /** Whatever keys are pressed, both indices select an existing mask. */
  lemma {:induction false} RunInRange(s: Settings, keys: seq<string>)
    requires InRange(s)
    ensures InRange(Run(s, keys))
    decreases |keys|
  {
    if |keys| > 0 {
      CycleBounds(s.masks.eyeMaskIdx, EyeMasks);
      CycleBounds(s.masks.mouthMaskIdx, MouthMasks);
      RunInRange(KeyPress(s, keys[0]), keys[1..]);
    }
  }

  /** "e" then "d", "d" then "e", "r" then "f" and "f" then "r" each restore the state. */
  lemma CycleUndo(s: Settings)
    requires InRange(s)
    ensures KeyPress(KeyPress(s, "e"), "d") == s && KeyPress(KeyPress(s, "d"), "e") == s
    ensures KeyPress(KeyPress(s, "r"), "f") == s && KeyPress(KeyPress(s, "f"), "r") == s
  {
    CycleBounds(s.masks.eyeMaskIdx, EyeMasks);
    CycleBounds(s.masks.mouthMaskIdx, MouthMasks);
  }

  /** k presses of "e" advance the eye mask by k, modulo the number of masks. */
  lemma {:induction false} RepeatNextEye(s: Settings, k: nat)
    requires InRange(s)
    ensures Run(s, seq(k, _ => "e")) == s.(masks := s.masks.(eyeMaskIdx := (s.masks.eyeMaskIdx + k) % EyeMasks))
    decreases k
  {
    if k > 0 {
      var keys := seq(k, _ => "e");
      assert keys[0] == "e" && keys[1..] == seq(k - 1, _ => "e");
      var t := KeyPress(s, "e");
      CycleBounds(s.masks.eyeMaskIdx, EyeMasks);
      RepeatNextEye(t, k - 1);
      var i := s.masks.eyeMaskIdx;
      assert (((i + 1) % EyeMasks) + (k - 1)) % EyeMasks == (i + k) % EyeMasks by {
        if i + 1 == EyeMasks {
          assert (i + k) == (k - 1) + EyeMasks;
        }
      }
    }
  }

  /** Six presses of "e" bring back the mask the cycle started from. */
  lemma SixEyePresses(s: Settings)
    requires InRange(s)
    ensures Run(s, ["e", "e", "e", "e", "e", "e"]) == s
  {
    RepeatNextEye(s, 6);
    assert seq(6, _ => "e") == ["e", "e", "e", "e", "e", "e"];
  }

  /** Each of "q", "z", "a", "w", "x" and "s" flips one flag: twice restores the state. */
  lemma TogglesInvolutive(s: Settings, key: string)
    requires key in ["q", "z", "a", "w", "x", "s"]
    ensures KeyPress(s, key) != s
    ensures KeyPress(KeyPress(s, key), key) == s
  {
    assert key == "q" || key == "z" || key == "a" || key == "w" || key == "x" || key == "s";
    assert key != "e" && key != "d" && key != "r" && key != "f";
    assert Cycle(Cycle(s.masks, key), key) == s.masks;
  }

  /** Any other key leaves the state as it is. */
  lemma OtherKeys(s: Settings, key: string)
    requires key !in ["q", "z", "a", "w", "x", "s", "e", "d", "r", "f"]
    ensures KeyPress(s, key) == s
  {
  }

  // ------------------------------------------------------------ drawDetection

  /** The `point` struct: p1 holds the left pupil's (Row, Col), p2 the right one's. */
  datatype Point = Point(x: int, y: int)

  /** How a confident face is outlined: showFaceRect off, a circle (drawCircle), or a
      square, labelled with its corner when showCoord is set. */
  datatype Outline = NoOutline | Circle | Square(labelled: bool)

  /** What drawDetection does for one confident face: its outline, and whether it
      draws the mouth mask and the eye mask. */
  datatype MaskDraw = MaskDraw(index: nat, outline: Outline, mouth: bool, eye: bool)

  function OutlineOf(s: Flags): Outline
  {
    if !s.showFaceRect then NoOutline
    else if s.drawCircle then Circle
    else Square(s.showCoord)
  }

  /** p1 and p2 as the code leaves them after a face: overwritten by the pupils found,
      otherwise kept from the faces before (only confident faces with showPupil set
      reach the pupil detection). */
  function NextCarry(f: Face, s: Flags, carry: (Point, Point)): (Point, Point)
  {
    if Confident(f.det) && s.showPupil then
      (if f.left.Some? then Point(f.left.value.row, f.left.value.col) else carry.0,
       if f.right.Some? then Point(f.right.value.row, f.right.value.col) else carry.1)
    else carry
  }

  /** p1 and p2 after the faces, starting from Go's zero values. */
  function Carry(faces: seq<Face>, s: Flags): (Point, Point)
  {
    if |faces| == 0 then (Point(0, 0), Point(0, 0))
    else NextCarry(faces[|faces| - 1], s, Carry(faces[..|faces| - 1], s))
  }

  /** One face as written: both masks are gated on p1.x != 0 && p2.y != 0, which
      may come from an earlier face. */
  function DrawAsWritten(i: nat, f: Face, s: Flags, carry: (Point, Point)): MaskDraw
  {
    var (p1, p2) := NextCarry(f, s, carry);
    var gate := s.showPupil && p1.x != 0 && p2.y != 0;
    MaskDraw(i, OutlineOf(s), s.showMouthMask && gate, s.showEyeMask && gate)
  }

  /** drawDetection as written, over all faces in order. */
  function GatesAsWritten(faces: seq<Face>, s: Flags): (g: seq<MaskDraw>)
    ensures |g| <= |faces|
    ensures forall k :: 0 <= k < |g| ==>
              g[k].index < |faces| && Confident(faces[g[k].index].det)
              && g[k].outline == OutlineOf(s) && (g[k].mouth || g[k].eye ==> s.showPupil)
    ensures forall k, l :: 0 <= k < l < |g| ==> g[k].index < g[l].index
  {
    if |faces| == 0 then [] else
    var i := |faces| - 1;
    GatesAsWritten(faces[..i], s) +
      (if Confident(faces[i].det) then [DrawAsWritten(i, faces[i], s, Carry(faces[..i], s))] else [])
  }

  /** The eye branch reads leftPupil.Row and rightPupil.Row: it dereferences nil when
      it runs for a face whose pupils were not both found. */
  predicate NilDereference(m: MaskDraw, faces: seq<Face>)
  {
    m.index < |faces| && m.eye && (faces[m.index].left.None? || faces[m.index].right.None?)
  }

  /** A face with both pupils followed by a face with none: the second passes the eye
      gate on the first face's p1 and p2, and its eye branch dereferences nil. */
  lemma CarriedPupilsDereferenceNil()
    ensures var faces := [Face(Detection(100, 120, 60, 80), Some(Pupil(90, 105, 10)), Some(Pupil(90, 135, 10))),
                          Face(Detection(300, 320, 60, 80), None, None)];
            var m := GatesAsWritten(faces, Defaults.flags);
            |m| == 2 && NilDereference(m[1], faces)
  {
  }

  /** One face with the gate on its own pupils: both found, at p1.x != 0 and p2.y != 0. */
  function Draw(i: nat, f: Face, s: Flags): MaskDraw
  {
    var gate := s.showPupil && f.left.Some? && f.right.Some?
                && f.left.value.row != 0 && f.right.value.col != 0;
    MaskDraw(i, OutlineOf(s), s.showMouthMask && gate, s.showEyeMask && gate)
  }

  /** The decisions of drawDetection with the per-face gate, in order. */
  function Gates(faces: seq<Face>, s: Flags): (g: seq<MaskDraw>)
    ensures |g| <= |faces|
    ensures forall k :: 0 <= k < |g| ==>
              g[k].index < |faces| && Confident(faces[g[k].index].det)
              && g[k].outline == OutlineOf(s) && (g[k].mouth || g[k].eye ==> s.showPupil)
    ensures forall k, l :: 0 <= k < l < |g| ==> g[k].index < g[l].index
  {
    if |faces| == 0 then [] else
    var i := |faces| - 1;
    Gates(faces[..i], s) + (if Confident(faces[i].det) then [Draw(i, faces[i], s)] else [])
  }

  /** With the per-face gate, every confident face gets one decision, in increasing
      order of the faces. */
  lemma {:induction false} GatesComplete(faces: seq<Face>, s: Flags)
    ensures var g := Gates(faces, s);
            && (forall k :: 0 <= k < |g| ==> g[k].index < |faces| && Confident(faces[g[k].index].det))
            && (forall i :: 0 <= i < |faces| && Confident(faces[i].det) ==>
                  exists k :: 0 <= k < |g| && g[k].index == i)
            && (forall k, l :: 0 <= k < l < |g| ==> g[k].index < g[l].index)
  {
    if |faces| > 0 {
      var i := |faces| - 1;
      var prev := faces[..i];
      GatesComplete(prev, s);
      var p, q := Gates(prev, s), Gates(faces, s);
      assert forall k :: 0 <= k < |p| ==> q[k] == p[k];
      forall j | 0 <= j < |faces| && Confident(faces[j].det)
        ensures exists k :: 0 <= k < |q| && q[k].index == j
      {
        if j < i {
          assert prev[j] == faces[j];
          var k :| 0 <= k < |p| && p[k].index == j;
          assert q[k].index == j;
        } else {
          assert q[|p|].index == j;
        }
      }
    }
  }

  /** With the per-face gate, no decision dereferences nil: a mask is drawn only for
      a face whose two pupils were found. */
  lemma {:induction false} GatesSound(faces: seq<Face>, s: Flags)
    ensures forall k :: 0 <= k < |Gates(faces, s)| ==> Gates(faces, s)[k].index < |faces|
    ensures forall k :: 0 <= k < |Gates(faces, s)| && (Gates(faces, s)[k].mouth || Gates(faces, s)[k].eye) ==>
              faces[Gates(faces, s)[k].index].left.Some? && faces[Gates(faces, s)[k].index].right.Some?
  {
    if |faces| > 0 {
      var i := |faces| - 1;
      var prev := faces[..i];
      GatesSound(prev, s);
      var p, q := Gates(prev, s), Gates(faces, s);
      assert forall k :: 0 <= k < |p| ==> q[k] == p[k];
      forall k | 0 <= k < |p|
        ensures p[k].index < |prev| && faces[p[k].index] == prev[p[k].index]
      {
      }
    }
  }

  /** Whenever every confident face has both pupils, the code as written and the
      per-face gate decide the same for every face. */
  lemma {:induction false} GatesAgree(faces: seq<Face>, s: Flags)
    requires forall i :: 0 <= i < |faces| && Confident(faces[i].det) ==>
               faces[i].left.Some? && faces[i].right.Some?
    ensures GatesAsWritten(faces, s) == Gates(faces, s)
  {
    if |faces| > 0 {
      var i := |faces| - 1;
      var prev := faces[..i];
      forall j | 0 <= j < |prev| && Confident(prev[j].det)
        ensures prev[j].left.Some? && prev[j].right.Some?
      {
        assert prev[j] == faces[j];
      }
      GatesAgree(prev, s);
    }
  }

  class Canvas {
    const width: int
    const height: int
    var showPupil: bool
    var showFaceRect: bool
    var showEyeMask: bool
    var showMouthMask: bool
    var showCoord: bool
    var drawCircle: bool
    /** Package-level variables in the Go code, kept here with the canvas. */
    var eyeMaskIdx: int
    var mouthMaskIdx: int

    function Current(): Settings
      reads this
    {
      Settings(Flags(showPupil, showFaceRect, showEyeMask, showMouthMask, showCoord, drawCircle),
               Masks(eyeMaskIdx, mouthMaskIdx))
    }

    predicate Valid()
      reads this
    {
      InRange(Current())
    }

    /** NewCanvas (its DOM calls left out). */
    constructor ()
      ensures Current() == Defaults && Valid()
      ensures width == WindowWidth && height == WindowHeight
    {
      width, height := WindowWidth, WindowHeight;
      showPupil, showFaceRect, showEyeMask, showMouthMask := true, false, true, true;
      showCoord, drawCircle := false, false;
      eyeMaskIdx, mouthMaskIdx := 0, 0;
    }

    /** The keypress event handler installed by detectKeyPress, split into the flag
        toggles and the mask cycling; the cases keep the source's order. */
    method DetectKeyPress(key: string)
      requires Valid()
      modifies this
      ensures Valid()
      ensures Current() == KeyPress(old(Current()), key)
    {
      CycleBounds(eyeMaskIdx, EyeMasks);
      CycleBounds(mouthMaskIdx, MouthMasks);
      if key in ["q", "z", "a", "w", "x", "s"] {
        ToggleKeys(key);
      } else {
        MaskKeys(key);
      }
    }

    method ToggleKeys(key: string)
      requires key in ["q", "z", "a", "w", "x", "s"]
      modifies this
      ensures Current() == Settings(Toggle(old(Current()).flags, key), old(Current()).masks)
    {
      assert key == "q" || key == "z" || key == "a" || key == "w" || key == "x" || key == "s";
      if key == "q" {
        showFaceRect := !showFaceRect;
      } else if key == "z" {
        showPupil := !showPupil;
      } else if key == "a" {
        drawCircle := !drawCircle;
      } else if key == "w" {
        showEyeMask := !showEyeMask;
      } else if key == "x" {
        showCoord := !showCoord;
      } else {
        showMouthMask := !showMouthMask;
      }
    }

    /** "e" / "d" cycle the eye mask, "r" / "f" the mouth mask; other keys do nothing. */
    method MaskKeys(key: string)
      requires key !in ["q", "z", "a", "w", "x", "s"]
      modifies this
      ensures Current() == Settings(old(Current()).flags, Cycle(old(Current()).masks, key))
    {
      if key == "e" {
        eyeMaskIdx := eyeMaskIdx + 1;
        if eyeMaskIdx > EyeMasks - 1 {
          eyeMaskIdx := 0;
        }
      } else if key == "d" {
        eyeMaskIdx := eyeMaskIdx - 1;
        if eyeMaskIdx < 0 {
          eyeMaskIdx := EyeMasks - 1;
        }
      } else if key == "r" {
        mouthMaskIdx := mouthMaskIdx + 1;
        if mouthMaskIdx > MouthMasks - 1 {
          mouthMaskIdx := 0;
        }
      } else if key == "f" {
        mouthMaskIdx := mouthMaskIdx - 1;
        if mouthMaskIdx < 0 {
          mouthMaskIdx := MouthMasks - 1;
        }
      }
    }

    /** drawDetection's loop with the gate on each face's own pupils. */
    method DrawDetection(faces: seq<Face>) returns (draws: seq<MaskDraw>)
      ensures draws == Gates(faces, Current().flags)
    {
      draws := [];
      var i := 0;
      while i < |faces|
        invariant 0 <= i <= |faces|
        invariant draws == Gates(faces[..i], Current().flags)
      {
        assert faces[..i + 1][..i] == faces[..i];
        var face := faces[i];
        if face.det.q > 50 {
          var outline := NoOutline;
          if showFaceRect {
            outline := if drawCircle then Circle else Square(showCoord);
          }
          var mouth, eye := false, false;
          if showPupil {
            match (face.left, face.right) {
              case (Some(l), Some(r)) =>
                var p1, p2 := Point(l.row, l.col), Point(r.row, r.col);
                mouth := showMouthMask && p1.x != 0 && p2.y != 0;
                eye := showEyeMask && p1.x != 0 && p2.y != 0;
              case _ =>
            }
          }
          draws := draws + [MaskDraw(i, outline, mouth, eye)];
        }
        i := i + 1;
      }
      assert faces[..i] == faces;
    }

    /** rgbaToGrayscale: rows = width, cols = height, the shared compaction. */
    method RgbaToGrayscale(data: array<Byte>) returns (res: array<Byte>)
      requires Pixels.PixelCount(width, height) == 0 || 4 * Pixels.PixelCount(width, height) - 2 < data.Length
      modifies data
      ensures res == data
      ensures data[..] == Pixels.Grayscale(old(data[..]), Pixels.PixelCount(width, height))
    {
      res := Pixels.RgbaToGrayscale(data, width, height);
    }
  }
}
