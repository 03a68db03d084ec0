/** What the pigo detector hands to the canvases. The detector itself is not part of
    this model: its results enter every drawDetection as plain values. */
module Detections {

  datatype Option<T> = None | Some(value: T)

  /** One row of the detector's `[][]int` result: det[0] .. det[3] are the row, the
      column, the scale and the quality score of a face. The canvases read det[1] as
      their x ("row" in their own naming) and det[0] as their y. */
  datatype Detection = Detection(row: int, col: int, scale: int, q: int)

  /** The threshold every drawDetection applies before touching a face: det[3] > 50. */
  predicate Confident(d: Detection)
  {
    d.q > 50
  }

  /** A pupil found by DetectLeftPupil / DetectRightPupil (a nil result is None). */
  datatype Pupil = Pupil(row: int, col: int, scale: int)

  /** A face together with what the pupil detectors return for it. */
  datatype Face = Face(det: Detection, left: Option<Pupil>, right: Option<Pupil>)

  /** The indices of the confident detections, in order. */
  function ConfidentIndices(dets: seq<Detection>): (c: seq<nat>)
    ensures |c| <= |dets|
    ensures forall k :: 0 <= k < |c| ==> c[k] < |dets| && Confident(dets[c[k]])
    ensures forall k, l :: 0 <= k < l < |c| ==> c[k] < c[l]
  {
    if |dets| == 0 then [] else
    var i := |dets| - 1;
    ConfidentIndices(dets[..i]) + (if Confident(dets[i]) then [i] else [])
  }

  /** ConfidentIndices grows by one detection at a time. */
  lemma ConfidentIndicesSnoc(dets: seq<Detection>, i: int)
    requires 0 <= i < |dets|
    ensures ConfidentIndices(dets[..i + 1]) == ConfidentIndices(dets[..i]) + (if Confident(dets[i]) then [i] else [])
  {
    assert dets[..i + 1][..i] == dets[..i];
  }

  /** ConfidentIndices lists every confident detection once, in increasing order, and
      nothing else. */
  lemma {:induction false} ConfidentIndicesSpec(dets: seq<Detection>)
    ensures var c := ConfidentIndices(dets);
            && (forall k :: 0 <= k < |c| ==> c[k] < |dets| && Confident(dets[c[k]]))
            && (forall i :: 0 <= i < |dets| && Confident(dets[i]) ==> i in c)
            && (forall k, l :: 0 <= k < l < |c| ==> c[k] < c[l])
  {
    if |dets| > 0 {
      var i := |dets| - 1;
      var prev := dets[..i];
      ConfidentIndicesSpec(prev);
      var p, c := ConfidentIndices(prev), ConfidentIndices(dets);
      assert forall k :: 0 <= k < |p| ==> c[k] == p[k];
      forall j | 0 <= j < i && Confident(dets[j])
        ensures j in c
      {
        assert prev[j] == dets[j];
      }
    }
  }
}
