/** pixelate/math.go: the variadic `min` and `max` helpers. They are generic over any
    ordered type; integers stand for that type here. Both read values[0] before the
    loop, so an empty argument list panics: callers must pass at least one value. */
module PixelateMath {

  /** min(values...): start from values[0] and keep every strictly smaller value. */
  method Min(values: seq<int>) returns (acc: int)
    requires |values| > 0
    ensures acc in values
    ensures forall v :: v in values ==> acc <= v
  {
    acc := values[0];
    var i := 0;
    while i < |values|
      invariant 0 <= i <= |values|
      invariant acc in values
      invariant forall k :: 0 <= k < i ==> acc <= values[k]
      invariant acc <= values[0]
    {
      if values[i] < acc {
        acc := values[i];
      }
      i := i + 1;
    }
  }

  /** max(values...): start from values[0] and keep every strictly larger value. */
  method Max(values: seq<int>) returns (acc: int)
    requires |values| > 0
    ensures acc in values
    ensures forall v :: v in values ==> acc >= v
  {
    acc := values[0];
    var i := 0;
    while i < |values|
      invariant 0 <= i <= |values|
      invariant acc in values
      invariant forall k :: 0 <= k < i ==> acc >= values[k]
      invariant acc >= values[0]
    {
      if values[i] > acc {
        acc := values[i];
      }
      i := i + 1;
    }
  }
}
