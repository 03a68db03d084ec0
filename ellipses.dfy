/** draw/ellipse.go: an elliptical alpha mask, used as an image.Image whose pixels are
    color.Alpha{255} inside the ellipse and color.Alpha{0} outside. */
module Ellipses {
  import opened GoNumeric
  import opened Images

  /** color.Alpha: a single 8-bit alpha value. */
  datatype Alpha = Alpha(a: Byte)

  const Opaque: Alpha := Alpha(255)
  const Clear: Alpha := Alpha(0)

  /** Centre (cx, cy) and the two semi-axes rx, ry. */
  datatype Ellipse = Ellipse(cx: int, cy: int, rx: int, ry: int)
  {
    /** Ellipse.Bounds: the box centred on (cx, cy) extending rx and ry to each side. */
    function Bounds(): (r: Rect)
      ensures r.Dx() == 2 * rx && r.Dy() == 2 * ry
      ensures r.minX + rx == cx && r.minY + ry == cy
    {
      Rect(cx - rx, cy - ry, cx + rx, cy + ry)
    }

    /** Ellipse.At: the float64 sum (x−cx)²/rx² + (y−cy)²/ry² compared with 1. A zero
        radius divides by zero and gives +Inf or NaN, so the comparison fails. */
    function At(x: int, y: int): (c: Alpha)
      ensures c == Opaque || c == Clear
    {
      var p1 := Quo((x - cx) * (x - cx), rx * rx);
      var p2 := Quo((y - cy) * (y - cy), ry * ry);
      if AtMostOne(Add(p1, p2)) then Opaque else Clear
    }

    /** The ellipse inequality with the denominators multiplied out (integers only). */
    predicate Inside(x: int, y: int)
    {
      && rx != 0 && ry != 0
      && (x - cx) * (x - cx) * (ry * ry) + (y - cy) * (y - cy) * (rx * rx) <= (rx * rx) * (ry * ry)
    }
  }

  lemma SquareNonNeg(a: int)
    ensures a * a >= 0 && (a != 0 ==> a * a > 0)
  {
    if a < 0 {
      assert a * a == (-a) * (-a);
    }
  }

  lemma RealOfProduct(a: int, b: int)
    ensures (a * b) as real == a as real * b as real
  {
  }

  /** a/b + c/d ≤ 1 for positive denominators, with the fractions cleared. */
  lemma CrossMultiply(a: real, b: real, c: real, d: real)
    requires b > 0.0 && d > 0.0
    ensures a / b + c / d <= 1.0 <==> a * d + c * b <= b * d
  {
    var t := a / b + c / d;
    assert t * (b * d) == a * d + c * b;
    assert b * d > 0.0;
    if t <= 1.0 {
      assert t * (b * d) <= 1.0 * (b * d);
    } else {
      assert t * (b * d) > 1.0 * (b * d);
    }
  }

  /** A squared distance over a zero radius is +Inf or NaN, never finite or −Inf; so is
      any sum with it, and such a sum fails `<= 1`. */
  lemma ZeroRadiusClear(num: int, other: Float)
    requires num >= 0
    requires other.Finite? ==> other.v >= 0.0
    requires other != NegInf
    ensures !AtMostOne(Add(Quo(num, 0), other)) && !AtMostOne(Add(other, Quo(num, 0)))
  {
  }

  /** At is opaque exactly when the point satisfies the cross-multiplied ellipse
      inequality; with a zero radius no point is opaque. */
  lemma {:induction false} AtIff(e: Ellipse, x: int, y: int)
    ensures e.At(x, y) == Opaque <==> e.Inside(x, y)
  {
    var a, b := (x - e.cx) * (x - e.cx), e.rx * e.rx;
    var c, d := (y - e.cy) * (y - e.cy), e.ry * e.ry;
    SquareNonNeg(x - e.cx);
    SquareNonNeg(y - e.cy);
    SquareNonNeg(e.rx);
    SquareNonNeg(e.ry);
    var p1, p2 := Quo(a, b), Quo(c, d);
    if e.rx == 0 {
      assert p2.Finite? ==> p2.v >= 0.0;
      ZeroRadiusClear(a, p2);
    } else if e.ry == 0 {
      assert p1.Finite? ==> p1.v >= 0.0;
      ZeroRadiusClear(c, p1);
    } else {
      assert Add(p1, p2) == Finite(a as real / b as real + c as real / d as real);
      CrossMultiply(a as real, b as real, c as real, d as real);
      RealOfProduct(a, d);
      RealOfProduct(c, b);
      RealOfProduct(b, d);
    }
  }

  /** The centre is opaque exactly when both radii are non-zero. */
  lemma {:induction false} CentreOpaque(e: Ellipse)
    ensures e.At(e.cx, e.cy) == Opaque <==> e.rx != 0 && e.ry != 0
  {
    AtIff(e, e.cx, e.cy);
    SquareNonNeg(e.rx);
    SquareNonNeg(e.ry);
    if e.rx != 0 && e.ry != 0 {
      assert (e.rx * e.rx) * (e.ry * e.ry) > 0 by {
        var p, q := e.rx * e.rx, e.ry * e.ry;
        assert p >= 1 && q >= 1;
        assert p * q >= 1 * q;
      }
    }
  }

  /** Reflecting x about cx, or y about cy, does not change the mask. */
  lemma {:induction false} Symmetric(e: Ellipse, x: int, y: int)
    ensures e.At(2 * e.cx - x, y) == e.At(x, y)
    ensures e.At(x, 2 * e.cy - y) == e.At(x, y)
  {
    assert (2 * e.cx - x - e.cx) * (2 * e.cx - x - e.cx) == (x - e.cx) * (x - e.cx) by {
      assert 2 * e.cx - x - e.cx == -(x - e.cx);
    }
    assert (2 * e.cy - y - e.cy) * (2 * e.cy - y - e.cy) == (y - e.cy) * (y - e.cy) by {
      assert 2 * e.cy - y - e.cy == -(y - e.cy);
    }
  }

  lemma MulNonNeg(a: int, b: int)
    requires a >= 0 && b >= 0
    ensures a * b >= 0
  {
  }

  lemma MulLess(a: int, b: int, d: int)
    requires a < b && d > 0
    ensures a * d < b * d
  {
    assert b * d - a * d == (b - a) * d;
    MulNonNeg(b - a - 1, d);
  }

  function Abs(a: int): nat { if a < 0 then -a else a }

  lemma SquareMono(a: int, b: int)
    requires Abs(a) < Abs(b)
    ensures a * a < b * b
  {
    var p, q := Abs(a), Abs(b);
    assert a * a == p * p && b * b == q * q;
    assert p * p <= p * q < q * q;
  }

  /** A point farther than rx from cx horizontally, or farther than ry from cy
      vertically, is transparent: the opaque points lie in the closed box
      [cx − |rx|, cx + |rx|] × [cy − |ry|, cy + |ry|]. */
  lemma {:induction false} OutsideClear(e: Ellipse, x: int, y: int)
    requires Abs(x - e.cx) > Abs(e.rx) || Abs(y - e.cy) > Abs(e.ry)
    ensures e.At(x, y) == Clear
  {
    AtIff(e, x, y);
    if e.rx != 0 && e.ry != 0 {
      var a, b := (x - e.cx) * (x - e.cx), e.rx * e.rx;
      var c, d := (y - e.cy) * (y - e.cy), e.ry * e.ry;
      SquareNonNeg(x - e.cx);
      SquareNonNeg(y - e.cy);
      SquareNonNeg(e.rx);
      SquareNonNeg(e.ry);
      MulNonNeg(a, d);
      MulNonNeg(c, b);
      if Abs(x - e.cx) > Abs(e.rx) {
        SquareMono(e.rx, x - e.cx);
        MulLess(b, a, d);
      } else {
        SquareMono(e.ry, y - e.cy);
        MulLess(d, c, b);
        assert d * b == b * d;
      }
    }
  }
}
