/** Go's fixed-width integer types and the few float64 behaviours the demos rely on.
    Integers here are unbounded; a width only appears where a conversion truncates. */
module GoNumeric {

  /** uint8 */
  type Byte = x: int | 0 <= x < 256

  /** uint16 */
  type Word16 = x: int | 0 <= x < 65536

  /** The Mersenne prime 2^31 - 1 (0x7fffffff). */
  const M31: int := 0x7fff_ffff

  /** Go's `int(f)` for a float64 `f` in range: truncation toward zero. */
  function TruncToInt(f: real): (n: int)
    ensures f >= 0.0 ==> n >= 0 && n as real <= f < n as real + 1.0
    ensures f < 0.0 ==> n <= 0 && n as real - 1.0 < f <= n as real
  {
    if f >= 0.0 then f.Floor else -((-f).Floor)
  }

  /** Go's integer `/`, which truncates toward zero (Dafny's `/` is Euclidean). */
  function GoDiv(a: int, b: int): (q: int)
    requires b != 0
    ensures a >= 0 && b > 0 ==> q == a / b
  {
    if a >= 0 then a / b
    else if b > 0 then -((-a) / b)
    else (-a) / (-b)
  }

  /** The float64 values that arise when one integer is divided by another:
      a finite quotient, an infinity, or NaN for 0/0. Rounding of finite
      quotients is not modelled (they are exact reals). */
  datatype Float = Finite(v: real) | PosInf | NegInf | NaN

  /** float64(a) / float64(b) */
  function Quo(a: int, b: int): (f: Float)
    ensures b != 0 <==> f.Finite?
    ensures f == NaN <==> a == 0 && b == 0
  {
    if b != 0 then Finite(a as real / b as real)
    else if a > 0 then PosInf
    else if a < 0 then NegInf
    else NaN
  }

  /** float64 addition on these values (IEEE 754: NaN absorbs, +Inf + -Inf is NaN). */
  function Add(p: Float, q: Float): Float
  {
    match (p, q)
    case (NaN, _) => NaN
    case (_, NaN) => NaN
    case (PosInf, NegInf) => NaN
    case (NegInf, PosInf) => NaN
    case (PosInf, _) => PosInf
    case (_, PosInf) => PosInf
    case (NegInf, _) => NegInf
    case (_, NegInf) => NegInf
    case (Finite(a), Finite(b)) => Finite(a + b)
  }

  /** The float64 comparison `f <= 1`; every comparison with NaN is false. */
  predicate AtMostOne(f: Float)
  {
    match f
    case Finite(v) => v <= 1.0
    case NegInf => true
    case _ => false
  }

  // ------------------------------------------------------------ arithmetic helpers

  lemma MulMono(a: int, b: int, c: nat)
    requires a <= b
    ensures a * c <= b * c
  {
  }

  lemma MulSucc(a: int, b: int)
    ensures a * b + b == (a + 1) * b
  {
  }

  lemma DivModOf(a: int, r: int, h: int)
    requires 0 <= r < h
    ensures (a * h + r) / h == a && (a * h + r) % h == r
  {
    var n := a * h + r;
    var q, m := n / h, n % h;
    assert (a - q) * h == m - r;
    if a - q >= 1 {
      MulMono(1, a - q, h);
    } else if a - q <= -1 {
      MulMono(1, q - a, h);
    }
  }
}
