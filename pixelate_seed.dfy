/** pixelate/seed.go: the Park–Miller "minimal standard" generator (multiplier 16807,
    modulus 2^31 − 1) computed with Carta's 16-bit split, and the noise pass that
    draws one value from it per pixel. Go's `&` with an all-ones mask and `>>` on
    these values are written as `%` and `/` (exact for every int, since Dafny's `%`
    and `/` by a positive constant are the two's-complement mask and arithmetic shift). */
module PixelateSeed {
  import opened GoNumeric
  import opened Images
  import opened Pixels

  const Multiplier: int := 16807

  /** The generator's specification: the next state is 16807 · seed mod (2^31 − 1). */
  function ParkMiller(seed: int): int
  {
    Multiplier * seed % M31
  }

  /** 1407677000 is the inverse of 16807 modulo 2^31 − 1. */
  const Inverse: int := 1407677000

  lemma InverseOk()
    ensures Multiplier * Inverse == 1 + 11017 * M31
  {
  }

  /** A state in [1, 2^31 − 2] never leads to 0: 16807 · seed is not a multiple of the
      prime 2^31 − 1 (multiplying by the inverse would make seed one). */
  lemma {:induction false} ParkMillerRange(seed: int)
    requires 1 <= seed < M31
    ensures 1 <= ParkMiller(seed) < M31
  {
    var q, r := Multiplier * seed / M31, ParkMiller(seed);
    assert Multiplier * seed == q * M31 + r;
    InverseOk();
    var z := 11017 * seed - Inverse * q;
    calc {
      Inverse * r;
      Inverse * (Multiplier * seed - q * M31);
      (Multiplier * Inverse) * seed - Inverse * q * M31;
      (1 + 11017 * M31) * seed - Inverse * q * M31;
      z * M31 + seed;
    }
    DivModOf(z, seed, M31);
    assert (Inverse * r) % M31 == seed;
  }

  /** Carta's reduction: a value below 2^32 with bit 31 set has 2^31 − 1 subtracted
      (`lo &= m; lo++`), which keeps it congruent modulo 2^31 − 1. */
  lemma FoldStep(lo: int)
    requires M31 < lo < 2 * M31
    ensures lo % (M31 + 1) + 1 == lo - M31
  {
    DivModOf(1, lo - M31 - 1, M31 + 1);
  }

  /** The state of the fresh generator after k draws: state 1, then ParkMiller k times. */
  ghost function GenState(k: nat): int
  {
    if k == 0 then 1 else ParkMiller(GenState(k - 1))
  }

  lemma {:induction false} GenStateRange(k: nat)
    ensures 1 <= GenState(k) < M31
  {
    if k > 0 {
      GenStateRange(k - 1);
      ParkMillerRange(GenState(k - 1));
    }
  }

  /** prng: multiplier a, modulus m, current state rand and the scale div = 1/m. */
  class Prng {
    var a: int
    var m: int
    var rand: int
    var div: real

    /** The only configuration the source builds: the minimal-standard constants. */
    ghost predicate Standard()
      reads this
    {
      a == Multiplier && m == M31 && div == 1.0 / M31 as real
    }

    ghost predicate Valid()
      reads this
    {
      Standard() && 1 <= rand < M31
    }

    /** The generator addNoise allocates: a = 16807, m = 0x7fffffff, rand = 1, div = 1/m. */
    constructor ()
      ensures Valid() && rand == GenState(0)
    {
      a, m, rand, div := Multiplier, M31, 1, 1.0 / M31 as real;
    }

    /** nextLongRand: 16807 · seed split into 16-bit halves, recombined and reduced
        twice by the Mersenne-modulus trick; equals the Park–Miller step on every state. */
    method NextLongRand(seed: int) returns (lo: int)
      requires Standard()
      ensures 1 <= seed < M31 ==> lo == ParkMiller(seed) && 1 <= lo < M31
    {
      lo := a * (seed % 0x1_0000);
      var hi := a * (seed / 0x1_0000);
      ghost var lo0 := lo;
      lo := lo + (hi % 0x8000) * 0x1_0000;
      ghost var lo1 := lo;
      if lo > m {
        lo := lo % (m + 1);
        lo := lo + 1;
      }
      ghost var lo2 := lo;
      lo := lo + hi / 0x8000;
      ghost var lo3 := lo;
      if lo > m {
        lo := lo % (m + 1);
        lo := lo + 1;
      }
      if 1 <= seed < M31 {
        CartaCorrect(seed, lo0, hi, lo1, lo2, lo3, lo);
      }
    }

    /** randomSeed: advance the state once and scale it into (0, 1). */
    method RandomSeed() returns (f: real)
      requires Valid()
      modifies this
      ensures Valid()
      ensures rand == ParkMiller(old(rand))
      ensures a == old(a) && m == old(m) && div == old(div)
      ensures f == rand as real / M31 as real && 0.0 < f < 1.0
    {
      rand := NextLongRand(rand);
      f := rand as real * div;
    }
  }

  /** The arithmetic behind NextLongRand, one intermediate value at a time. */
  lemma {:induction false} CartaCorrect(seed: int, lo0: int, hi: int, lo1: int, lo2: int, lo3: int, lo: int)
    requires 1 <= seed < M31
    requires lo0 == Multiplier * (seed % 0x1_0000) && hi == Multiplier * (seed / 0x1_0000)
    requires lo1 == lo0 + (hi % 0x8000) * 0x1_0000
    requires lo2 == if lo1 > M31 then lo1 % (M31 + 1) + 1 else lo1
    requires lo3 == lo2 + hi / 0x8000
    requires lo == if lo3 > M31 then lo3 % (M31 + 1) + 1 else lo3
    ensures lo == ParkMiller(seed)
  {
    var sl, sh := seed % 0x1_0000, seed / 0x1_0000;
    assert seed == sh * 0x1_0000 + sl;
    assert 0 <= sh < 0x8000;
    var hh, hl := hi / 0x8000, hi % 0x8000;
    assert hi == hh * 0x8000 + hl;
    MulMono(sl, 0xffff, Multiplier);
    MulMono(sh, 0x7fff, Multiplier);
    assert 0 <= hh < Multiplier;
    assert 0 <= lo0 <= 0xffff * Multiplier;
    MulMono(hl, 0x7fff, 0x1_0000);
    assert 0 <= lo1 < 2 * M31;
    // 16807 · seed = hh · 2^31 + lo1, and 2^31 = M31 + 1
    assert Multiplier * seed == hi * 0x1_0000 + lo0;
    assert hi * 0x1_0000 == hh * (M31 + 1) + hl * 0x1_0000;
    assert Multiplier * seed == hh * M31 + hh + lo1;
    var j1 := if lo1 > M31 then 1 else 0;
    if lo1 > M31 { FoldStep(lo1); }
    assert lo2 == lo1 - j1 * M31 && 0 <= lo2 <= M31;
    assert 0 <= lo3 < 2 * M31;
    var j2 := if lo3 > M31 then 1 else 0;
    if lo3 > M31 { FoldStep(lo3); }
    assert lo == lo3 - j2 * M31 && 0 <= lo <= M31;
    var k := hh + j1 + j2;
    assert Multiplier * seed == k * M31 + lo;
    ParkMillerRange(seed);
    if lo == M31 {
      DivModOf(k + 1, 0, M31);
    } else {
      DivModOf(k, lo, M31);
    }
  }

  /** One pixel of addNoise: its position, the noise drawn for it, and the channel
      values (as float64 before the uint8 conversion) after the overflow guard. */
  datatype NoiseStep = NoiseStep(x: int, y: int, noise: real, rf: real, gf: real, bf: real)

  function AbsR(v: real): real { if v < 0.0 then -v else v }

  /** The guard: noise is applied only if every channel stays strictly within ±255. */
  predicate Fits(c: Rgba64, noise: real)
  {
    AbsR(c.r as real + noise) < 255.0 && AbsR(c.g as real + noise) < 255.0
    && AbsR(c.b as real + noise) < 255.0
  }

  /** The channels after the guard: all three shifted by the noise, or all three kept. */
  function Guarded(c: Rgba64, noise: real): (ch: (real, real, real))
    ensures var d := ch.0 - c.r as real;
            && ch.1 - c.g as real == d && ch.2 - c.b as real == d
            && (d == noise || d == 0.0)
    ensures noise != 0.0 ==> (ch.0 - c.r as real == noise <==> Fits(c, noise))
    ensures Fits(c, noise) ==>
      AbsR(ch.0) < 255.0 && AbsR(ch.1) < 255.0 && AbsR(ch.2) < 255.0
  {
    var rf, gf, bf := c.r as real, c.g as real, c.b as real;
    if Fits(c, noise) then (rf + noise, gf + noise, bf + noise) else (rf, gf, bf)
  }

  /** The noise drawn for the k-th pixel visited: (state/(2^31 − 1) − 0.1) · amount. */
  ghost function NoiseAt(k: nat, amount: int): real
  {
    Scaled(GenState(k + 1), amount)
  }

  /** randomSeed's result for state s, shifted by 0.1 and scaled by the amount. */
  function Scaled(s: int, amount: int): real
  {
    (s as real / M31 as real - 0.1) * amount as real
  }

  /** Every pixel of the size, x outer and y inner, each with the (k+1)-th draw. */
  ghost function NoiseSteps(src: Picture, amount: int): (s: seq<NoiseStep>)
    ensures |s| == PixelCount(src.bounds.Dx(), src.bounds.Dy())
  {
    var sx, sy := src.bounds.Dx(), src.bounds.Dy();
    seq(PixelCount(sx, sy), k requires 0 <= k < PixelCount(sx, sy) =>
      var x, y := k / sy, k % sy;
      var n := NoiseAt(k, amount);
      var ch := Guarded(src.at(x, y), n);
      NoiseStep(x, y, n, ch.0, ch.1, ch.2))
  }

  lemma NoiseStepsAt(src: Picture, amount: int, x: int, y: int)
    requires 0 <= x < src.bounds.Dx() && 0 <= y < src.bounds.Dy()
    ensures var q := x * src.bounds.Dy() + y;
            var n := NoiseAt(q, amount);
            var ch := Guarded(src.at(x, y), n);
            && 0 <= q < |NoiseSteps(src, amount)|
            && NoiseSteps(src, amount)[q] == NoiseStep(x, y, n, ch.0, ch.1, ch.2)
  {
    var sx, sy := src.bounds.Dx(), src.bounds.Dy();
    IdxBound(y, x, sy, sx);
    DivModOf(x, y, sy);
  }

  /** The body of addNoise's inner loop for pixel (x, y): draw, scale, guard. */
  method NoisePixel(prng: Prng, src: Picture, x: int, y: int, amount: int) returns (step: NoiseStep)
    requires prng.Valid()
    modifies prng
    ensures prng.Valid() && prng.rand == ParkMiller(old(prng.rand))
    ensures var n := Scaled(prng.rand, amount);
            var ch := Guarded(src.at(x, y), n);
            step == NoiseStep(x, y, n, ch.0, ch.1, ch.2)
  {
    var f := prng.RandomSeed();
    var noise := (f - 0.1) * amount as real;
    assert noise == Scaled(prng.rand, amount);
    var c := src.at(x, y);
    var rf, gf, bf := c.r as real, c.g as real, c.b as real;
    if AbsR(rf + noise) < 255.0 && AbsR(gf + noise) < 255.0 && AbsR(bf + noise) < 255.0 {
      rf := rf + noise;
      gf := gf + noise;
      bf := bf + noise;
    }
    step := NoiseStep(x, y, noise, rf, gf, bf);
  }

  /** addNoise, up to the pixel writes: a fresh generator from state 1, one draw per
      pixel in x-outer order, the all-or-nothing guard on each pixel. */
  method AddNoise(src: Picture, amount: int) returns (steps: seq<NoiseStep>)
    ensures steps == NoiseSteps(src, amount)
  {
    var sizeX, sizeY := src.bounds.Dx(), src.bounds.Dy();
    ghost var all := NoiseSteps(src, amount);
    var prng := new Prng();
    steps := [];
    ghost var q := 0;  // pixels visited so far
    var x := 0;
    while x < sizeX
      invariant 0 <= x && (sizeX > 0 ==> x <= sizeX)
      invariant q == (if sizeY > 0 then x * sizeY else 0)
      invariant 0 <= q <= |all| && steps == all[..q]
      invariant prng.Valid() && prng.rand == GenState(q)
      invariant x < sizeX && sizeY > 0 ==> q + sizeY <= |all|
    {
      ghost var base := q;
      var y := 0;
      while y < sizeY
        invariant 0 <= y && (sizeY > 0 ==> y <= sizeY) && (sizeY <= 0 ==> y == 0)
        invariant q == base + y && base + sizeY <= |all| && steps == all[..q]
        invariant prng.Valid() && prng.rand == GenState(q)
      {
        var step := NoisePixel(prng, src, x, y, amount);
        assert prng.rand == GenState(q + 1);
        NoiseStepsAt(src, amount, x, y);
        steps := steps + [step];
        q := q + 1;
        y := y + 1;
      }
      if sizeY > 0 {
        assert q == (x + 1) * sizeY;
        if x + 1 < sizeX {
          MulMono(x + 2, sizeX, sizeY);
          assert q + sizeY == (x + 2) * sizeY;
        }
      }
      x := x + 1;
    }
    if sizeX > 0 && sizeY > 0 {
      assert q == sizeX * sizeY;
    }
  }
}
