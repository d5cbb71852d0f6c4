/**
 * The bins the detector uses: their angle makes a whole number of turns over the samples, so
 * the cosines and sines it multiplies with are orthogonal, and the bound on a bin is sharper.
 */
module Orthogonality {
  import opened Bytes
  import opened Goertzel

  /** `2 * n` steps of the angle make whole turns; if `n` steps do, so do these. */
  predicate Closes(c: real, s: real, n: nat) { Turn(c, s, 2 * n) == Complex(1.0, 0.0) }

  // ----- algebra of rotations -----

  lemma TimesAssoc(a: Complex, b: Complex, w: Complex)
    ensures a.Times(b).Times(w) == a.Times(b.Times(w))
  {
  }

  lemma TimesCommutes(a: Complex, b: Complex)
    ensures a.Times(b) == b.Times(a)
  {
  }

  /** (uw)(uw) == ((uu)w)w. */
  lemma SquareOfProduct(u: Complex, w: Complex)
    ensures u.Times(w).Times(u.Times(w)) == u.Times(u).Times(w).Times(w)
  {
    hide Complex.Times;
    TimesCommutes(u.Times(w), u);
    TimesAssoc(u.Times(w), u, w);
    TimesAssoc(u, u, w);
  }

  lemma {:induction false} SquareIsDoubleTurn(c: real, s: real, n: nat)
    ensures Turn(c, s, n).Times(Turn(c, s, n)) == Turn(c, s, 2 * n)
  {
    hide Complex.Times, Turn;
    if n == 0 {
      NoTurn(c, s);
    } else {
      SquareIsDoubleTurn(c, s, n - 1);
      SquareOfProduct(Turn(c, s, n - 1), Complex(c, s));
      TwoTurns(c, s, n);
    }
  }

  lemma NoTurn(c: real, s: real)
    ensures Turn(c, s, 0).Times(Turn(c, s, 0)) == Turn(c, s, 0)
  {
  }

  lemma TwoTurns(c: real, s: real, n: nat)
    requires n > 0
    ensures Turn(c, s, n) == Turn(c, s, n - 1).Times(Complex(c, s))
    ensures Turn(c, s, 2 * n) == Turn(c, s, 2 * (n - 1)).Times(Complex(c, s)).Times(Complex(c, s))
  {
    hide Complex.Times;
    assert Turn(c, s, 2 * n - 1) == Turn(c, s, 2 * (n - 1)).Times(Complex(c, s));
  }

  /** An integer number of turns over the samples, as the source's rounding gives it, closes. */
  lemma WholeTurnsClose(c: real, s: real, n: nat)
    requires Turn(c, s, n) == Complex(1.0, 0.0)
    ensures Closes(c, s, n)
  {
    hide Turn;
    SquareIsDoubleTurn(c, s, n);
  }

  // ----- the geometric series of the double turns -----

  /** The sum of the first `n` double turns. */
  function DoubleTurns(c: real, s: real, n: nat): Complex
  {
    if n == 0 then Complex(0.0, 0.0)
    else DoubleTurns(c, s, n - 1).Plus(Turn(c, s, n - 1).Times(Turn(c, s, n - 1)))
  }

  lemma PlusTimes(a: Complex, b: Complex, w: Complex)
    ensures a.Plus(b).Times(w) == a.Times(w).Plus(b.Times(w))
  {
  }

  /** One more turn of the sum adds its next term and takes the first one off. */
  lemma {:induction false} Telescopes(c: real, s: real, n: nat)
    ensures DoubleTurns(c, s, n).Times(Complex(c, s).Times(Complex(c, s))).Plus(Complex(1.0, 0.0))
            == DoubleTurns(c, s, n).Plus(Turn(c, s, n).Times(Turn(c, s, n)))
  {
    var w := Complex(c, s);
    if n == 0 {
      TimesZero(w.Times(w));
    } else {
      var g, t := DoubleTurns(c, s, n - 1), Turn(c, s, n - 1);
      Telescopes(c, s, n - 1);
      PlusTimes(g, t.Times(t), w.Times(w));
      SquareOfProduct(t, w);
      TwoTurns(c, s, n);
      hide Complex.Times, Turn;
      TimesAssoc(t.Times(t), w, w);
      assert DoubleTurns(c, s, n) == g.Plus(t.Times(t));
      Shuffle(g.Times(w.Times(w)), Complex(1.0, 0.0), g, t.Times(t), Turn(c, s, n).Times(Turn(c, s, n)));
    }
  }

  lemma Shuffle(gz: Complex, one: Complex, g: Complex, t: Complex, u: Complex)
    requires gz.Plus(one) == g.Plus(t)
    ensures gz.Plus(u).Plus(one) == g.Plus(t).Plus(u)
  {
  }

  /** What a rotation that is not the identity leaves in place is zero. */
  lemma FixedIsZero(g: Complex, c: real, s: real)
    requires c * c + s * s == 1.0 && s != 0.0
    requires g.Times(Complex(c, s).Times(Complex(c, s))) == g
    ensures g == Complex(0.0, 0.0)
  {
    DoubleAngle(c, s);
    var z := Complex(c, s).Times(Complex(c, s));
    var d := Complex(z.re - 1.0, z.im);
    MinusOne(g, z);
    NormTimes(g, d);
    SquareSign(s);
    NoDivisor(g.Norm2(), d.Norm2());
    ZeroNorm(g);
  }

  lemma MinusOne(g: Complex, z: Complex)
    requires g.Times(z) == g
    ensures g.Times(Complex(z.re - 1.0, z.im)).Norm2() == 0.0
  {
  }

  lemma DoubleAngle(c: real, s: real)
    requires c * c + s * s == 1.0
    ensures var z := Complex(c, s).Times(Complex(c, s));
            Complex(z.re - 1.0, z.im).Norm2() == 4.0 * Square(s)
  {
    var a, b := c * c, s * s;
    assert a == 1.0 - b;
    assert (c * s + s * c) * (c * s + s * c) == 4.0 * (a * b) by { CrossSquare(c, s); }
    assert (a - b - 1.0) * (a - b - 1.0) == 4.0 * (b * b);
    assert 4.0 * (b * b) + 4.0 * (a * b) == 4.0 * (b * (a + b));
  }

  lemma CrossSquare(c: real, s: real)
    ensures (c * s + s * c) * (c * s + s * c) == 4.0 * ((c * c) * (s * s))
  {
  }

  lemma NoDivisor(a: real, b: real)
    requires a * b == 0.0 && b > 0.0
    ensures a == 0.0
  {
    SignOfProduct(a, b, a * b);
    SignOfProduct(-a, b, -a * b);
  }

  lemma ZeroNorm(g: Complex)
    requires g.Norm2() == 0.0
    ensures g == Complex(0.0, 0.0)
  {
    SquareSign(g.re);
    SquareSign(g.im);
  }

  lemma DoubleTurnsVanish(c: real, s: real, n: nat)
    requires c * c + s * s == 1.0 && s != 0.0 && Closes(c, s, n)
    ensures DoubleTurns(c, s, n) == Complex(0.0, 0.0)
  {
    hide Turn, DoubleTurns, Complex.Times;
    Telescopes(c, s, n);
    SquareIsDoubleTurn(c, s, n);
    FixedIsZero(DoubleTurns(c, s, n), c, s);
  }

  // ----- orthogonality -----

  /** Sums of squares and of products of the cosines and sines `Turn` runs through. */
  datatype Moments = Moments(cc: real, ss: real, cs: real)

  function MomentsOf(c: real, s: real, n: nat): Moments
  {
    if n == 0 then Moments(0.0, 0.0, 0.0)
    else
      var m, u := MomentsOf(c, s, n - 1), Turn(c, s, n - 1);
      Moments(m.cc + u.re * u.re, m.ss + u.im * u.im, m.cs + u.re * u.im)
  }

  lemma {:induction false} MomentsSum(c: real, s: real, n: nat)
    requires c * c + s * s == 1.0
    ensures var m := MomentsOf(c, s, n);
            m.cc + m.ss == n as real && DoubleTurns(c, s, n) == Complex(m.cc - m.ss, 2.0 * m.cs)
  {
    hide Turn, MomentsOf, DoubleTurns, Complex.Times, Complex.Plus;
    if n == 0 {
      NoMoments(c, s);
    } else {
      MomentsSum(c, s, n - 1);
      TurnIsUnit(c, s, n - 1);
      MomentsStep(c, s, n);
    }
  }

  lemma NoMoments(c: real, s: real)
    ensures MomentsOf(c, s, 0) == Moments(0.0, 0.0, 0.0) && DoubleTurns(c, s, 0) == Complex(0.0, 0.0)
  {
  }

  lemma MomentsStep(c: real, s: real, n: nat)
    requires n > 0
    ensures var m, l, u := MomentsOf(c, s, n - 1), MomentsOf(c, s, n), Turn(c, s, n - 1);
            var g, h := DoubleTurns(c, s, n - 1), DoubleTurns(c, s, n);
            && l == Moments(m.cc + u.re * u.re, m.ss + u.im * u.im, m.cs + u.re * u.im)
            && h.re == g.re + (u.re * u.re - u.im * u.im) && h.im == g.im + 2.0 * (u.re * u.im)
  {
    hide Turn, MomentsOf, Complex.Times, Complex.Plus;
    LastMoments(c, s, n);
    PlusSquare(DoubleTurns(c, s, n - 1), Turn(c, s, n - 1));
  }

  lemma PlusSquare(g: Complex, u: Complex)
    ensures g.Plus(u.Times(u)) == Complex(g.re + (u.re * u.re - u.im * u.im), g.im + 2.0 * (u.re * u.im))
  {
    Twice(u.re, u.im);
  }

  lemma Twice(a: real, b: real)
    ensures a * b + b * a == 2.0 * (a * b)
  {
  }

  /** Cosines and sines are orthogonal and equally long. */
  lemma MomentsBalance(c: real, s: real, n: nat)
    requires c * c + s * s == 1.0 && s != 0.0 && Closes(c, s, n)
    ensures MomentsOf(c, s, n) == Moments(n as real / 2.0, n as real / 2.0, 0.0)
  {
    hide MomentsOf, DoubleTurns, Turn, Closes;
    MomentsSum(c, s, n);
    DoubleTurnsVanish(c, s, n);
  }

  // ----- what is left of the samples beside the bin -----

  /** A quadratic form in one sample and one rotation, or in sums of them. */
  function Form(k: real, p: real, q: real, xx: real, xc: real, xs: real, m: Moments): real
  {
    k * k * xx - 4.0 * k * (p * xc + q * xs) + 4.0 * (p * p * m.cc + 2.0 * p * q * m.cs + q * q * m.ss)
  }

  lemma FormAdds(k: real, p: real, q: real, xx: real, xc: real, xs: real, m: Moments,
                 yy: real, yc: real, ys: real, l: Moments)
    ensures Form(k, p, q, xx + yy, xc + yc, xs + ys, Moments(m.cc + l.cc, m.ss + l.ss, m.cs + l.cs))
            == Form(k, p, q, xx, xc, xs, m) + Form(k, p, q, yy, yc, ys, l)
  {
    var kk, pp, qq, pq := k * k, p * p, q * q, p * q;
    Spread(kk, xx, yy);
    Spread(p, xc, yc);
    Spread(q, xs, ys);
    Spread(k, p * xc + q * xs, p * yc + q * ys);
    Spread(pp, m.cc, l.cc);
    Spread(qq, m.ss, l.ss);
    Spread(2.0 * p * q, m.cs, l.cs);
  }

  lemma Spread(a: real, x: real, y: real)
    ensures a * (x + y) == a * x + a * y
  {
  }

  /** For one sample the form is a square. */
  lemma FormIsSquare(k: real, p: real, q: real, x: real, u: Complex)
    ensures Form(k, p, q, Square(x), x * u.re, x * u.im, Moments(u.re * u.re, u.im * u.im, u.re * u.im))
            == Square(k * x - 2.0 * (p * u.re + q * u.im))
  {
    var a, b, d := k * x, p * u.re, q * u.im;
    assert Square(a - 2.0 * (b + d)) == a * a - 4.0 * (a * b + a * d) + 4.0 * (b * b + 2.0 * (b * d) + d * d)
      by { SquareOfDifference(a, b, d); }
    Reorder(k, x, k, x);
    Reorder(k, x, p, u.re);
    Reorder(k, x, q, u.im);
    Reorder(p, u.re, p, u.re);
    Reorder(p, u.re, q, u.im);
    Reorder(q, u.im, q, u.im);
    Spread(k, p * (x * u.re), q * (x * u.im));
    assert k * (p * (x * u.re)) == (k * p) * (x * u.re) && k * (q * (x * u.im)) == (k * q) * (x * u.im);
  }

  lemma Reorder(a: real, b: real, d: real, e: real)
    ensures (a * b) * (d * e) == (a * d) * (b * e)
  {
  }

  lemma SquareOfDifference(a: real, b: real, d: real)
    ensures Square(a - 2.0 * (b + d)) == a * a - 4.0 * (a * b + a * d) + 4.0 * (b * b + 2.0 * (b * d) + d * d)
  {
  }

  /** Over all samples the form is a sum of squares. */
  lemma {:induction false} FormIsPositive(x: seq<real>, c: real, s: real, k: real, p: real, q: real)
    ensures Form(k, p, q, SumOfSquares(x), Bin(x, c, s).re, -Bin(x, c, s).im, MomentsOf(c, s, |x|)) >= 0.0
  {
    hide *;
    if x == [] {
      NoForm(c, s, k, p, q);
    } else {
      var n := |x| - 1;
      var v, u, b := x[n], Turn(c, s, n), Bin(x[..n], c, s);
      FormIsPositive(x[..n], c, s, k, p, q);
      OneMoreSample(x, c, s);
      LastMoments(c, s, |x|);
      LastSquare(x);
      PlusScaled(b, u, v);
      FormGrows(k, p, q, SumOfSquares(x[..n]), b.re, -b.im, MomentsOf(c, s, n), v, u,
                SumOfSquares(x), Bin(x, c, s).re, -Bin(x, c, s).im, MomentsOf(c, s, |x|));
    }
  }

  /** One more sample adds a square. */
  lemma FormGrows(k: real, p: real, q: real, xx: real, xc: real, xs: real, m: Moments, v: real, u: Complex,
                  yy: real, yc: real, ys: real, l: Moments)
    requires Form(k, p, q, xx, xc, xs, m) >= 0.0
    requires yy == xx + Square(v) && yc == xc + v * u.re && ys == xs + v * u.im
    requires l == Moments(m.cc + u.re * u.re, m.ss + u.im * u.im, m.cs + u.re * u.im)
    ensures Form(k, p, q, yy, yc, ys, l) >= 0.0
  {
    hide Form, Square;
    var d := Moments(u.re * u.re, u.im * u.im, u.re * u.im);
    FormIsSquare(k, p, q, v, u);
    SquareSign(k * v - 2.0 * (p * u.re + q * u.im));
    FormAdds(k, p, q, xx, xc, xs, m, Square(v), v * u.re, v * u.im, d);
    SameForm(k, p, q, yy, yc, ys, l, xx + Square(v), xc + v * u.re, xs + v * u.im);
  }

  lemma SameForm(k: real, p: real, q: real, xx: real, xc: real, xs: real, m: Moments, yy: real, yc: real, ys: real)
    requires xx == yy && xc == yc && xs == ys
    ensures Form(k, p, q, xx, xc, xs, m) == Form(k, p, q, yy, yc, ys, m)
  {
  }

  lemma NoForm(c: real, s: real, k: real, p: real, q: real)
    ensures Form(k, p, q, SumOfSquares([]), Bin([], c, s).re, -Bin([], c, s).im, MomentsOf(c, s, 0)) == 0.0
  {
  }

  lemma LastSquare(x: seq<real>)
    requires x != []
    ensures SumOfSquares(x) == SumOfSquares(x[..|x| - 1]) + Square(x[|x| - 1])
  {
    hide Square;
  }

  lemma PlusScaled(b: Complex, u: Complex, v: real)
    ensures b.Plus(u.Conj().Scale(v)) == Complex(b.re + v * u.re, b.im - v * u.im)
  {
    Negate(v, u.im);
  }

  lemma LastMoments(c: real, s: real, n: nat)
    requires n > 0
    ensures var m, u := MomentsOf(c, s, n - 1), Turn(c, s, n - 1);
            MomentsOf(c, s, n) == Moments(m.cc + u.re * u.re, m.ss + u.im * u.im, m.cs + u.re * u.im)
  {
    hide Turn;
  }

  lemma Negate(a: real, b: real)
    ensures a * -b == -(a * b)
  {
  }

  /** With balanced moments and the bin itself for `p` and `q`, the form is what the bound compares. */
  lemma FormAtBin(n: real, e: real, b: Complex)
    ensures Form(n, b.re, -b.im, e, b.re, -b.im, Moments(n / 2.0, n / 2.0, 0.0)) == n * (n * e - 2.0 * b.Norm2())
  {
    var p, q := b.re * b.re, b.im * b.im;
    assert -b.im * -b.im == q;
    assert p * (n / 2.0) + q * (n / 2.0) == (p + q) * n / 2.0;
    assert 4.0 * n * (p + q) - 2.0 * ((p + q) * n) == 2.0 * n * (p + q);
    assert n * n * e == n * (n * e);
    assert n * (2.0 * (p + q)) == 2.0 * n * (p + q);
    Spread(n, n * e, -2.0 * (p + q));
  }

  /**
   * Bessel's inequality for one bin of the detector: its cosines and sines are orthogonal, so
   * the bin holds at most half of what Cauchy-Schwarz allows.
   */
  lemma OrthogonalBinBound(x: seq<real>, c: real, s: real)
    requires c * c + s * s == 1.0 && s != 0.0 && Closes(c, s, |x|)
    ensures 2.0 * Bin(x, c, s).Norm2() <= Product(|x| as real, SumOfSquares(x))
  {
    hide Bin, SumOfSquares, MomentsOf, Closes, Form;
    if x == [] {
      EmptyBin(c, s);
      NoSquares();
    } else {
      var n, b := |x| as real, Bin(x, c, s);
      FormIsPositive(x, c, s, n, b.re, -b.im);
      MomentsBalance(c, s, |x|);
      FormAtBin(n, SumOfSquares(x), b);
      Cancel(n, n * SumOfSquares(x) - 2.0 * b.Norm2());
    }
  }

  lemma NoSquares()
    ensures SumOfSquares([]) == 0.0
  {
  }

  lemma Cancel(n: real, d: real)
    requires n > 0.0 && n * d >= 0.0
    ensures d >= 0.0
  {
    SignOfProduct(n, -d, n * -d);
    if d < 0.0 {
      Positive(n, -d);
    }
  }

  /**
   * The magnitude on such a bin: its square is at most half the squared RMS level. The source
   * rounds the bin number to an integer, so every bin closes; `s` is zero only on the bins of
   * frequency zero and of half the sampling rate.
   */
  lemma MagnitudeOnBin(pcm: seq<Byte>, c: real, s: real, g: real, r: real)
    requires c * c + s * s == 1.0 && s != 0.0 && Closes(c, s, |pcm| / 2)
    requires IsMagnitude(g, pcm, c) && IsRms(r, pcm)
    ensures 2.0 * Square(g) <= Square(r)
  {
    hide Energy, Complex.Norm2, Normalized, IsSqrt, Closes;
    var x := Normalized(pcm);
    NormalizedShape(pcm);
    if x != [] {
      var n := |x| as real;
      var root :| IsSqrt(root, Argument(x, c)) && g == root / n;
      EnergyIsBinNorm(x, c, s);
      OrthogonalBinBound(x, c, s);
      HalfCompares(root, Argument(x, c), r, n, SumOfSquares(x));
    }
  }

  lemma HalfCompares(root: real, a: real, r: real, n: real, e: real)
    requires n > 0.0 && 2.0 * a <= Product(n, e)
    requires IsSqrt(root, a) && IsSqrt(r, e / n)
    ensures 2.0 * Square(root / n) <= Square(r)
  {
    var g, m := root / n, e / n;
    assert g * n == root && m * n == e;
    assert Square(root) == Square(g) * (n * n) by { Reorder(g, n, g, n); }
    assert Product(n, e) == m * (n * n);
    SignOfProduct(n, n, n * n);
    Divide(2.0 * Square(g), m, n * n);
  }
}
