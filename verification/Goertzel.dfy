/**
 * The Goertzel detector over exact reals. `c` and `s` stand for the cosine and sine of the
 * bin's angle; only `c * c + s * s == 1` is used, so every result holds for every angle.
 */
module Goertzel {
  import opened Bytes
  import opened Pcm

  // ----- the reference: one bin of the discrete Fourier transform -----

  datatype Complex = Complex(re: real, im: real) {
    function Plus(o: Complex): Complex { Complex(re + o.re, im + o.im) }
    function Times(o: Complex): Complex { Complex(re * o.re - im * o.im, re * o.im + im * o.re) }
    function Scale(k: real): Complex { Complex(k * re, k * im) }
    function Conj(): Complex { Complex(re, -im) }
    /** Squared modulus. */
    function Norm2(): real { re * re + im * im }
  }

  /** `e^(jwn)` for an angle with cosine `c` and sine `s`. */
  function Turn(c: real, s: real, n: nat): Complex
  {
    if n == 0 then Complex(1.0, 0.0) else Turn(c, s, n - 1).Times(Complex(c, s))
  }

  /** The sum of `x[i] * e^(-jwi)`. */
  function Bin(x: seq<real>, c: real, s: real): Complex
  {
    if x == [] then Complex(0.0, 0.0)
    else
      var n := |x| - 1;
      Bin(x[..n], c, s).Plus(Turn(c, s, n).Conj().Scale(x[n]))
  }

  // ----- the recurrence -----

  datatype Memory = Memory(s1: real, s2: real)

  /** One round of the loop of `goertzel_magnitude`. */
  function Step(m: Memory, sample: real, coeff: real): Memory
  {
    Memory(sample + coeff * m.s1 - m.s2, m.s1)
  }

  /** The memory after the samples `x`. */
  function Recurrence(x: seq<real>, coeff: real): Memory
  {
    if x == [] then Memory(0.0, 0.0) else Step(Recurrence(x[..|x| - 1], coeff), x[|x| - 1], coeff)
  }

  /** What the square root is taken of. */
  function Energy(m: Memory, coeff: real): real
  {
    m.s1 * m.s1 + m.s2 * m.s2 - coeff * m.s1 * m.s2
  }

  /** The complex number the two-word memory stands for: `s1 - e^(-jw) s2`. */
  function Phasor(m: Memory, c: real, s: real): Complex
  {
    Complex(m.s1 - c * m.s2, s * m.s2)
  }

  // ----- complex algebra -----

  lemma TurnIsUnit(c: real, s: real, n: nat)
    requires c * c + s * s == 1.0
    ensures Turn(c, s, n).Norm2() == 1.0
  {
    if n > 0 {
      TurnIsUnit(c, s, n - 1);
      NormTimes(Turn(c, s, n - 1), Complex(c, s));
    }
  }

  lemma NormTimes(a: Complex, b: Complex)
    ensures a.Times(b).Norm2() == a.Norm2() * b.Norm2()
  {
    var p, q, r, t := a.re * b.re, a.im * b.im, a.re * b.im, a.im * b.re;
    assert a.Times(b).Norm2() == p * p - 2.0 * p * q + q * q + r * r + 2.0 * r * t + t * t;
    assert p * q == r * t;
    assert a.Norm2() * b.Norm2() == p * p + r * r + t * t + q * q;
  }

  lemma Rearrange(u: Complex, b: Complex, w: Complex)
    ensures u.Times(b).Times(w) == u.Times(w).Times(b)
  {
    Regroup(u.re, u.im, b.re, b.im, w.re, w.im);
    Regroup(u.re, u.im, b.re, b.im, w.im, -w.re);
  }

  lemma Regroup(p: real, q: real, x: real, y: real, c: real, s: real)
    ensures (p * x - q * y) * c - (p * y + q * x) * s == (p * c - q * s) * x - (p * s + q * c) * y
  {
    Distribute(p * x, q * y, c);
    Distribute(p * y, -q * x, s);
    Distribute(p * c, q * s, x);
    Distribute(p * s, -q * c, y);
  }

  lemma Distribute(a: real, b: real, k: real)
    ensures (a - b) * k == a * k - b * k
  {
  }

  /** Adding a real number is adding one more term under the rotation `u`. */
  lemma RotateIn(u: Complex, b: Complex, k: real)
    requires u.Norm2() == 1.0
    ensures u.Times(b).Plus(Complex(k, 0.0)) == u.Times(b.Plus(u.Conj().Scale(k)))
  {
    RotateInParts(u.re, u.im, b.re, b.im, k);
    assert k * u.Norm2() == k;
  }

  lemma RotateInParts(p: real, q: real, x: real, y: real, k: real)
    ensures p * (x + k * p) - q * (y + k * -q) == (p * x - q * y) + k * (p * p + q * q)
    ensures p * (y + k * -q) + q * (x + k * p) == p * y + q * x
  {
    assert p * (x + k * p) == p * x + k * (p * p) && q * (y + k * -q) == q * y - k * (q * q);
    assert p * (y + k * -q) == p * y - k * (p * q) && q * (x + k * p) == q * x + k * (p * q);
  }

  // ----- the recurrence computes the bin, up to a rotation -----

  lemma PhasorStep(m: Memory, x: real, c: real, s: real)
    requires c * c + s * s == 1.0
    ensures Phasor(Step(m, x, 2.0 * c), c, s)
            == Phasor(m, c, s).Times(Complex(c, s)).Plus(Complex(x, 0.0))
  {
    var p := Phasor(m, c, s).Times(Complex(c, s));
    assert p.re == c * m.s1 - (c * c + s * s) * m.s2;
    assert p.im == s * m.s1;
  }

  lemma EnergyIsPhasorNorm(m: Memory, c: real, s: real)
    requires c * c + s * s == 1.0
    ensures Energy(m, 2.0 * c) == Phasor(m, c, s).Norm2()
  {
    var p := Phasor(m, c, s);
    assert p.Norm2() == m.s1 * m.s1 - 2.0 * c * m.s1 * m.s2 + (c * c + s * s) * (m.s2 * m.s2);
  }

  /** After `n` samples the phasor, turned once more, is the bin turned `n` times. */
  lemma {:induction false} PhasorIsTurnedBin(x: seq<real>, c: real, s: real)
    requires c * c + s * s == 1.0
    ensures Phasor(Recurrence(x, 2.0 * c), c, s).Times(Complex(c, s)) == Turn(c, s, |x|).Times(Bin(x, c, s))
  {
    if x == [] {
      NothingYet(c, s);
    } else {
      var n := |x| - 1;
      var u, b := Turn(c, s, n), Bin(x[..n], c, s);
      OneMoreSample(x, c, s);
      hide *;
      PhasorIsTurnedBin(x[..n], c, s);
      TurnIsUnit(c, s, n);
      TurnedStep(Recurrence(x[..n], 2.0 * c), x[n], u, b, c, s);
    }
  }

  lemma NothingYet(c: real, s: real)
    ensures Phasor(Recurrence([], 2.0 * c), c, s).Times(Complex(c, s)) == Turn(c, s, 0).Times(Bin([], c, s))
  {
    var zero := Complex(0.0, 0.0);
    assert Recurrence([], 2.0 * c) == Memory(0.0, 0.0) && Bin([], c, s) == zero;
    assert Phasor(Memory(0.0, 0.0), c, s) == zero;
    TimesZero(Complex(c, s));
    TimesZero(Turn(c, s, 0));
  }

  lemma TimesZero(w: Complex)
    ensures w.Times(Complex(0.0, 0.0)) == Complex(0.0, 0.0) == Complex(0.0, 0.0).Times(w)
  {
  }

  lemma OneMoreSample(x: seq<real>, c: real, s: real)
    requires x != []
    ensures var n := |x| - 1;
            && Recurrence(x, 2.0 * c) == Step(Recurrence(x[..n], 2.0 * c), x[n], 2.0 * c)
            && Bin(x, c, s) == Bin(x[..n], c, s).Plus(Turn(c, s, n).Conj().Scale(x[n]))
            && Turn(c, s, |x|) == Turn(c, s, n).Times(Complex(c, s))
  {
  }

  lemma TurnedStep(m: Memory, k: real, u: Complex, b: Complex, c: real, s: real)
    requires c * c + s * s == 1.0 && u.Norm2() == 1.0
    requires Phasor(m, c, s).Times(Complex(c, s)) == u.Times(b)
    ensures Phasor(Step(m, k, 2.0 * c), c, s).Times(Complex(c, s))
            == u.Times(Complex(c, s)).Times(b.Plus(u.Conj().Scale(k)))
  {
    hide Complex.Times, Complex.Plus, Complex.Scale, Complex.Conj, Complex.Norm2, Phasor, Step;
    PhasorStep(m, k, c, s);
    RotateIn(u, b, k);
    Rearrange(u, b.Plus(u.Conj().Scale(k)), Complex(c, s));
  }

  /**
   * Goertzel refines the DFT bin: the energy is exactly the squared modulus of the plain
   * complex sum, so the square root's argument is never negative.
   */
  lemma EnergyIsBinNorm(x: seq<real>, c: real, s: real)
    requires c * c + s * s == 1.0
    ensures Energy(Recurrence(x, 2.0 * c), 2.0 * c) == Bin(x, c, s).Norm2()
    ensures Energy(Recurrence(x, 2.0 * c), 2.0 * c) >= 0.0
  {
    hide *;
    var p := Phasor(Recurrence(x, 2.0 * c), c, s);
    PhasorIsTurnedBin(x, c, s);
    EnergyIsPhasorNorm(Recurrence(x, 2.0 * c), c, s);
    NormTimes(p, Complex(c, s));
    AngleIsUnit(c, s);
    TurnIsUnit(c, s, |x|);
    NormTimes(Turn(c, s, |x|), Bin(x, c, s));
    SquaresAddUp(Bin(x, c, s));
  }

  lemma AngleIsUnit(c: real, s: real)
    requires c * c + s * s == 1.0
    ensures Complex(c, s).Norm2() == 1.0
  {
  }

  lemma SquaresAddUp(a: Complex)
    ensures a.Norm2() >= 0.0
  {
  }

  // ----- the bound by the RMS level -----

  function SumOfSquares(x: seq<real>): real
  {
    if x == [] then 0.0 else SumOfSquares(x[..|x| - 1]) + Square(x[|x| - 1])
  }

  /** Cauchy-Schwarz for one bin. */
  lemma {:induction false} BinBound(x: seq<real>, c: real, s: real)
    requires c * c + s * s == 1.0
    ensures 0.0 <= SumOfSquares(x)
    ensures Bin(x, c, s).Norm2() <= Product(|x| as real, SumOfSquares(x))
  {
    hide Complex.Times, Complex.Plus, Complex.Scale, Complex.Conj, Complex.Norm2, Square;
    if x == [] {
      EmptyBin(c, s);
    } else {
      var n := |x| - 1;
      var a, u, e := Bin(x[..n], c, s), Turn(c, s, n), SumOfSquares(x[..n]);
      BinBound(x[..n], c, s);
      TurnIsUnit(c, s, n);
      ConjNorm(u);
      SquareSign(x[n]);
      OneMoreTerm(a, u.Conj(), x[n], n as real, e);
    }
  }

  lemma ConjNorm(a: Complex)
    ensures a.Conj().Norm2() == a.Norm2()
  {
  }

  /** The inner product of two complex numbers as plane vectors. */
  function Dot(a: Complex, u: Complex): real { a.re * u.re + a.im * u.im }

  function Product(a: real, b: real): real { a * b }

  lemma OneMoreTerm(a: Complex, u: Complex, k: real, n: real, e: real)
    requires u.Norm2() == 1.0 && n >= 0.0 && e >= 0.0
    requires a.Norm2() <= Product(n, e)
    ensures a.Plus(u.Scale(k)).Norm2() <= Product(n + 1.0, e + Square(k))
  {
    hide *;
    ProjectionBound(a, u);
    SumNorm(a, u, k);
    MeanBound(k, Dot(a, u), n, e);
    Expand(n, e, Square(k));
  }

  lemma Expand(n: real, e: real, q: real)
    ensures Product(n + 1.0, e + q) == Product(n, e) + Product(n, q) + e + q
  {
  }

  lemma SumNorm(a: Complex, u: Complex, k: real)
    requires u.Norm2() == 1.0
    ensures a.Plus(u.Scale(k)).Norm2() == a.Norm2() + 2.0 * Product(k, Dot(a, u)) + Square(k)
  {
    SquareOfSum(a.re, u.re, k);
    SquareOfSum(a.im, u.im, k);
    assert (k * k) * u.Norm2() == k * k;
  }

  lemma SquareOfSum(x: real, y: real, k: real)
    ensures (x + k * y) * (x + k * y) == x * x + 2.0 * k * (x * y) + (k * k) * (y * y)
  {
  }

  lemma ProjectionBound(a: Complex, u: Complex)
    requires u.Norm2() == 1.0
    ensures Square(Dot(a, u)) <= a.Norm2()
  {
    var cross := a.re * u.im - a.im * u.re;
    assert Dot(a, u) * Dot(a, u) + cross * cross == a.Norm2() * u.Norm2();
    SquareSign(cross);
  }

  lemma Positive(a: real, b: real)
    requires a > 0.0 && b > 0.0
    ensures a * b > 0.0
  {
  }

  function Square(d: real): real { d * d }

  lemma SquareSign(d: real)
    ensures Square(d) >= 0.0
    ensures Square(d) > 0.0 <==> d != 0.0
  {
    SignOfProduct(d, d, Square(d));
  }

  lemma SignOfProduct(a: real, b: real, p: real)
    requires p == a * b
    ensures (a > 0.0 && b > 0.0) || (a < 0.0 && b < 0.0) ==> p > 0.0
    ensures a == 0.0 ==> p == 0.0
  {
  }

  lemma SquareOrder(a: real, b: real)
    requires a >= 0.0 && b >= 0.0
    ensures Square(a) <= Square(b) <==> a <= b
  {
    if a < b {
      SquareIncreases(a, b);
    } else if b < a {
      SquareIncreases(b, a);
    }
  }

  lemma SquareIncreases(a: real, b: real)
    requires 0.0 <= a < b
    ensures Square(a) < Square(b)
  {
    Positive(b - a, b + a);
    assert b * b - a * a == (b - a) * (b + a);
  }

  lemma MeanBound(k: real, d: real, n: real, e: real)
    requires n >= 0.0 && e >= 0.0 && Square(d) <= Product(n, e)
    ensures 2.0 * Product(k, d) <= Product(n, Square(k)) + e
  {
    if n == 0.0 {
      assert Product(n, e) == 0.0;
      IsZero(d);
    } else {
      MeanBoundTimes(k, d, n, e);
      Divide(2.0 * k * d, n * Square(k) + e, n);
    }
  }

  lemma IsZero(d: real)
    requires Square(d) <= 0.0
    ensures d == 0.0
  {
    hide Square;
    SquareSign(d);
  }

  lemma MeanBoundTimes(k: real, d: real, n: real, e: real)
    requires Square(d) <= n * e
    ensures 2.0 * k * d * n <= (n * Square(k) + e) * n
  {
    SquareSign(n * k - d);
    assert Square(n * k - d) == n * n * (k * k) - 2.0 * k * d * n + Square(d);
    assert (n * Square(k) + e) * n == n * n * (k * k) + n * e;
  }

  lemma Divide(a: real, b: real, n: real)
    requires n > 0.0
    ensures a * n <= b * n <==> a <= b
  {
    if b < a {
      Positive(a - b, n);
    }
  }

  // ----- the two measurements on PCM bytes -----

  /** Sample `i` scaled to [-1, 1), as both loops read it. */
  function Scaled(pcm: seq<Byte>, i: nat): (r: real)
    requires i < |pcm| / 2
    ensures -1.0 <= r <= 1.0
    ensures r == 0.0 <==> FromLe(pcm[2 * i], pcm[2 * i + 1]) == 0
  {
    FromLe(pcm[2 * i], pcm[2 * i + 1]) as real / 32768.0
  }

  function Normalized(pcm: seq<Byte>): (x: seq<real>)
    ensures |x| == |pcm| / 2
  {
    seq(|pcm| / 2, i requires 0 <= i < |pcm| / 2 => Scaled(pcm, i))
  }

  /** `r` is the square root of `a`, as `math.sqrt` gives it over exact reals. */
  predicate IsSqrt(r: real, a: real) { r >= 0.0 && Square(r) == a }

  /** The argument of the square root in `goertzel_magnitude`. */
  function Argument(x: seq<real>, c: real): real
  {
    Energy(Recurrence(x, 2.0 * c), 2.0 * c)
  }

  /** `g` is what `goertzel_magnitude` returns. */
  ghost predicate IsMagnitude(g: real, pcm: seq<Byte>, c: real)
  {
    var x := Normalized(pcm);
    if x == [] then g == 0.0
    else exists root :: IsSqrt(root, Argument(x, c)) && g == root / |x| as real
  }

  /** `r` is what `rms_level` returns. */
  ghost predicate IsRms(r: real, pcm: seq<Byte>)
  {
    var x := Normalized(pcm);
    if x == [] then r == 0.0 else IsSqrt(r, SumOfSquares(x) / |x| as real)
  }

  lemma EmptyBin(c: real, s: real)
    ensures Bin([], c, s).Norm2() == 0.0
  {
  }

  /** The recurrence loop: returns the argument of the square root. */
  method GoertzelEnergy(pcm: seq<Byte>, c: real, ghost s: real) returns (n: nat, energy: real)
    requires c * c + s * s == 1.0
    ensures n == |pcm| / 2
    ensures energy == Bin(Normalized(pcm), c, s).Norm2() && energy >= 0.0
  {
    hide *;
    n := |pcm| / 2;
    ghost var x := Normalized(pcm);
    NormalizedShape(pcm);
    if n == 0 {
      EmptyBin(c, s);
      return n, 0.0;
    }
    var coeff := 2.0 * c;
    var s0, s1, s2 := 0.0, 0.0, 0.0;
    NoSamples(x, coeff);
    for i := 0 to n
      invariant Memory(s1, s2) == Recurrence(x[..i], coeff)
    {
      var sample := Scaled(pcm, i);
      SampleStep(x, i, coeff, s1, s2);
      s0 := sample + coeff * s1 - s2;
      s2 := s1;
      s1 := s0;
    }
    assert x[..n] == x;
    energy := s1 * s1 + s2 * s2 - coeff * s1 * s2;
    EnergyOf(s1, s2, coeff);
    EnergyIsBinNorm(x, c, s);
  }

  lemma NormalizedShape(pcm: seq<Byte>)
    ensures |Normalized(pcm)| == |pcm| / 2
    ensures forall i :: 0 <= i < |pcm| / 2 ==> Normalized(pcm)[i] == Scaled(pcm, i)
  {
    hide Scaled;
  }

  lemma NoSamples(x: seq<real>, coeff: real)
    ensures Recurrence(x[..0], coeff) == Memory(0.0, 0.0)
  {
  }

  lemma SampleStep(x: seq<real>, i: nat, coeff: real, s1: real, s2: real)
    requires i < |x| && Memory(s1, s2) == Recurrence(x[..i], coeff)
    ensures Memory(x[i] + coeff * s1 - s2, s1) == Recurrence(x[..i + 1], coeff)
  {
    assert x[..i + 1][..i] == x[..i];
  }

  lemma EnergyOf(s1: real, s2: real, coeff: real)
    ensures Energy(Memory(s1, s2), coeff) == s1 * s1 + s2 * s2 - coeff * s1 * s2
  {
  }

  /** The summation loop of `rms_level`: returns the mean square. */
  method MeanSquare(pcm: seq<Byte>) returns (mean: real)
    ensures Normalized(pcm) == [] ==> mean == 0.0
    ensures Normalized(pcm) != [] ==> mean == SumOfSquares(Normalized(pcm)) / (|pcm| / 2) as real
  {
    var n := |pcm| / 2;
    if n == 0 {
      return 0.0;
    }
    ghost var x := Normalized(pcm);
    var sumSq := 0.0;
    for i := 0 to n
      invariant sumSq == SumOfSquares(x[..i])
    {
      var sample := Scaled(pcm, i);
      assert x[..i + 1][..i] == x[..i];
      sumSq := sumSq + sample * sample;
    }
    assert x[..n] == x;
    mean := sumSq / n as real;
  }

  /** Every magnitude is at most the RMS level, for every input and every angle. */
  lemma MagnitudeAtMostRms(pcm: seq<Byte>, c: real, s: real, g: real, r: real)
    requires c * c + s * s == 1.0
    requires IsMagnitude(g, pcm, c) && IsRms(r, pcm)
    ensures 0.0 <= g <= r
  {
    hide Energy, Complex.Norm2, Normalized, IsSqrt;
    var x := Normalized(pcm);
    if x != [] {
      var n := |x| as real;
      var root :| IsSqrt(root, Argument(x, c)) && g == root / n;
      EnergyIsBinNorm(x, c, s);
      BinBound(x, c, s);
      RootsCompare(root, Argument(x, c), r, n, SumOfSquares(x));
    }
  }

  lemma RootsCompare(root: real, a: real, r: real, n: real, e: real)
    requires n > 0.0 && a <= Product(n, e)
    requires IsSqrt(root, a) && IsSqrt(r, e / n)
    ensures 0.0 <= root / n <= r
  {
    assert e / n * n == e;
    assert Square(r * n) == Square(r) * n * n;
    assert Square(r * n) == n * e;
    SquareOrder(root, r * n);
    assert (root / n) * n == root;
    Divide(root / n, r, n);
    Divide(0.0, root / n, n);
  }

  /** The RMS level is zero for silence only, and never exceeds full scale. */
  lemma RmsRange(pcm: seq<Byte>, r: real)
    requires IsRms(r, pcm)
    ensures 0.0 <= r <= 1.0
    ensures r == 0.0 <==> forall i :: 0 <= i < |pcm| / 2 ==> FromLe(pcm[2 * i], pcm[2 * i + 1]) == 0
  {
    var x := Normalized(pcm);
    assert forall i :: 0 <= i < |x| ==> -1.0 <= x[i] <= 1.0;
    SquaresRange(x);
    if x != [] {
      MeanRange(r, |x| as real, SumOfSquares(x));
    }
    assert forall i :: 0 <= i < |x| ==> (x[i] == 0.0 <==> FromLe(pcm[2 * i], pcm[2 * i + 1]) == 0);
  }

  ghost predicate Silent(x: seq<real>)
  {
    forall i :: 0 <= i < |x| ==> x[i] == 0.0
  }

  lemma MeanRange(r: real, n: real, e: real)
    requires n >= 1.0 && 0.0 <= e <= n && IsSqrt(r, e / n)
    ensures r <= 1.0
    ensures r > 0.0 <==> e > 0.0
  {
    hide Square;
    assert e / n * n == e;
    Divide(e / n, 1.0, n);
    Divide(e / n, 0.0, n);
    assert Square(1.0) == 1.0 by { SquareOfOne(); }
    SquareOrder(r, 1.0);
    SquareSign(r);
  }

  lemma SquareOfOne()
    ensures Square(1.0) == 1.0
  {
  }

  lemma {:induction false} SquaresRange(x: seq<real>)
    requires forall i :: 0 <= i < |x| ==> -1.0 <= x[i] <= 1.0
    ensures 0.0 <= SumOfSquares(x) <= |x| as real
    ensures SumOfSquares(x) > 0.0 <==> !Silent(x)
  {
    hide Square;
    if x != [] {
      var n := |x| - 1;
      SquaresRange(x[..n]);
      UnitSquare(x[n]);
      SilentSnoc(x);
    }
  }

  lemma SilentSnoc(x: seq<real>)
    requires x != []
    ensures Silent(x) <==> Silent(x[..|x| - 1]) && x[|x| - 1] == 0.0
  {
    assert forall i :: 0 <= i < |x| - 1 ==> x[..|x| - 1][i] == x[i];
  }

  lemma UnitSquare(k: real)
    requires -1.0 <= k <= 1.0
    ensures 0.0 <= Square(k) <= 1.0
    ensures Square(k) > 0.0 <==> k != 0.0
  {
    var e := if k < 0.0 then -k else k;
    assert Square(k) == Square(e);
    SquareSign(k);
    SquareOfOne();
    SquareOrder(e, 1.0);
  }

  // ----- full scale -----

  function Abs(k: real): real { if k < 0.0 then -k else k }

  /**
   * A steady sample `v` measures exactly `|v| / 32768`, as RMS level and as magnitude of the
   * bin at angle zero alike: the bound of the magnitude by the RMS level is reached.
   */
  lemma SteadyLevel(pcm: seq<Byte>, v: Sample, g: real, r: real)
    requires |pcm| >= 2 && forall i :: 0 <= i < |pcm| / 2 ==> FromLe(pcm[2 * i], pcm[2 * i + 1]) == v
    requires IsMagnitude(g, pcm, 1.0) && IsRms(r, pcm)
    ensures g == r == Abs(v as real / 32768.0)
  {
    hide *;
    SteadySamples(pcm, v);
    var root := Levels(pcm, g, r);
    SteadyMeasures(Normalized(pcm), v as real / 32768.0, root, g, r);
  }

  lemma SteadyMeasures(x: seq<real>, k: real, root: real, g: real, r: real)
    requires x != [] && forall i :: 0 <= i < |x| ==> x[i] == k
    requires IsSqrt(root, Energy(Recurrence(x, 2.0 * 1.0), 2.0 * 1.0)) && g == root / |x| as real
    requires IsSqrt(r, SumOfSquares(x) / |x| as real)
    ensures g == r == Abs(k)
  {
    hide *;
    SteadySums(x, k);
    EnergyIsBinNorm(x, 1.0, 0.0);
    RealNorm(Product(|x| as real, k));
    SteadyRoots(|x| as real, k, root, r);
  }

  lemma SteadyRoots(n: real, k: real, root: real, r: real)
    requires n > 0.0 && IsSqrt(root, Square(Product(n, k))) && IsSqrt(r, Product(n, Square(k)) / n)
    ensures root / n == r == Abs(k)
  {
    hide *;
    MeanOfEqual(n, k);
    RootIs(root, Product(n, k));
    RootIs(r, k);
  }

  lemma SteadySamples(pcm: seq<Byte>, v: Sample)
    requires forall i :: 0 <= i < |pcm| / 2 ==> FromLe(pcm[2 * i], pcm[2 * i + 1]) == v
    ensures forall i :: 0 <= i < |Normalized(pcm)| ==> Normalized(pcm)[i] == v as real / 32768.0
    ensures |pcm| >= 2 ==> Normalized(pcm) != []
  {
  }

  lemma Levels(pcm: seq<Byte>, g: real, r: real) returns (root: real)
    requires |pcm| >= 2 && IsMagnitude(g, pcm, 1.0) && IsRms(r, pcm)
    ensures var x := Normalized(pcm);
            && IsSqrt(root, Energy(Recurrence(x, 2.0 * 1.0), 2.0 * 1.0)) && g == root / |x| as real
            && IsSqrt(r, SumOfSquares(x) / |x| as real)
  {
    hide IsSqrt, Energy, Recurrence, SumOfSquares;
    root :| IsSqrt(root, Argument(Normalized(pcm), 1.0)) && g == root / |Normalized(pcm)| as real;
  }

  lemma {:induction false} SteadySums(x: seq<real>, k: real)
    requires forall i :: 0 <= i < |x| ==> x[i] == k
    ensures Bin(x, 1.0, 0.0) == Complex(Product(|x| as real, k), 0.0)
    ensures SumOfSquares(x) == Product(|x| as real, Square(k))
  {
    if x == [] {
      SteadyNothing(k);
    } else {
      var n := |x| - 1;
      OneMoreSample(x, 1.0, 0.0);
      OneMoreSquare(x);
      hide *;
      assert x[n] == k && |x| as real == n as real + 1.0;
      SteadySums(x[..n], k);
      NoTurn(n);
      RealTerm(Product(n as real, k), Turn(1.0, 0.0, n), k);
      OneMoreTime(n as real, k);
      OneMoreTime(n as real, Square(k));
    }
  }

  lemma SteadyNothing(k: real)
    ensures Bin([], 1.0, 0.0) == Complex(Product(0.0, k), 0.0) && SumOfSquares([]) == Product(0.0, Square(k))
  {
    hide Square;
  }

  lemma OneMoreSquare(x: seq<real>)
    requires x != []
    ensures SumOfSquares(x) == SumOfSquares(x[..|x| - 1]) + Square(x[|x| - 1])
  {
    hide Square;
  }

  lemma RealTerm(a: real, u: Complex, k: real)
    requires u == Complex(1.0, 0.0)
    ensures Complex(a, 0.0).Plus(u.Conj().Scale(k)) == Complex(a + k, 0.0)
  {
    hide *;
    RealConj(u);
    RealScale(u.Conj(), k);
    RealPlus(a, k);
  }

  lemma RealConj(u: Complex)
    requires u.im == 0.0
    ensures u.Conj() == u
  {
  }

  lemma RealPlus(a: real, k: real)
    ensures Complex(a, 0.0).Plus(Complex(k, 0.0)) == Complex(a + k, 0.0)
  {
  }

  lemma RealScale(u: Complex, k: real)
    requires u == Complex(1.0, 0.0)
    ensures u.Scale(k) == Complex(k, 0.0)
  {
    TimesOneAndZero(k, u.re, u.im);
  }

  lemma TimesOneAndZero(k: real, one: real, zero: real)
    requires one == 1.0 && zero == 0.0
    ensures k * one == k && k * zero == 0.0
  {
  }

  lemma OneMoreTime(n: real, k: real)
    ensures Product(n + 1.0, k) == Product(n, k) + k
  {
  }

  lemma {:induction false} NoTurn(n: nat)
    ensures Turn(1.0, 0.0, n) == Complex(1.0, 0.0)
  {
    if n > 0 {
      NoTurn(n - 1);
    }
  }

  lemma RealNorm(k: real)
    ensures Complex(k, 0.0).Norm2() == Square(k)
  {
  }

  /** A root of a square is the absolute value. */
  lemma RootIs(root: real, k: real)
    requires IsSqrt(root, Square(k))
    ensures root == Abs(k)
  {
    assert Square(Abs(k)) == Square(k);
    SquareOrder(root, Abs(k));
    SquareOrder(Abs(k), root);
  }

  lemma MeanOfEqual(n: real, k: real)
    requires n > 0.0
    ensures Product(n, Square(k)) / n == Square(k)
    ensures Abs(Product(n, k)) / n == Abs(k)
  {
    hide Square;
    TimesThenDivided(n, Square(k));
    TimesThenDivided(n, Abs(k));
    AbsOfProduct(n, k);
  }

  lemma AbsOfProduct(n: real, k: real)
    requires n > 0.0
    ensures Abs(Product(n, k)) == Product(n, Abs(k))
  {
    SignOfProduct(n, k, n * k);
  }

  lemma TimesThenDivided(n: real, k: real)
    requires n > 0.0
    ensures Product(n, k) / n == k
  {
    var q := Product(n, k) / n;
    assert q * n == k * n;
    Divide(q, k, n);
    Divide(k, q, n);
  }
}
