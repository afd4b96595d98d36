/** Complex numbers over the reals: just the ring laws, division and the absence of
    zero divisors that the frequency evaluation needs. */
module Complexes {

  datatype Complex = Complex(re: real, im: real)

  const ZERO := Complex(0.0, 0.0)
  const ONE := Complex(1.0, 0.0)

  function Real(x: real): Complex { Complex(x, 0.0) }

  function Add(a: Complex, b: Complex): Complex { Complex(a.re + b.re, a.im + b.im) }

  function Mul(a: Complex, b: Complex): Complex {
    Complex(a.re * b.re - a.im * b.im, a.re * b.im + a.im * b.re)
  }

  function Norm(a: Complex): real { a.re * a.re + a.im * a.im }

  function Pow(a: Complex, n: nat): Complex {
    if n == 0 then ONE else Mul(Pow(a, n - 1), a)
  }

  lemma NormPositive(a: Complex)
    ensures Norm(a) >= 0.0
    ensures Norm(a) == 0.0 <==> a == ZERO
  {
    Square(a.re);
    Square(a.im);
  }

  lemma Square(x: real)
    ensures x * x >= 0.0
    ensures x * x == 0.0 <==> x == 0.0
  {
    if x > 0.0 { assert x * x > 0.0; }
    if x < 0.0 { assert x * x > 0.0; }
    ProductZero(x, x);
  }

  function Inverse(b: Complex): Complex
    requires b != ZERO
  {
    NormPositive(b);
    Complex(b.re / Norm(b), -b.im / Norm(b))
  }

  function Div(a: Complex, b: Complex): Complex
    requires b != ZERO
  {
    Mul(a, Inverse(b))
  }

  lemma MulComm(a: Complex, b: Complex)
    ensures Mul(a, b) == Mul(b, a)
  {}

  lemma MulAssoc(a: Complex, b: Complex, c: Complex)
    ensures Mul(Mul(a, b), c) == Mul(a, Mul(b, c))
  {
    Expand(a.re, a.im, b.re, b.im, c.re, c.im);
    Expand(a.re, a.im, b.re, b.im, c.im, -c.re);
  }

  lemma Expand(a: real, b: real, c: real, d: real, e: real, f: real)
    ensures (a * c - b * d) * e - (a * d + b * c) * f == a * (c * e - d * f) - b * (c * f + d * e)
  {}

  lemma MulAdd(a: Complex, b: Complex, c: Complex)
    ensures Mul(Add(a, b), c) == Add(Mul(a, c), Mul(b, c))
    ensures Mul(c, Add(a, b)) == Add(Mul(c, a), Mul(c, b))
  {}

  /** Four factors, regrouped. */
  lemma Regroup(a: Complex, b: Complex, c: Complex, d: Complex)
    ensures Mul(Mul(a, b), Mul(c, d)) == Mul(Mul(a, c), Mul(b, d))
  {
    MulAssoc(a, b, Mul(c, d));
    MulAssoc(b, c, d);
    MulComm(b, c);
    MulAssoc(c, b, d);
    MulAssoc(a, c, Mul(b, d));
  }

  lemma NormMul(a: Complex, b: Complex)
    ensures Norm(Mul(a, b)) == Norm(a) * Norm(b)
  {}

  lemma NoZeroDivisors(a: Complex, b: Complex)
    ensures Mul(a, b) == ZERO <==> a == ZERO || b == ZERO
  {
    hide Mul, Norm;
    NormMul(a, b);
    NormPositive(a);
    NormPositive(b);
    NormPositive(Mul(a, b));
    ProductZero(Norm(a), Norm(b));
  }

  lemma ProductZero(x: real, y: real)
    ensures x * y == 0.0 <==> x == 0.0 || y == 0.0
  {}

  lemma {:induction false} PowNonZero(a: Complex, n: nat)
    requires a != ZERO
    ensures Pow(a, n) != ZERO
  {
    if n > 0 {
      PowNonZero(a, n - 1);
      NoZeroDivisors(Pow(a, n - 1), a);
    }
  }

  lemma DivMul(a: Complex, b: Complex)
    requires b != ZERO
    ensures Mul(Div(a, b), b) == a
  {
    MulAssoc(a, Inverse(b), b);
    InverseMul(b);
  }

  lemma InverseMul(b: Complex)
    requires b != ZERO
    ensures Mul(Inverse(b), b) == ONE
  {
    NormPositive(b);
    var n := Norm(b);
    var x, y := b.re / n, -b.im / n;
    assert x * n == b.re && y * n == -b.im;
    InverseParts(x, y, n, b.re, b.im);
  }

  lemma InverseParts(x: real, y: real, n: real, p: real, q: real)
    requires n > 0.0 && x * n == p && y * n == -q && n == p * p + q * q
    ensures x * p - y * q == 1.0
    ensures x * q + y * p == 0.0
  {
    assert (x * p - y * q) * n == p * (x * n) - q * (y * n);
    assert (x * q + y * p) * n == q * (x * n) + p * (y * n);
    Cancel(x * p - y * q, 1.0, n);
    Cancel(x * q + y * p, 0.0, n);
  }

  lemma Cancel(a: real, b: real, n: real)
    requires n != 0.0 && a * n == b * n
    ensures a == b
  {
    assert (a - b) * n == 0.0;
  }

  /** A quotient is the only solution of its equation. */
  lemma DivUnique(a: Complex, b: Complex, v: Complex)
    requires b != ZERO && Mul(v, b) == a
    ensures v == Div(a, b)
  {
    DivMul(a, b);
    var w := Div(a, b);
    var gap := Complex(v.re - w.re, v.im - w.im);
    assert v == Add(gap, w);
    MulAdd(gap, w, b);
    assert Mul(gap, b) == ZERO;
    NoZeroDivisors(gap, b);
  }
}
