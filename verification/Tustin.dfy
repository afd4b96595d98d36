/** The Type II and Type III designs as discrete coefficients, and the analysis that
    reads them back on the continuous axis. */
module Tustin {
  import opened Wrappers
  import opened Complexes
  import opened Polynomials

  datatype Fault = NotPositive | NoLeadingCoefficient | Singular

  // ------------------------------------------------------------------- the design

  /** One corner `1 + s/w` under `s = k (z - 1) / (z + 1)`, over `z + 1`. */
  function Corner(k: real, w: real): Poly
    requires w > 0.0
  {
    [1.0 + k / w, 1.0 - k / w]
  }

  function Corners(k: real, ws: seq<real>): (p: Poly)
    requires Positive(ws)
    ensures |p| == |ws| + 1
  {
    if ws == [] then [1.0]
    else PolyMul(Corners(k, ws[..|ws| - 1]), Corner(k, ws[|ws| - 1]))
  }

  predicate Positive(ws: seq<real>) {
    forall i | 0 <= i < |ws| :: ws[i] > 0.0
  }

  function DivideAll(p: Poly, leading: real): Poly
    requires leading != 0.0
  {
    seq(|p|, i requires 0 <= i < |p| => p[i] / leading)
  }

  function Numerator(gain: real, zeros: seq<real>, period: real): Poly
    requires Positive(zeros) && period > 0.0
  {
    Scale(gain / (2.0 / period), PolyMul(Corners(2.0 / period, zeros), [1.0, 1.0]))
  }

  function Denominator(poles: seq<real>, period: real): (p: Poly)
    requires Positive(poles) && period > 0.0
    ensures |p| == |poles| + 2
  {
    PolyMul(Corners(2.0 / period, poles), [1.0, -1.0])
  }

  method NormalisedTustin(numerator: Poly, denominator: Poly) returns (r: Result<(Poly, Poly), Fault>)
    requires denominator != []
    ensures r.Err? <==> denominator[0] == 0.0
    ensures r.Ok? ==> r.value.0 == DivideAll(numerator, denominator[0])
    ensures r.Ok? ==> r.value.1 == DivideAll(denominator[1..], denominator[0])
  {
    var leading := denominator[0];
    if leading == 0.0 { return Err(NoLeadingCoefficient); }
    return Ok((DivideAll(numerator, leading), DivideAll(denominator[1..], leading)));
  }

  /** The coefficients a proper design with these corners gets. */
  ghost predicate DesignedAs(b: Poly, a: Poly, gain: real, zeros: seq<real>, poles: seq<real>, period: real) {
    && Positive(zeros) && Positive(poles) && period > 0.0
    && Denominator(poles, period)[0] > 0.0
    && b == DivideAll(Numerator(gain, zeros, period), Denominator(poles, period)[0])
    && a == DivideAll(Denominator(poles, period)[1..], Denominator(poles, period)[0])
  }

  method Type2Coefficients(gain: real, zeroHz: real, poleHz: real, period: real, twoPi: real)
    returns (r: Result<(Poly, Poly), Fault>)
    requires twoPi > 0.0
    ensures r.Ok? <==> gain > 0.0 && zeroHz > 0.0 && poleHz > 0.0 && period > 0.0
    ensures r.Ok? ==> DesignedAs(r.value.0, r.value.1, gain, [twoPi * zeroHz], [twoPi * poleHz], period)
    ensures r.Ok? ==> |r.value.0| == 3 && |r.value.1| == 2
  {
    if gain <= 0.0 || zeroHz <= 0.0 || poleHz <= 0.0 || period <= 0.0 { return Err(NotPositive); }
    var k := 2.0 / period;
    var zero, pole := AngularFrequency(twoPi, zeroHz), AngularFrequency(twoPi, poleHz);
    var zeros := Multiply(Corner(k, zero), [1.0, 1.0]);
    var denominator := Multiply(Corner(k, pole), [1.0, -1.0]);
    SingleCorner(k, zero);
    SingleCorner(k, pole);
    LeadingPositive([pole], period);
    r := NormalisedTustin(Scale(gain / k, zeros), denominator);
  }

  method Type3Coefficients(gain: real, zero1Hz: real, zero2Hz: real, pole1Hz: real, pole2Hz: real, period: real, twoPi: real)
    returns (r: Result<(Poly, Poly), Fault>)
    requires twoPi > 0.0
    ensures r.Ok? <==> gain > 0.0 && zero1Hz > 0.0 && zero2Hz > 0.0 && pole1Hz > 0.0 && pole2Hz > 0.0 && period > 0.0
    ensures r.Ok? ==> DesignedAs(r.value.0, r.value.1, gain, [twoPi * zero1Hz, twoPi * zero2Hz],
                                 [twoPi * pole1Hz, twoPi * pole2Hz], period)
    ensures r.Ok? ==> |r.value.0| == 4 && |r.value.1| == 3
  {
    if gain <= 0.0 || zero1Hz <= 0.0 || zero2Hz <= 0.0 || pole1Hz <= 0.0 || pole2Hz <= 0.0 || period <= 0.0 {
      return Err(NotPositive);
    }
    var k := 2.0 / period;
    var zero1, zero2 := AngularFrequency(twoPi, zero1Hz), AngularFrequency(twoPi, zero2Hz);
    var pole1, pole2 := AngularFrequency(twoPi, pole1Hz), AngularFrequency(twoPi, pole2Hz);
    var zeros := Multiply(Corner(k, zero1), Corner(k, zero2));
    var poles := Multiply(Corner(k, pole1), Corner(k, pole2));
    var numerator := Multiply(zeros, [1.0, 1.0]);
    var denominator := Multiply(poles, [1.0, -1.0]);
    TwoCorners(k, zero1, zero2);
    TwoCorners(k, pole1, pole2);
    LeadingPositive([pole1, pole2], period);
    r := NormalisedTustin(Scale(gain / k, numerator), denominator);
  }

  function AngularFrequency(twoPi: real, hz: real): (w: real)
    requires twoPi > 0.0 && hz > 0.0
    ensures w > 0.0
  {
    twoPi * hz
  }

  lemma SingleCorner(k: real, w: real)
    requires w > 0.0
    ensures Corners(k, [w]) == Corner(k, w)
  {
    assert [w][..0] == [];
    OneMul(Corner(k, w));
  }

  lemma TwoCorners(k: real, w: real, v: real)
    requires w > 0.0 && v > 0.0
    ensures Corners(k, [w, v]) == PolyMul(Corner(k, w), Corner(k, v))
  {
    assert [w, v][..1] == [w];
    SingleCorner(k, w);
  }

  lemma OneMul(p: Poly)
    requires p != []
    ensures PolyMul([1.0], p) == p
  {
    assert [1.0][..0] == [];
    assert PolyMul([], p) == Zeros(|p| - 1);
    var row := Scale(1.0, p);
    assert row == p;
    assert AddRight(Zeros(|p| - 1) + [0.0], row) == p;
  }

  /** The leading coefficient is a product of `1 + k/w`: normalising never fails. */
  lemma LeadingPositive(ws: seq<real>, period: real)
    requires Positive(ws) && period > 0.0
    ensures Denominator(ws, period)[0] > 0.0
  {
    CornersLeading(2.0 / period, ws);
    LeadingOfProduct(Corners(2.0 / period, ws), [1.0, -1.0]);
  }

  lemma {:induction false} CornersLeading(k: real, ws: seq<real>)
    requires Positive(ws) && k > 0.0
    ensures Corners(k, ws)[0] > 0.0
  {
    if ws != [] {
      hide PolyMul;
      var n := |ws| - 1;
      CornersLeading(k, ws[..n]);
      LeadingOfProduct(Corners(k, ws[..n]), Corner(k, ws[n]));
      ProductPositive(Corners(k, ws[..n])[0], 1.0 + k / ws[n]);
    }
  }

  lemma ProductPositive(x: real, y: real)
    requires x > 0.0 && y > 0.0
    ensures x * y > 0.0
  {}

  // ----------------------------------------------------------------- the analysis

  /** `z = (1 + sT/2) / (1 - sT/2)` at `s = j*omega`. */
  function BilinearPoint(omega: real, period: real): Complex {
    var x := omega * period / 2.0;
    Div(Complex(1.0, x), Complex(1.0, -x))
  }

  /** `_controller_value` on the `b`/`a` shape the controllers expose: the implicit
      leading one is put back before evaluating. */
  method ControllerValue(b: Poly, a: Poly, period: real, omega: real) returns (r: Result<Complex, Fault>)
    ensures var z := BilinearPoint(omega, period);
      r == if Value([1.0] + a, z) == ZERO then Err(Singular) else Ok(Div(Value(b, z), Value([1.0] + a, z)))
  {
    var z := BilinearPoint(omega, period);
    var denominator := PolyvalDesc([1.0] + a, z);
    if denominator == ZERO { return Err(Singular); }
    var numerator := PolyvalDesc(b, z);
    return Ok(Div(numerator, denominator));
  }

  /** `1 + s/w`. */
  function OnePlus(s: Complex, w: real): Complex
    requires w > 0.0
  {
    Complex(1.0 + s.re / w, s.im / w)
  }

  function CornerProduct(s: Complex, ws: seq<real>): Complex
    requires Positive(ws)
  {
    if ws == [] then ONE else Mul(CornerProduct(s, ws[..|ws| - 1]), OnePlus(s, ws[|ws| - 1]))
  }

  /** The denominator of the continuous design, `s` times its pole corners. */
  function ContinuousDenominator(s: Complex, poles: seq<real>): Complex
    requires Positive(poles)
  {
    Mul(s, CornerProduct(s, poles))
  }

  function ContinuousNumerator(gain: real, s: Complex, zeros: seq<real>): Complex
    requires Positive(zeros)
  {
    Mul(Real(gain), CornerProduct(s, zeros))
  }

  // ---------------------------------------------------------------------- the proof

  /** Half of `1 - sT/2`: what every degree-one factor is multiplied by. */
  function Half(x: real): Complex { Complex(0.5, -x / 2.0) }

  lemma PointTimesHalf(omega: real, period: real)
    ensures Mul(BilinearPoint(omega, period), Half(omega * period / 2.0)) == Complex(0.5, omega * period / 4.0)
  {
    var x := omega * period / 2.0;
    var z := BilinearPoint(omega, period);
    DivMul(Complex(1.0, x), Complex(1.0, -x));
    HalfOf(z, x);
  }

  lemma HalfOf(z: Complex, x: real)
    requires Mul(z, Complex(1.0, -x)) == Complex(1.0, x)
    ensures Mul(z, Half(x)) == Complex(0.5, x / 2.0)
  {}

  /** A degree-one factor at the bilinear point. */
  lemma PairValue(p: real, q: real, z: Complex, x: real)
    requires Mul(z, Half(x)) == Complex(0.5, x / 2.0)
    ensures Mul(Value([p, q], z), Half(x)) == Complex((p + q) / 2.0, (p - q) * x / 2.0)
  {
    var h := Half(x);
    assert [p, q][..1] == [p] && [p][..0] == [];
    assert Value([p], z) == Real(p);
    assert Value([p, q], z) == Add(Mul(Real(p), z), Real(q));
    MulAdd(Mul(Real(p), z), Real(q), h);
    MulAssoc(Real(p), z, h);
  }

  /** Where the point stands: `k*x` is the frequency it was made from. */
  ghost predicate AtFrequency(z: Complex, x: real, k: real, omega: real) {
    Mul(z, Half(x)) == Complex(0.5, x / 2.0) && k * x == omega && k > 0.0
  }

  lemma PointAtFrequency(omega: real, period: real)
    requires period > 0.0
    ensures AtFrequency(BilinearPoint(omega, period), omega * period / 2.0, 2.0 / period, omega)
  {
    PointTimesHalf(omega, period);
    var k := 2.0 / period;
    assert k * period == 2.0;
    assert k * (omega * period / 2.0) == omega * (k * period) / 2.0;
  }

  lemma TurnsBack(omega: real, period: real)
    requires period > 0.0
    ensures 2.0 / period > 0.0 && (2.0 / period) * (omega * period / 2.0) == omega
  {
    PointAtFrequency(omega, period);
  }

  lemma CornerValue(k: real, w: real, z: Complex, x: real, omega: real)
    requires w > 0.0 && AtFrequency(z, x, k, omega)
    ensures Mul(Value(Corner(k, w), z), Half(x)) == OnePlus(Complex(0.0, omega), w)
  {
    PairValue(1.0 + k / w, 1.0 - k / w, z, x);
    var c := k / w;
    assert (1.0 + c - (1.0 - c)) * x / 2.0 == c * x;
    ShareOut(k, w, x, omega);
  }

  lemma ShareOut(k: real, w: real, x: real, omega: real)
    requires w > 0.0 && k * x == omega
    ensures (k / w) * x == omega / w
  {
    var c, d := k / w, omega / w;
    assert c * w == k && d * w == omega;
    assert (c * x) * w == d * w by { assert (c * x) * w == (c * w) * x; }
    Cancel(c * x, d, w);
  }

  lemma {:induction false} CornersValue(k: real, ws: seq<real>, z: Complex, x: real, omega: real)
    requires Positive(ws) && AtFrequency(z, x, k, omega)
    ensures Mul(Value(Corners(k, ws), z), Pow(Half(x), |ws|)) == CornerProduct(Complex(0.0, omega), ws)
  {
    if ws == [] {
      assert [1.0][..0] == [];
      assert Value([1.0], z) == ONE;
    } else {
      hide Mul;
      var n := |ws| - 1;
      CornersValue(k, ws[..n], z, x, omega);
      CornerValue(k, ws[n], z, x, omega);
      ValueOfProduct(Corners(k, ws[..n]), Corner(k, ws[n]), z);
      Regroup(Value(Corners(k, ws[..n]), z), Value(Corner(k, ws[n]), z), Pow(Half(x), n), Half(x));
    }
  }

  /** `z + 1` and `z - 1` at the bilinear point. */
  lemma UnitPairs(k: real, z: Complex, x: real, omega: real)
    requires AtFrequency(z, x, k, omega)
    ensures Mul(Value([1.0, 1.0], z), Half(x)) == ONE
    ensures Mul(Value([1.0, -1.0], z), Half(x)) == Complex(0.0, x)
  {
    PairValue(1.0, 1.0, z, x);
    PairValue(1.0, -1.0, z, x);
    hide *;
    assert (1.0 - 1.0) * x / 2.0 == 0.0;
    assert (1.0 - -1.0) * x / 2.0 == x;
  }

  /** The denominator polynomial is `s/k` times the pole corners. */
  lemma DenominatorValue(poles: seq<real>, period: real, z: Complex, x: real, omega: real)
    requires Positive(poles) && period > 0.0 && AtFrequency(z, x, 2.0 / period, omega)
    ensures Mul(Value(Denominator(poles, period), z), Pow(Half(x), |poles| + 1))
         == Mul(CornerProduct(Complex(0.0, omega), poles), Complex(0.0, x))
  {
    var k := 2.0 / period;
    hide Mul, Value, PolyMul, Corners, AtFrequency, Half, CornerProduct;
    CornersValue(k, poles, z, x, omega);
    UnitPairs(k, z, x, omega);
    ValueOfProduct(Corners(k, poles), [1.0, -1.0], z);
    Regroup(Value(Corners(k, poles), z), Value([1.0, -1.0], z), Pow(Half(x), |poles|), Half(x));
  }

  lemma NumeratorValue(gain: real, zeros: seq<real>, period: real, z: Complex, x: real, omega: real)
    requires Positive(zeros) && period > 0.0 && AtFrequency(z, x, 2.0 / period, omega)
    ensures Mul(Value(Numerator(gain, zeros, period), z), Pow(Half(x), |zeros| + 1))
         == Mul(Real(gain / (2.0 / period)), CornerProduct(Complex(0.0, omega), zeros))
  {
    hide Mul, PolyMul, Value, Corners, Pow;
    var k := 2.0 / period;
    var product := PolyMul(Corners(k, zeros), [1.0, 1.0]);
    ZerosValue(zeros, k, z, x, omega);
    ValueScale(gain / k, product, z);
    MulAssoc(Real(gain / k), Value(product, z), Pow(Half(x), |zeros| + 1));
  }

  lemma ZerosValue(zeros: seq<real>, k: real, z: Complex, x: real, omega: real)
    requires Positive(zeros) && AtFrequency(z, x, k, omega)
    ensures Mul(Value(PolyMul(Corners(k, zeros), [1.0, 1.0]), z), Pow(Half(x), |zeros| + 1))
         == CornerProduct(Complex(0.0, omega), zeros)
  {
    hide Mul, Value, PolyMul, Corners, AtFrequency, Half, CornerProduct;
    CornersValue(k, zeros, z, x, omega);
    UnitPairs(k, z, x, omega);
    MulOne(CornerProduct(Complex(0.0, omega), zeros));
    ValueOfProduct(Corners(k, zeros), [1.0, 1.0], z);
    Regroup(Value(Corners(k, zeros), z), Value([1.0, 1.0], z), Pow(Half(x), |zeros|), Half(x));
  }

  lemma MulOne(a: Complex)
    ensures Mul(a, ONE) == a && Mul(ONE, a) == a
  {}

  lemma {:induction false} CornersNonZero(omega: real, ws: seq<real>)
    requires Positive(ws)
    ensures CornerProduct(Complex(0.0, omega), ws) != ZERO
  {
    if ws != [] {
      CornersNonZero(omega, ws[..|ws| - 1]);
      NoZeroDivisors(CornerProduct(Complex(0.0, omega), ws[..|ws| - 1]), OnePlus(Complex(0.0, omega), ws[|ws| - 1]));
    }
  }

  lemma ValueDivideAll(p: Poly, leading: real, z: Complex)
    requires leading != 0.0
    ensures Value(p, z) == Mul(Real(leading), Value(DivideAll(p, leading), z))
  {
    forall i | 0 <= i < |p| ensures Scale(leading, DivideAll(p, leading))[i] == p[i] {
      DivideBack(p[i], leading);
    }
    assert Scale(leading, DivideAll(p, leading)) == p;
    ValueScale(leading, DivideAll(p, leading), z);
  }

  lemma DivideBack(x: real, leading: real)
    requires leading != 0.0
    ensures leading * (x / leading) == x
  {}

  lemma PutLeadingBack(denominator: Poly)
    requires denominator != [] && denominator[0] != 0.0
    ensures [1.0] + DivideAll(denominator[1..], denominator[0]) == DivideAll(denominator, denominator[0])
  {
    DivideBack(denominator[0], denominator[0]);
    Cancel(denominator[0] / denominator[0], 1.0, denominator[0]);
    forall i | 1 <= i < |denominator| ensures denominator[1..][i - 1] == denominator[i] {}
  }

  /** What the analysis divides, written with the design's own polynomials. */
  lemma RatioUnchanged(b: Poly, a: Poly, gain: real, zeros: seq<real>, poles: seq<real>, period: real, z: Complex)
    requires DesignedAs(b, a, gain, zeros, poles, period)
    ensures var leading := Denominator(poles, period)[0];
      && leading != 0.0
      && Value(Numerator(gain, zeros, period), z) == Mul(Real(leading), Value(b, z))
      && Value(Denominator(poles, period), z) == Mul(Real(leading), Value([1.0] + a, z))
  {
    var leading := Denominator(poles, period)[0];
    PutLeadingBack(Denominator(poles, period));
    ValueDivideAll(Numerator(gain, zeros, period), leading, z);
    ValueDivideAll(Denominator(poles, period), leading, z);
  }

  /** The discretised compensator has a pole at DC and nowhere else on the axis. */
  lemma SingularOnlyAtDc(b: Poly, a: Poly, gain: real, zeros: seq<real>, poles: seq<real>, period: real, omega: real)
    requires DesignedAs(b, a, gain, zeros, poles, period)
    ensures Value([1.0] + a, BilinearPoint(omega, period)) == ZERO <==> omega == 0.0
  {
    var z, x := BilinearPoint(omega, period), omega * period / 2.0;
    var leading := Denominator(poles, period)[0];
    PointAtFrequency(omega, period);
    RatioUnchanged(b, a, gain, zeros, poles, period, z);
    DenominatorValue(poles, period, z, x, omega);
    CornersNonZero(omega, poles);
    PowNonZero(Half(x), |poles| + 1);
    hide *;
    NoZeroDivisors(Real(leading), Value([1.0] + a, z));
    NoZeroDivisors(Value(Denominator(poles, period), z), Pow(Half(x), |poles| + 1));
    NoZeroDivisors(CornerProduct(Complex(0.0, omega), poles), Complex(0.0, x));
    SameZero(omega, period);
  }

  lemma SameZero(omega: real, period: real)
    requires period > 0.0
    ensures omega * period / 2.0 == 0.0 <==> omega == 0.0
  {
    ProductZero(omega, period);
  }

  /** Reading the Type II or Type III coefficients back on the frequency axis gives
      the continuous design, at every frequency but DC where both are singular. */
  lemma TustinRoundTrip(b: Poly, a: Poly, gain: real, zeros: seq<real>, poles: seq<real>, period: real, omega: real)
    requires DesignedAs(b, a, gain, zeros, poles, period) && |zeros| == |poles|
    requires omega != 0.0
    ensures var z, s := BilinearPoint(omega, period), Complex(0.0, omega);
      && Value([1.0] + a, z) != ZERO && ContinuousDenominator(s, poles) != ZERO
      && Div(Value(b, z), Value([1.0] + a, z)) == Div(ContinuousNumerator(gain, s, zeros), ContinuousDenominator(s, poles))
  {
    hide Mul, Value, PolyMul, Corners, Denominator, Numerator, CornerProduct, Pow, Div, BilinearPoint, AtFrequency;
    var z, x, s := BilinearPoint(omega, period), omega * period / 2.0, Complex(0.0, omega);
    SingularOnlyAtDc(b, a, gain, zeros, poles, period, omega);
    PointAtFrequency(omega, period);
    TurnsBack(omega, period);
    RatioUnchanged(b, a, gain, zeros, poles, period, z);
    DenominatorValue(poles, period, z, x, omega);
    NumeratorValue(gain, zeros, period, z, x, omega);
    CornersNonZero(omega, poles);
    NoZeroDivisors(s, CornerProduct(s, poles));
    CrossMultiply(Div(Value(b, z), Value([1.0] + a, z)), Value(b, z), Value([1.0] + a, z),
                  Denominator(poles, period)[0], Value(Numerator(gain, zeros, period), z),
                  Value(Denominator(poles, period), z), Pow(Half(x), |poles| + 1),
                  CornerProduct(s, zeros), CornerProduct(s, poles), gain, 2.0 / period, x, omega);
    DivUnique(ContinuousNumerator(gain, s, zeros), ContinuousDenominator(s, poles),
              Div(Value(b, z), Value([1.0] + a, z)));
  }

  /** From the discrete ratio to the continuous one, clearing the leading coefficient
      `c` and the common factor `h` on the way. */
  lemma CrossMultiply(v: Complex, num: Complex, den: Complex, c: real, n: Complex, d: Complex, h: Complex,
                      zeros: Complex, poles: Complex, gain: real, k: real, x: real, omega: real)
    requires den != ZERO && v == Div(num, den)
    requires n == Mul(Real(c), num) && d == Mul(Real(c), den)
    requires k > 0.0 && k * x == omega
    requires Mul(n, h) == Mul(Real(gain / k), zeros)
    requires Mul(d, h) == Mul(poles, Complex(0.0, x))
    ensures Mul(v, Mul(Complex(0.0, omega), poles)) == Mul(Real(gain), zeros)
  {
    assert Mul(v, d) == n by {
      DivMul(num, den);
      MulComm(v, d);
      MulAssoc(Real(c), den, v);
      MulComm(den, v);
    }
    assert Mul(v, Mul(poles, Complex(0.0, x))) == Mul(Real(gain / k), zeros) by {
      MulAssoc(v, d, h);
    }
    assert Mul(v, Mul(Mul(poles, Complex(0.0, x)), Real(k))) == Mul(Mul(Real(gain / k), zeros), Real(k)) by {
      MulAssoc(v, Mul(poles, Complex(0.0, x)), Real(k));
    }
    assert Mul(Mul(poles, Complex(0.0, x)), Real(k)) == Mul(Complex(0.0, omega), poles) by {
      MulAssoc(poles, Complex(0.0, x), Real(k));
      assert Mul(Complex(0.0, x), Real(k)) == Complex(0.0, omega);
      MulComm(poles, Complex(0.0, omega));
    }
    assert Mul(Mul(Real(gain / k), zeros), Real(k)) == Mul(Real(gain), zeros) by {
      MulComm(Mul(Real(gain / k), zeros), Real(k));
      MulAssoc(Real(k), Real(gain / k), zeros);
      DivideBack(gain, k);
      assert Mul(Real(k), Real(gain / k)) == Real(gain);
    }
  }

  /** An exact integrator: the coefficients of every design sum to zero. */
  lemma ExactIntegrator(b: Poly, a: Poly, gain: real, zeros: seq<real>, poles: seq<real>, period: real)
    requires DesignedAs(b, a, gain, zeros, poles, period)
    ensures 1.0 + Total(a) == 0.0
  {
    hide Mul, Value, PolyMul, Corners, Denominator, Numerator, BilinearPoint;
    SingularOnlyAtDc(b, a, gain, zeros, poles, period, 0.0);
    PointAtDc(period);
    ValueAtOne([1.0] + a);
    TotalCons(1.0, a);
  }

  lemma PointAtDc(period: real)
    requires period > 0.0
    ensures BilinearPoint(0.0, period) == ONE
  {
    hide Div;
    SameZero(0.0, period);
    OneOverOne();
  }

  lemma OneOverOne()
    ensures Div(ONE, ONE) == ONE
  {
    MulOne(ONE);
    hide Mul, Inverse;
    DivUnique(ONE, ONE, ONE);
  }

  lemma {:induction false} TotalCons(c: real, p: Poly)
    ensures Total([c] + p) == c + Total(p)
  {
    if p == [] {
      assert [c] + p == [c] && [c][..0] == [];
    } else {
      assert ([c] + p)[..|p|] == [c] + p[..|p| - 1];
      TotalCons(c, p[..|p| - 1]);
    }
  }
}
