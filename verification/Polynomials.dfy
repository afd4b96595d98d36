/** Coefficient lists: `_poly_mul`, Horner evaluation, and why multiplying lists
    multiplies values. */
module Polynomials {
  import opened Complexes

  type Poly = seq<real>

  function Zeros(n: nat): Poly { seq(n, _ => 0.0) }

  function Scale(c: real, p: Poly): Poly { seq(|p|, i requires 0 <= i < |p| => c * p[i]) }

  /** `b` added to the last entries of `a`. */
  function AddRight(a: Poly, b: Poly): Poly
    requires |b| <= |a|
  {
    seq(|a|, i requires 0 <= i < |a| => if i < |a| - |b| then a[i] else a[i] + b[i - (|a| - |b|)])
  }

  /** The product: one more entry of `left` shifts what there was and adds a scaled
      copy of `right`. */
  function PolyMul(left: Poly, right: Poly): (p: Poly)
    requires right != []
    ensures |p| == |left| + |right| - 1
  {
    if left == [] then Zeros(|right| - 1)
    else AddRight(PolyMul(left[..|left| - 1], right) + [0.0], Scale(left[|left| - 1], right))
  }

  method Multiply(left: Poly, right: Poly) returns (product: Poly)
    requires right != []
    ensures product == PolyMul(left, right)
  {
    var result := new real[|left| + |right| - 1](_ => 0.0);
    for i := 0 to |left|
      invariant result[..] == PolyMul(left[..i], right) + Zeros(|left| - i)
    {
      ghost var before, row := result[..], Scale(left[i], right);
      for j := 0 to |right|
        invariant forall k | 0 <= k < result.Length ::
          result[k] == if i <= k < i + j then before[k] + row[k - i] else before[k]
      {
        result[i + j] := result[i + j] + left[i] * right[j];
      }
      RowAdded(left, right, i, row, before, result[..]);
    }
    assert left[..|left|] == left;
    product := result[..];
  }

  lemma RowAdded(left: Poly, right: Poly, i: nat, row: Poly, before: Poly, after: Poly)
    requires right != [] && i < |left| && |after| == |before| && row == Scale(left[i], right)
    requires before == PolyMul(left[..i], right) + Zeros(|left| - i)
    requires forall k | 0 <= k < |after| :: after[k] == if i <= k < i + |row| then before[k] + row[k - i] else before[k]
    ensures after == PolyMul(left[..i + 1], right) + Zeros(|left| - (i + 1))
  {
    assert left[..i + 1][..i] == left[..i];
    assert before == (PolyMul(left[..i], right) + [0.0]) + Zeros(|left| - (i + 1));
    AddRow(PolyMul(left[..i], right) + [0.0], row, Zeros(|left| - (i + 1)), after);
  }

  lemma AddRow(sum: Poly, row: Poly, rest: Poly, after: Poly)
    requires |row| <= |sum| && |after| == |sum| + |rest|
    requires forall k | 0 <= k < |after| ::
      after[k] == if |sum| - |row| <= k < |sum| then (sum + rest)[k] + row[k - (|sum| - |row|)] else (sum + rest)[k]
    ensures after == AddRight(sum, row) + rest
  {}

  // -------------------------------------------------------------------- evaluation

  /** Descending powers of `z`, as Horner's loop reads them. */
  function Value(p: Poly, z: Complex): Complex {
    if p == [] then ZERO
    else Add(Mul(Value(p[..|p| - 1], z), z), Real(p[|p| - 1]))
  }

  method PolyvalDesc(p: Poly, z: Complex) returns (value: Complex)
    ensures value == Value(p, z)
  {
    value := ZERO;
    for i := 0 to |p|
      invariant value == Value(p[..i], z)
    {
      value := Add(Mul(value, z), Real(p[i]));
      assert p[..i + 1][..i] == p[..i];
    }
    assert p[..|p|] == p;
  }

  lemma {:induction false} ValueZeros(n: nat, z: Complex)
    ensures Value(Zeros(n), z) == ZERO
  {
    if n > 0 {
      assert Zeros(n)[..n - 1] == Zeros(n - 1);
      ValueZeros(n - 1, z);
    }
  }

  lemma ScalePrefix(c: real, p: Poly, n: nat)
    requires n <= |p|
    ensures Scale(c, p)[..n] == Scale(c, p[..n])
  {
    forall i | 0 <= i < n ensures Scale(c, p)[..n][i] == Scale(c, p[..n])[i] {
      assert p[..n][i] == p[i];
    }
  }

  lemma {:induction false} ValueScale(c: real, p: Poly, z: Complex)
    ensures Value(Scale(c, p), z) == Mul(Real(c), Value(p, z))
  {
    if p != [] {
      var n := |p| - 1;
      ScalePrefix(c, p, n);
      ValueScale(c, p[..n], z);
      MulAssoc(Real(c), Value(p[..n], z), z);
      MulAdd(Mul(Value(p[..n], z), z), Real(p[n]), Real(c));
    }
  }

  lemma AddRightLast(a: Poly, b: Poly)
    requires b != [] && |b| <= |a|
    ensures AddRight(a, b)[..|a| - 1] == AddRight(a[..|a| - 1], b[..|b| - 1])
    ensures AddRight(a, b)[|a| - 1] == a[|a| - 1] + b[|b| - 1]
  {}

  lemma {:induction false} ValueAddRight(a: Poly, b: Poly, z: Complex)
    requires |b| <= |a|
    ensures Value(AddRight(a, b), z) == Add(Value(a, z), Value(b, z))
  {
    if b == [] {
      assert AddRight(a, b) == a;
    } else {
      hide Mul, AddRight;
      AddRightLast(a, b);
      ValueAddRight(a[..|a| - 1], b[..|b| - 1], z);
      MulAdd(Value(a[..|a| - 1], z), Value(b[..|b| - 1], z), z);
    }
  }

  /** Multiplying coefficient lists multiplies their values. */
  lemma {:induction false} ValueOfProduct(left: Poly, right: Poly, z: Complex)
    requires right != []
    ensures Value(PolyMul(left, right), z) == Mul(Value(left, z), Value(right, z))
  {
    if left == [] {
      ValueZeros(|right| - 1, z);
    } else {
      var n := |left| - 1;
      var shorter, row := PolyMul(left[..n], right), Scale(left[n], right);
      ValueOfProduct(left[..n], right, z);
      assert (shorter + [0.0])[..|shorter|] == shorter;
      ValueAddRight(shorter + [0.0], row, z);
      ValueScale(left[n], right, z);
      SwapLast(Value(left[..n], z), Value(right, z), z);
      MulAdd(Mul(Value(left[..n], z), z), Real(left[n]), Value(right, z));
    }
  }

  lemma SwapLast(a: Complex, b: Complex, z: Complex)
    ensures Mul(Mul(a, b), z) == Mul(Mul(a, z), b)
  {
    MulAssoc(a, b, z);
    MulComm(b, z);
    MulAssoc(a, z, b);
  }

  lemma {:induction false} LeadingOfProduct(left: Poly, right: Poly)
    requires left != [] && right != []
    ensures PolyMul(left, right)[0] == left[0] * right[0]
  {
    var n := |left| - 1;
    if n > 0 {
      LeadingOfProduct(left[..n], right);
    }
  }

  /** At `z = 1` the value is the sum of the coefficients. */
  function Total(p: Poly): real {
    if p == [] then 0.0 else Total(p[..|p| - 1]) + p[|p| - 1]
  }

  lemma {:induction false} ValueAtOne(p: Poly)
    ensures Value(p, ONE) == Real(Total(p))
  {
    if p != [] { ValueAtOne(p[..|p| - 1]); }
  }
}
