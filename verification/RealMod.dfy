/** Exact-real version of the `%` the compiler applies to times: `x % T` is the
    remainder in `[0, T)` left after taking off a whole number of periods. */
module RealMod {

  /** How many whole periods fit below `x`; negative for a negative `x`. */
  function Turns(x: real, period: real): int
    requires period > 0.0
  {
    (x / period).Floor
  }

  /** `k` periods laid end to end: `k * period`, written so that the solver only
      ever sees sums. */
  function Whole(k: int, period: real): real
    decreases if k < 0 then -k else k
  {
    if k == 0 then 0.0
    else if k > 0 then Whole(k - 1, period) + period
    else Whole(k + 1, period) - period
  }

  function Mod(x: real, period: real): real
    requires period > 0.0
  {
    x - Whole(Turns(x, period), period)
  }

  /** Two instants at the same place in the cycle. */
  ghost predicate Congruent(x: real, y: real, period: real) {
    exists k: int :: x == y + Whole(k, period)
  }

  lemma {:induction false} WholeIsProduct(k: int, period: real)
    ensures Whole(k, period) == k as real * period
    decreases if k < 0 then -k else k
  {
    if k > 0 {
      WholeIsProduct(k - 1, period);
      assert k as real == (k - 1) as real + 1.0;
    } else if k < 0 {
      WholeIsProduct(k + 1, period);
      assert k as real == (k + 1) as real - 1.0;
    }
  }

  lemma {:induction false} WholeSum(p: int, q: int, period: real)
    ensures Whole(p + q, period) == Whole(p, period) + Whole(q, period)
    decreases if q < 0 then -q else q
  {
    if q > 0 {
      WholeSum(p, q - 1, period);
    } else if q < 0 {
      WholeSum(p, q + 1, period);
    }
  }

  /** Whole periods are at least one period apart. */
  lemma {:induction false} WholeApart(p: int, q: int, period: real)
    requires period > 0.0
    ensures p > q ==> Whole(p, period) >= Whole(q, period) + period
    ensures p < q ==> Whole(p, period) <= Whole(q, period) - period
    decreases if p < q then q - p else p - q
  {
    if p > q + 1 {
      WholeApart(p - 1, q, period);
    } else if p < q - 1 {
      WholeApart(p + 1, q, period);
    }
  }

  /** A share of a period is no more than the period. */
  lemma Share(share: real, period: real, part: real)
    requires period > 0.0 && part == share * period
    ensures 0.0 <= share ==> 0.0 <= part
    ensures share < 1.0 ==> part < period
    ensures share <= 1.0 ==> part <= period
  {
    if 0.0 <= share { assert 0.0 <= share * period; }
    if share < 1.0 { assert 0.0 < (1.0 - share) * period; }
  }

  lemma ModRange(x: real, period: real)
    requires period > 0.0
    ensures 0.0 <= Mod(x, period) < period
  {
    var y := x / period;
    assert y * period == x;
    WholeIsProduct(Turns(x, period), period);
    Share(y - y.Floor as real, period, Mod(x, period));
  }

  /** The remainder is the only number in `[0, period)` that differs from `x` by
      a whole number of periods. */
  lemma ModUnique(x: real, period: real, k: int, r: real)
    requires period > 0.0
    requires x == r + Whole(k, period)
    requires 0.0 <= r < period
    ensures Mod(x, period) == r
    ensures Turns(x, period) == k
  {
    ModRange(x, period);
    WholeApart(Turns(x, period), k, period);
  }

  /** So the remainder is exactly that number. */
  lemma ModMeans(x: real, period: real, r: real)
    requires period > 0.0
    ensures r == Mod(x, period) <==> 0.0 <= r < period && Congruent(x, r, period)
  {
    ModRange(x, period);
    if r == Mod(x, period) {
      assert x == r + Whole(Turns(x, period), period);
    } else if 0.0 <= r < period && Congruent(x, r, period) {
      var k: int :| x == r + Whole(k, period);
      ModUnique(x, period, k, r);
      assert false;
    }
  }

  lemma ModShift(x: real, period: real, k: int)
    requires period > 0.0
    ensures Mod(x + Whole(k, period), period) == Mod(x, period)
    ensures Turns(x + Whole(k, period), period) == Turns(x, period) + k
  {
    ModRange(x, period);
    WholeSum(Turns(x, period), k, period);
    ModUnique(x + Whole(k, period), period, Turns(x, period) + k, Mod(x, period));
  }

  lemma ModOneMore(x: real, period: real)
    requires period > 0.0
    ensures Mod(x + period, period) == Mod(x, period)
    ensures Turns(x + period, period) == Turns(x, period) + 1
  {
    assert Whole(1, period) == Whole(0, period) + period;
    ModShift(x, period, 1);
  }

  /** Reducing one summand first changes nothing. */
  lemma ModOfSum(x: real, y: real, period: real)
    requires period > 0.0
    ensures Mod(Mod(x, period) + y, period) == Mod(x + y, period)
  {
    var q := Turns(x, period);
    assert x + y == (Mod(x, period) + y) + Whole(q, period);
    ModShift(Mod(x, period) + y, period, q);
  }

  lemma ModSmall(x: real, period: real)
    requires 0.0 <= x < period
    ensures Mod(x, period) == x
    ensures Turns(x, period) == 0
  {
    ModUnique(x, period, 0, x);
  }

  /** Just below the cycle: one period is borrowed. */
  lemma ModBelow(x: real, period: real)
    requires -period <= x < 0.0 < period
    ensures Mod(x, period) == x + period
  {
    ModSmall(x + period, period);
    ModOneMore(x, period);
  }

  /** Just above the cycle: one period is taken off. */
  lemma ModAbove(x: real, period: real)
    requires 0.0 < period <= x < period + period
    ensures Mod(x, period) == x - period
  {
    ModSmall(x - period, period);
    ModOneMore(x - period, period);
  }

  /** Equal remainders are exactly what being whole periods apart means. */
  lemma CongruentIffModEqual(x: real, y: real, period: real)
    requires period > 0.0
    ensures Congruent(x, y, period) <==> Mod(x, period) == Mod(y, period)
  {
    if Congruent(x, y, period) {
      var k :| x == y + Whole(k, period);
      ModShift(y, period, k);
    }
    if Mod(x, period) == Mod(y, period) {
      var p, q := Turns(x, period), Turns(y, period);
      WholeSum(p - q, q, period);
      assert x == y + Whole(p - q, period);
    }
  }
}
