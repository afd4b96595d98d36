/** Interleaved phases are balanced: the number of gates on at any instant differs
    from `phases * duty` by less than one and repeats `phases` times a period. */
module Interleaving {
  import opened Wrappers
  import opened RealMod
  import opened GateControl
  import opened GateSignal

  /** How many of the first `k` phases are on. */
  ghost function CountOn(plan: Plan, order: seq<string>, k: nat, time: real): nat
    requires k <= |order| && plan.period > 0.0
    requires forall n | n in order :: n in plan.windows && n in plan.delays
  {
    if k == 0 then 0
    else
      CountOn(plan, order, k - 1, time)
      + Bit(RunGateOn(plan.windows[order[k - 1]], plan.delays[order[k - 1]], plan.period, time))
  }

  /** How many of the sources of the first `k` phases are high in the window opened
      at `start`. */
  ghost function LevelSum(plan: Plan, order: seq<string>, k: nat, start: real, time: real): nat
    requires k <= |order| && plan.period > 0.0
    requires forall n | n in order :: n in plan.windows && n in plan.delays
  {
    if k == 0 then 0
    else
      LevelSum(plan, order, k - 1, start, time)
      + SolvedLevel(plan.windows[order[k - 1]], plan.delays[order[k - 1]], plan.period, 0.0, start, time)
  }

  // ------------------------------------------------------------ counting, in cells

  /** The cells `0..N` of one rotation that lie below a threshold, counted along the
      rotation that starts at `m` and goes down. */
  function Below(m: int, threshold: int, n: int, k: nat): nat
    requires n > 0
  {
    if k == 0 then 0
    else Below(m, threshold, n, k - 1) + Bit((m - (k - 1)) % n < threshold)
  }

  /** The quotients of `k` consecutive numbers, going down from `m`. */
  function QuotientSum(m: int, n: int, k: nat): int
    requires n > 0
  {
    if k == 0 then 0 else QuotientSum(m, n, k - 1) + (m - (k - 1)) / n
  }

  lemma DivMod(a: int, n: int, q: int, r: int)
    requires n > 0 && a == q * n + r && 0 <= r < n
    ensures a / n == q && a % n == r
  {
    var e := a / n - q;
    assert e * n == r - a % n;
    AtLeastOne(e, n);
  }

  lemma AtLeastOne(e: int, n: int)
    requires n > 0
    ensures e > 0 ==> e * n >= n
    ensures e < 0 ==> e * n <= -n
  {
    if e > 0 { assert (e - 1) * n >= 0; }
    if e < 0 { assert (-1 - e) * n >= 0; }
  }

  /** A remainder test is a difference of two quotients. */
  lemma TestIsQuotientStep(a: int, threshold: int, n: int)
    requires n > 0 && 0 <= threshold <= n
    ensures a / n - (a - threshold) / n == Bit(a % n < threshold)
  {
    var q, r := a / n, a % n;
    if r < threshold {
      assert a - threshold == (q - 1) * n + (r - threshold + n);
      DivMod(a - threshold, n, q - 1, r - threshold + n);
    } else {
      DivMod(a - threshold, n, q, r - threshold);
    }
  }

  lemma {:induction false} BelowIsQuotientDifference(m: int, threshold: int, n: int, k: nat)
    requires n > 0 && 0 <= threshold <= n
    ensures Below(m, threshold, n, k) == QuotientSum(m, n, k) - QuotientSum(m - threshold, n, k)
  {
    if k > 0 {
      BelowIsQuotientDifference(m, threshold, n, k - 1);
      TestIsQuotientStep(m - (k - 1), threshold, n);
      assert m - threshold - (k - 1) == m - (k - 1) - threshold;
    }
  }

  lemma {:induction false} QuotientSumStep(m: int, n: int, k: nat)
    requires n > 0
    ensures QuotientSum(m + 1, n, k) - QuotientSum(m, n, k) == (m + 1) / n - (m + 1 - k) / n
  {
    if k > 0 { QuotientSumStep(m, n, k - 1); }
  }

  /** Hermite's identity for integers: `n` consecutive quotients add up to a number
      that grows by one when `m` does. */
  lemma QuotientSumShift(m: int, n: int)
    requires n > 0
    ensures QuotientSum(m + 1, n, n) == QuotientSum(m, n, n) + 1
  {
    QuotientSumStep(m, n, n);
    var q, r := (m + 1) / n, (m + 1) % n;
    assert m + 1 - n == (q - 1) * n + r;
    DivMod(m + 1 - n, n, q - 1, r);
  }

  /** A full rotation meets every cell once. */
  lemma {:induction false} FullRotation(m: int, threshold: nat, n: int)
    requires n > 0 && threshold <= n
    ensures Below(m, threshold, n, n) == threshold
  {
    BelowIsQuotientDifference(m, threshold, n, n);
    var gained := 0;
    while gained < threshold
      invariant gained <= threshold
      invariant QuotientSum(m - threshold + gained, n, n) == QuotientSum(m - threshold, n, n) + gained
    {
      QuotientSumShift(m - threshold + gained, n);
      gained := gained + 1;
    }
  }

  // ----------------------------------------------------------------- cells in time

  lemma {:induction false} WholeOfWhole(q: int, n: nat, cell: real, period: real)
    requires period == Whole(n, cell)
    ensures Whole(q * n, cell) == Whole(q, period)
    decreases if q < 0 then -q else q
  {
    if q > 0 {
      WholeOfWhole(q - 1, n, cell, period);
      WholeSum((q - 1) * n, n, cell);
      assert q * n == (q - 1) * n + n;
    } else if q < 0 {
      WholeOfWhole(q + 1, n, cell, period);
      WholeSum(q * n, n, cell);
      assert (q + 1) * n == q * n + n;
    }
  }

  /** `k*T/N` is `k` cells, and `N` cells make the period. */
  lemma CellOf(phases: nat, period: real) returns (cell: real)
    requires phases > 0 && period > 0.0
    ensures cell > 0.0 && Whole(phases, cell) == period
    ensures forall k: nat :: PhaseOffset(k, period, phases) == Whole(k, cell)
  {
    cell := period / phases as real;
    WholeIsProduct(phases, cell);
    forall k: nat ensures PhaseOffset(k, period, phases) == Whole(k, cell) {
      WholeIsProduct(k, cell);
      DivideProduct(k as real, period, phases as real);
    }
  }

  lemma DivideProduct(a: real, b: real, c: real)
    requires c > 0.0
    ensures a * b / c == a * (b / c)
  {
    var d := b / c;
    assert b == d * c;
    assert a * b == (a * d) * c;
  }

  /** Where a delayed phase stands in its cycle, in whole cells and a remainder. */
  lemma PhasePosition(time: real, k: nat, n: nat, cell: real, period: real)
    requires n > 0 && cell > 0.0 && period == Whole(n, cell) && period > 0.0
    ensures Mod(time - Whole(k, cell), period)
         == Whole((Turns(time, cell) - k) % n, cell) + Mod(time, cell)
  {
    hide *;
    var q, j := (Turns(time, cell) - k) / n, (Turns(time, cell) - k) % n;
    PositionFrom(time, k, q, q * n, j, n, cell, period);
  }

  lemma PositionFrom(time: real, k: nat, q: int, turned: int, j: nat, n: nat, cell: real, period: real)
    requires j < n && cell > 0.0 && period == Whole(n, cell) && period > 0.0
    requires turned == q * n && Turns(time, cell) - k == turned + j
    ensures Mod(time - Whole(k, cell), period) == Whole(j, cell) + Mod(time, cell)
  {
    hide *;
    CellsBelowPeriod(time, j, n, cell, period);
    CellsToPeriods(time, k, q, turned, j, n, cell, period);
    ModUnique(time - Whole(k, cell), period, q, Whole(j, cell) + Mod(time, cell));
  }

  lemma CellsBelowPeriod(time: real, j: nat, n: nat, cell: real, period: real)
    requires cell > 0.0 && period == Whole(n, cell) && j < n
    ensures 0.0 <= Whole(j, cell) + Mod(time, cell) < period
  {
    hide Whole;
    ModRange(time, cell);
    WholeApart(n, j, cell);
    WholeApart(0, j, cell);
    WholeNone(cell);
  }

  lemma WholeNone(cell: real)
    ensures Whole(0, cell) == 0.0
  {}

  lemma CellsToPeriods(time: real, k: nat, q: int, turned: int, j: nat, n: nat, cell: real, period: real)
    requires n > 0 && cell > 0.0 && period == Whole(n, cell) && turned == q * n
    requires Turns(time, cell) - k == turned + j
    ensures time - Whole(k, cell) == Whole(j, cell) + Mod(time, cell) + Whole(q, period)
  {
    WholeOfWhole(q, n, cell, period);
    CellsSplit(Turns(time, cell), k, turned, j, cell);
  }

  lemma CellsSplit(m: int, k: int, turned: int, j: int, cell: real)
    requires m - k == turned + j
    ensures Whole(m, cell) == Whole(turned, cell) + Whole(j, cell) + Whole(k, cell)
  {
    hide *;
    WholeSum(turned + j, k, cell);
    WholeSum(turned, j, cell);
  }

  /** The number of cells whose start plus `f` lies below `width`. */
  function Threshold(f: real, width: real, cell: real, n: nat): (j: nat)
    ensures j <= n
  {
    if n == 0 then 0
    else if Whole(n - 1, cell) + f < width then n
    else Threshold(f, width, cell, n - 1)
  }

  lemma {:induction false} ThresholdDecides(f: real, width: real, cell: real, n: nat, j: nat)
    requires cell > 0.0 && j < n
    ensures j < Threshold(f, width, cell, n) <==> Whole(j, cell) + f < width
  {
    WholeApart(n - 1, j, cell);
    if Whole(n - 1, cell) + f >= width && j < n - 1 {
      ThresholdDecides(f, width, cell, n - 1, j);
    }
  }

  /** All phases share one width and each is one cell later than the one before. */
  ghost predicate PhaseGrid(plan: Plan, order: seq<string>, width: real, cell: real) {
    && order != [] && cell > 0.0 && plan.period > 0.0 && Whole(|order|, cell) == plan.period
    && (forall n | n in order :: n in plan.windows && n in plan.delays)
    && forall k | 0 <= k < |order| :: PhaseAt(plan, order[k], k, width, cell)
  }

  ghost predicate PhaseAt(plan: Plan, net: string, k: nat, width: real, cell: real)
    requires net in plan.windows && net in plan.delays
  {
    plan.windows[net] == Window(0.0, width) && plan.delays[net] == Whole(k, cell)
  }

  lemma PlanIsGrid(plan: Plan, order: seq<string>, duty: real) returns (cell: real)
    requires InterleavedPlan(plan, order, duty)
    ensures PhaseGrid(plan, order, duty * plan.period, cell)
    ensures PhaseOffset(1, plan.period, |order|) == cell
  {
    cell := CellOf(|order|, plan.period);
    assert PhaseOffset(1, plan.period, |order|) == Whole(1, cell) == Whole(0, cell) + cell;
    forall k | 0 <= k < |order| ensures PhaseAt(plan, order[k], k, duty * plan.period, cell) {
      assert PhasePlanned(plan, order, k, duty);
      assert PhaseOffset(k, plan.period, |order|) == Whole(k, cell);
    }
  }

  lemma {:induction false} CountIsBelow(plan: Plan, order: seq<string>, width: real, k: nat, time: real, cell: real)
    requires PhaseGrid(plan, order, width, cell) && k <= |order|
    ensures CountOn(plan, order, k, time)
         == Below(Turns(time, cell), Threshold(Mod(time, cell), width, cell, |order|), |order|, k)
  {
    if k > 0 {
      CountIsBelow(plan, order, width, k - 1, time, cell);
      assert PhaseAt(plan, order[k - 1], k - 1, width, cell);
      var n, j := |order|, (Turns(time, cell) - (k - 1)) % |order|;
      PhasePosition(time, k - 1, n, cell, plan.period);
      ModRange(time - Whole(k - 1, cell), plan.period);
      ThresholdDecides(Mod(time, cell), width, cell, n, j);
      assert time + -Whole(k - 1, cell) == time - Whole(k - 1, cell);
    }
  }

  /** The threshold is the width in cells, rounded one way or the other. */
  lemma ThresholdIsRounded(f: real, count: real, width: real, cell: real, n: nat)
    requires n > 0 && cell > 0.0 && 0.0 <= f < cell && 0.0 <= count <= n as real
    requires width == count * cell
    ensures count - 1.0 < Threshold(f, width, cell, n) as real < count + 1.0
  {
    var j := Threshold(f, width, cell, n);
    if j > 0 {
      ThresholdDecides(f, width, cell, n, j - 1);
      WholeIsProduct(j - 1, cell);
      CancelCell((j - 1) as real, Whole(j - 1, cell), count, width, cell);
      assert (j - 1) as real == j as real - 1.0;
    }
    if j < n {
      ThresholdDecides(f, width, cell, n, j);
      WholeIsProduct(j + 1, cell);
      assert Whole(j + 1, cell) == Whole(j, cell) + cell;
      CancelCell(count, width, (j + 1) as real, Whole(j + 1, cell), cell);
      assert (j + 1) as real == j as real + 1.0;
    }
  }

  lemma CancelCell(a: real, cellsA: real, b: real, cellsB: real, cell: real)
    requires cell > 0.0 && cellsA == a * cell && cellsB == b * cell && cellsA < cellsB
    ensures a < b
  {
    KeepCell(b, a, cell);
  }

  lemma KeepCell(a: real, b: real, cell: real)
    requires cell > 0.0
    ensures a <= b ==> a * cell <= b * cell
  {
    if a <= b { assert (b - a) * cell >= 0.0; }
  }

  // -------------------------------------------------------------------- the results

  /** At every instant the number of phases on is `phases * duty` rounded down or up,
      and it repeats after one `phases`-th of the period. */
  lemma InterleavingBalanced(plan: Plan, order: seq<string>, duty: real, time: real)
    requires InterleavedPlan(plan, order, duty) && 0.0 <= duty <= 1.0
    ensures var n := |order|;
      var on := CountOn(plan, order, n, time);
      && (on == (n as real * duty).Floor || on == -(-(n as real * duty)).Floor)
      && CountOn(plan, order, n, time + PhaseOffset(1, plan.period, n)) == on
  {
    hide *;
    var n := |order|;
    var cell := PlanIsGrid(plan, order, duty);
    var count, width := n as real * duty, duty * plan.period;
    WidthInCells(n, duty, width, count, cell, plan.period);
    GridBalanced(plan, order, width, count, time, cell);
  }

  lemma GridBalanced(plan: Plan, order: seq<string>, width: real, count: real, time: real, cell: real)
    requires PhaseGrid(plan, order, width, cell) && width == count * cell && 0.0 <= count <= |order| as real
    ensures var on := CountOn(plan, order, |order|, time);
      (on == count.Floor || on == -(-count).Floor) && CountOn(plan, order, |order|, time + cell) == on
  {
    var n := |order|;
    ModRange(time, cell);
    ModOneMore(time, cell);
    CountIsBelow(plan, order, width, n, time, cell);
    CountIsBelow(plan, order, width, n, time + cell, cell);
    FullRotation(Turns(time, cell), Threshold(Mod(time, cell), width, cell, n), n);
    FullRotation(Turns(time + cell, cell), Threshold(Mod(time, cell), width, cell, n), n);
    ThresholdIsRounded(Mod(time, cell), count, width, cell, n);
  }

  lemma WidthInCells(n: nat, duty: real, width: real, count: real, cell: real, period: real)
    requires period == Whole(n, cell) && width == duty * period && count == n as real * duty
    requires 0.0 <= duty <= 1.0
    ensures width == count * cell && 0.0 <= count <= n as real
  {
    WholeIsProduct(n, cell);
    var size := n as real;
    assert width == duty * (size * cell) == (size * duty) * cell;
    if n > 0 { Share(duty, size, count); }
  }

  /** The rendered sources of the whole set add up to the same balanced count. */
  lemma {:induction false} RenderedPhasesCounted(plan: Plan, order: seq<string>, duty: real, k: nat, start: real, time: real)
    requires InterleavedPlan(plan, order, duty) && 0.0 <= duty <= 1.0 && k <= |order| && start <= time
    ensures LevelSum(plan, order, k, start, time) == CountOn(plan, order, k, time)
  {
    if k > 0 {
      RenderedPhasesCounted(plan, order, duty, k - 1, start, time);
      assert PhasePlanned(plan, order, k - 1, duty);
      WindowsFit(duty, plan.period, 0.0);
      SolvedIsRunGate(plan.windows[order[k - 1]], plan.delays[order[k - 1]], plan.period, start, time);
    }
  }
}
