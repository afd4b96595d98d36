/** The discrete compensator: a difference equation with a delay line, saturation
    and checkpoints. */
module Compensator {
  import opened Wrappers

  datatype Fault = BadCoefficients | BadLimits | MissingMeasurement | MissingTime | NotASnapshot | ForeignCoefficients | BadHistory

  type Limits = Option<(real, real)>

  /** `b` is `b0..bN`, `a` is `a1..aN`. */
  datatype Law = Law(b: seq<real>, a: seq<real>, limits: Limits)

  /** The delay line, most recent first. */
  datatype History = History(x: seq<real>, y: seq<real>)

  predicate LawOk(law: Law) {
    2 <= |law.b| <= 4 && |law.a| == |law.b| - 1 && (law.limits.Some? ==> law.limits.value.0 < law.limits.value.1)
  }

  predicate Fits(law: Law, h: History) {
    |h.x| == |h.y| == |law.a|
  }

  function ZeroHistory(order: nat): History {
    History(seq(order, _ => 0.0), seq(order, _ => 0.0))
  }

  // -------------------------------------------------------------- one sample, as a value

  function Clamp(limits: Limits, v: real): real {
    match limits
    case None => v
    case Some((low, high)) => Min(Max(v, low), high)
  }

  /** The request after the first `k` taps of the delay line. */
  function RequestUpTo(law: Law, h: History, error: real, k: nat): real
    requires LawOk(law) && Fits(law, h) && k <= |law.a|
  {
    if k == 0 then law.b[0] * error
    else RequestUpTo(law, h, error, k - 1) + Tap(law, h, k)
  }

  function Tap(law: Law, h: History, k: nat): real
    requires LawOk(law) && Fits(law, h) && 1 <= k <= |law.a|
  {
    TapOf(law.b[k], h.x[k - 1], law.a[k - 1], h.y[k - 1])
  }

  function TapOf(b: real, x: real, a: real, y: real): real { b * x - a * y }

  function Request(law: Law, h: History, error: real): real
    requires LawOk(law) && Fits(law, h)
  {
    RequestUpTo(law, h, error, |law.a|)
  }

  function Applied(law: Law, h: History, error: real): real
    requires LawOk(law) && Fits(law, h)
  {
    Clamp(law.limits, Request(law, h, error))
  }

  function Shift(law: Law, h: History, error: real): (h': History)
    requires LawOk(law) && Fits(law, h)
    ensures Fits(law, h')
  {
    History([error] + h.x[..|h.x| - 1], [Applied(law, h, error)] + h.y[..|h.y| - 1])
  }

  /** The history and all the outputs after a run of errors. */
  function Run(law: Law, h: History, errors: seq<real>): (r: (History, seq<real>))
    requires LawOk(law) && Fits(law, h)
    ensures Fits(law, r.0) && |r.1| == |errors|
  {
    if errors == [] then (h, [])
    else
      var (before, outputs) := Run(law, h, errors[..|errors| - 1]);
      var error := errors[|errors| - 1];
      (Shift(law, before, error), outputs + [Applied(law, before, error)])
  }

  // --------------------------------------------------- refinement: the full-history law

  /** The past as the difference equation reads it: zero before the first sample. */
  function Past(s: seq<real>, k: int): real {
    if 0 <= k < |s| then s[k] else 0.0
  }

  /** `sum b_i e[n-i] - sum a_i y[n-i]` over the whole past, first `k` delays. */
  function FullRequestUpTo(law: Law, errors: seq<real>, outputs: seq<real>, n: int, k: nat): real
    requires LawOk(law) && k <= |law.a|
  {
    if k == 0 then law.b[0] * Past(errors, n)
    else
      FullRequestUpTo(law, errors, outputs, n, k - 1)
      + TapOf(law.b[k], Past(errors, n - k), law.a[k - 1], Past(outputs, n - k))
  }

  /** The control law on whole sequences, with no delay line at all. */
  function FullOutputs(law: Law, errors: seq<real>): (outputs: seq<real>)
    requires LawOk(law)
    ensures |outputs| == |errors|
  {
    if errors == [] then []
    else
      var n := |errors| - 1;
      var outputs := FullOutputs(law, errors[..n]);
      outputs + [Clamp(law.limits, FullRequestUpTo(law, errors, outputs, n, |law.a|))]
  }

  /** The delay line holds exactly the last samples, padded with zeros. */
  ghost predicate Remembers(h: History, errors: seq<real>, outputs: seq<real>)
    requires |h.x| == |h.y| && |errors| == |outputs|
  {
    forall i | 0 <= i < |h.x| ::
      h.x[i] == Past(errors, |errors| - 1 - i) && h.y[i] == Past(outputs, |outputs| - 1 - i)
  }

  lemma {:induction false} DelayLineIsFullHistory(law: Law, errors: seq<real>)
    requires LawOk(law)
    ensures var (h, outputs) := Run(law, ZeroHistory(|law.a|), errors);
      outputs == FullOutputs(law, errors) && Remembers(h, errors, outputs)
  {
    if errors != [] {
      var n := |errors| - 1;
      DelayLineIsFullHistory(law, errors[..n]);
      var (before, outputs) := Run(law, ZeroHistory(|law.a|), errors[..n]);
      assert errors[..n] + [errors[n]] == errors;
      RequestIsFull(law, before, errors[..n], outputs, errors[n], |law.a|);
      Remembered(law, before, errors[..n], outputs, errors[n]);
    }
  }

  lemma {:induction false} RequestIsFull(law: Law, h: History, errors: seq<real>, outputs: seq<real>, error: real, k: nat)
    requires LawOk(law) && Fits(law, h) && k <= |law.a| && |errors| == |outputs| && Remembers(h, errors, outputs)
    ensures RequestUpTo(law, h, error, k) == FullRequestUpTo(law, errors + [error], outputs, |errors|, k)
  {
    hide TapOf;
    if k > 0 {
      RequestIsFull(law, h, errors, outputs, error, k - 1);
      assert h.x[k - 1] == Past(errors, |errors| - k) == Past(errors + [error], |errors| - k);
      assert h.y[k - 1] == Past(outputs, |errors| - k);
    }
  }

  lemma Remembered(law: Law, h: History, errors: seq<real>, outputs: seq<real>, error: real)
    requires LawOk(law) && Fits(law, h) && |errors| == |outputs| && Remembers(h, errors, outputs)
    ensures Remembers(Shift(law, h, error), errors + [error], outputs + [Applied(law, h, error)])
  {
    var h' := Shift(law, h, error);
    var out := Applied(law, h, error);
    forall i | 0 <= i < |h'.x|
      ensures h'.x[i] == Past(errors + [error], |errors| - i) && h'.y[i] == Past(outputs + [out], |outputs| - i)
    {
      if i > 0 {
        assert h'.x[i] == h.x[i - 1] && h'.y[i] == h.y[i - 1];
      }
    }
  }

  // ----------------------------------------------- what a run is, without its own words

  function Distance(a: real, b: real): real { if a < b then b - a else a - b }

  /** The point of the actuator range nearest to the request; the request itself when
      there are no limits. */
  ghost predicate Nearest(limits: Limits, request: real, y: real) {
    match limits
    case None => y == request
    case Some((low, high)) => low <= y <= high && forall z | low <= z <= high :: Distance(y, request) <= Distance(z, request)
  }

  lemma ClampIsNearest(limits: Limits, v: real)
    requires limits.Some? ==> limits.value.0 < limits.value.1
    ensures Nearest(limits, v, Clamp(limits, v))
  {}

  /** `c[0]*s[0] + c[1]*s[1] + ...`, `k` terms. */
  function Dot(c: seq<real>, s: seq<real>, k: nat): real
    requires k <= |c| && k <= |s|
  {
    if k == 0 then 0.0 else Dot(c, s, k - 1) + c[k - 1] * s[k - 1]
  }

  /** Sample `n` of `s`, or what stood in the delay line for it before the run. */
  function Ago(line: seq<real>, s: seq<real>, n: int): real
    requires -|line| <= n < |s|
  {
    if n >= 0 then s[n] else line[-n - 1]
  }

  /** The last `k` samples up to sample `n`, the latest first. */
  function Lately(line: seq<real>, s: seq<real>, n: int, k: nat): (r: seq<real>)
    requires n < |s| && k <= |line| + n + 1
    ensures |r| == k
  {
    seq(k, i requires 0 <= i < k => Ago(line, s, n - i))
  }

  /** Sample by sample: the output nearest to what the difference equation asks for, on
      the errors and the outputs themselves. */
  ghost predicate Obeys(law: Law, h: History, errors: seq<real>, outputs: seq<real>)
    requires LawOk(law) && Fits(law, h) && |outputs| == |errors|
  {
    forall n | 0 <= n < |errors| :: ObeysAt(law, h, errors, outputs, n)
  }

  ghost predicate ObeysAt(law: Law, h: History, errors: seq<real>, outputs: seq<real>, n: nat)
    requires LawOk(law) && Fits(law, h) && n < |errors| == |outputs|
  {
    Nearest(law.limits,
            Dot(law.b, Lately(h.x, errors, n, |law.b|), |law.b|) - Dot(law.a, Lately(h.y, outputs, n - 1, |law.a|), |law.a|),
            outputs[n])
  }

  lemma {:induction false} RequestIsDots(law: Law, h: History, error: real, k: nat)
    requires LawOk(law) && Fits(law, h) && k <= |law.a|
    ensures RequestUpTo(law, h, error, k) == Dot(law.b, [error] + h.x, k + 1) - Dot(law.a, h.y, k)
  {
    if k > 0 {
      RequestIsDots(law, h, error, k - 1);
      assert ([error] + h.x)[k] == h.x[k - 1];
    } else {
      assert Dot(law.b, [error] + h.x, 0) == 0.0;
    }
  }

  lemma AppliedIsNearest(law: Law, h: History, error: real)
    requires LawOk(law) && Fits(law, h)
    ensures Nearest(law.limits, Dot(law.b, [error] + h.x, |law.b|) - Dot(law.a, h.y, |law.a|), Applied(law, h, error))
  {
    RequestIsDots(law, h, error, |law.a|);
    ClampIsNearest(law.limits, Request(law, h, error));
    hide RequestUpTo; hide Dot; hide Nearest; hide Clamp;
  }

  /** Every run, from any delay line: each output is the difference equation's request
      brought to the nearest point of the actuator range, and the delay line ends with
      the last errors and outputs. */
  lemma {:induction false} RunObeys(law: Law, h: History, errors: seq<real>)
    requires LawOk(law) && Fits(law, h)
    ensures var (end, outputs) := Run(law, h, errors);
      && Obeys(law, h, errors, outputs)
      && end == History(Lately(h.x, errors, |errors| - 1, |law.a|), Lately(h.y, outputs, |errors| - 1, |law.a|))
  {
    if errors == [] {
      assert Lately(h.x, errors, -1, |law.a|) == h.x && Lately(h.y, errors, -1, |law.a|) == h.y;
    } else {
      var n := |errors| - 1;
      RunObeys(law, h, errors[..n]);
      var (before, earlier) := Run(law, h, errors[..n]);
      assert Run(law, h, errors) == (Shift(law, before, errors[n]), earlier + [Applied(law, before, errors[n])]);
      assert errors == errors[..n] + [errors[n]];
      hide *;
      ObeysMore(law, h, errors[..n], earlier, before, errors[n]);
    }
  }

  /** One more sample. */
  lemma ObeysMore(law: Law, h: History, errors: seq<real>, outputs: seq<real>, before: History, error: real)
    requires LawOk(law) && Fits(law, h) && Fits(law, before) && |outputs| == |errors| && Obeys(law, h, errors, outputs)
    requires before == History(Lately(h.x, errors, |errors| - 1, |law.a|), Lately(h.y, outputs, |errors| - 1, |law.a|))
    ensures var applied := Applied(law, before, error);
      && Obeys(law, h, errors + [error], outputs + [applied])
      && Shift(law, before, error)
         == History(Lately(h.x, errors + [error], |errors|, |law.a|), Lately(h.y, outputs + [applied], |errors|, |law.a|))
  {
    var applied, n := Applied(law, before, error), |errors|;
    AppliedIsNearest(law, before, error);
    LatelyMore(h.x, errors, error, |law.a|);
    LatelyMore(h.y, outputs, applied, |law.a|);
    LatelyKept(h.y, outputs, applied, n - 1, |law.a|);
    assert Shift(law, before, error) == History([error] + before.x[..|law.a| - 1], [applied] + before.y[..|law.a| - 1]);
    hide Applied; hide Shift; hide Dot; hide Nearest; hide Lately;
    assert (outputs + [applied])[n] == applied;
    assert ObeysAt(law, h, errors + [error], outputs + [applied], n);
    forall m | 0 <= m < n ensures ObeysAt(law, h, errors + [error], outputs + [applied], m) {
      EarlierObeys(law, h, errors, outputs, error, applied, m);
    }
  }

  lemma EarlierObeys(law: Law, h: History, errors: seq<real>, outputs: seq<real>, error: real, applied: real, m: nat)
    requires LawOk(law) && Fits(law, h) && m < |errors| == |outputs| && Obeys(law, h, errors, outputs)
    ensures ObeysAt(law, h, errors + [error], outputs + [applied], m)
  {
    assert ObeysAt(law, h, errors, outputs, m);
    LatelyKept(h.x, errors, error, m, |law.b|);
    LatelyKept(h.y, outputs, applied, m - 1, |law.a|);
    assert (outputs + [applied])[m] == outputs[m];
    hide Dot; hide Nearest; hide Lately; hide Obeys;
  }

  lemma LatelyKept(line: seq<real>, s: seq<real>, next: real, n: int, k: nat)
    requires n < |s| && k <= |line| + n + 1
    ensures Lately(line, s + [next], n, k) == Lately(line, s, n, k)
  {
    forall i | 0 <= i < k ensures Lately(line, s + [next], n, k)[i] == Lately(line, s, n, k)[i] {
      assert Ago(line, s + [next], n - i) == Ago(line, s, n - i);
    }
  }

  lemma LatelyMore(line: seq<real>, s: seq<real>, next: real, k: nat)
    requires 0 < k <= |line|
    ensures Lately(line, s + [next], |s|, k) == [next] + Lately(line, s, |s| - 1, k)[..k - 1]
    ensures Lately(line, s + [next], |s|, k + 1) == [next] + Lately(line, s, |s| - 1, k)
  {
    var all, before := s + [next], Lately(line, s, |s| - 1, k);
    var longer, same := [next] + before, [next] + before[..k - 1];
    forall i | 0 <= i <= k ensures Lately(line, all, |s|, k + 1)[i] == longer[i] {
      assert i > 0 ==> Ago(line, all, |s| - i) == Ago(line, s, |s| - 1 - (i - 1));
    }
    assert Lately(line, all, |s|, k) == Lately(line, all, |s|, k + 1)[..k];
    assert longer[..k] == same;
  }

  // --------------------------------------------------------------------- saturation

  predicate Within(limits: (real, real), y: real) {
    y == 0.0 || limits.0 <= y <= limits.1
  }

  function Largest(limits: (real, real)): real {
    Max(Abs(limits.0), Abs(limits.1))
  }

  /** The sum of `|s_i| * m`. */
  function Weighted(s: seq<real>, m: real): real {
    if s == [] then 0.0 else Weighted(s[..|s| - 1], m) + Weight(s[|s| - 1], m)
  }

  function Weight(c: real, m: real): real { Abs(c) * m }

  lemma WeightedSnoc(s: seq<real>, k: nat, m: real)
    requires k < |s|
    ensures Weighted(s[..k + 1], m) == Weighted(s[..k], m) + Weight(s[k], m)
  {
    hide Weight;
    assert s[..k + 1][..k] == s[..k];
  }

  ghost predicate Saturated(limits: (real, real), h: History, outputs: seq<real>) {
    && (forall i | 0 <= i < |h.y| :: Within(limits, h.y[i]))
    && (forall i | 0 <= i < |outputs| :: limits.0 <= outputs[i] <= limits.1)
  }

  /** With limits, every remembered output is zero or inside them and every output is
      inside, after a run of any length. */
  lemma {:induction false} SaturatedMemory(law: Law, errors: seq<real>)
    requires LawOk(law) && law.limits.Some?
    ensures var r := Run(law, ZeroHistory(|law.a|), errors); Saturated(law.limits.value, r.0, r.1)
  {
    if errors != [] {
      SaturatedMemory(law, errors[..|errors| - 1]);
      var r := Run(law, ZeroHistory(|law.a|), errors[..|errors| - 1]);
      SaturatedShift(law, r.0, r.1, errors[|errors| - 1]);
    }
  }

  lemma SaturatedShift(law: Law, h: History, outputs: seq<real>, error: real)
    requires LawOk(law) && Fits(law, h) && law.limits.Some? && Saturated(law.limits.value, h, outputs)
    ensures Saturated(law.limits.value, Shift(law, h, error), outputs + [Applied(law, h, error)])
  {
    AppliedInside(law, h, error);
    hide Applied;
    var y := Shift(law, h, error).y;
    forall i | 0 <= i < |y| ensures Within(law.limits.value, y[i]) {
      if i > 0 { assert y[i] == h.y[i - 1]; }
    }
  }

  lemma AppliedInside(law: Law, h: History, error: real)
    requires LawOk(law) && Fits(law, h) && law.limits.Some?
    ensures law.limits.value.0 <= Applied(law, h, error) <= law.limits.value.1
  {
    hide Request;
  }

  /** Every request of a run of any length is bounded by the coefficients, the largest
      error and the actuator range, however long the saturation lasted. */
  lemma RequestBounded(law: Law, errors: seq<real>, next: real, bound: real)
    requires LawOk(law) && law.limits.Some? && bound >= 0.0
    requires Abs(next) <= bound && forall i | 0 <= i < |errors| :: Abs(errors[i]) <= bound
    ensures var h := Run(law, ZeroHistory(|law.a|), errors).0;
      Abs(Request(law, h, next)) <= Weighted(law.b, bound) + Weighted(law.a, Largest(law.limits.value))
  {
    MemoryInRange(law, errors, bound);
    hide *;
    BoundedRequest(law, Run(law, ZeroHistory(|law.a|), errors).0, next, bound, Largest(law.limits.value));
  }

  ghost predicate Bounded(h: History, bound: real, range: real)
    requires |h.x| == |h.y|
  {
    forall i | 0 <= i < |h.x| :: Abs(h.x[i]) <= bound && Abs(h.y[i]) <= range
  }

  lemma MemoryInRange(law: Law, errors: seq<real>, bound: real)
    requires LawOk(law) && law.limits.Some? && bound >= 0.0
    requires forall i | 0 <= i < |errors| :: Abs(errors[i]) <= bound
    ensures Bounded(Run(law, ZeroHistory(|law.a|), errors).0, bound, Largest(law.limits.value))
  {
    SaturatedMemory(law, errors);
    DelayLineIsFullHistory(law, errors);
    var r := Run(law, ZeroHistory(|law.a|), errors);
    forall i | 0 <= i < |r.0.x| ensures Abs(r.0.x[i]) <= bound && Abs(r.0.y[i]) <= Largest(law.limits.value) {
      assert r.0.x[i] == Past(errors, |errors| - 1 - i);
      assert Within(law.limits.value, r.0.y[i]);
    }
  }

  lemma BoundedRequest(law: Law, h: History, next: real, bound: real, range: real)
    requires LawOk(law) && Fits(law, h) && Bounded(h, bound, range) && Abs(next) <= bound
    ensures Abs(Request(law, h, next)) <= Weighted(law.b, bound) + Weighted(law.a, range)
  {
    hide RequestUpTo, Weighted, Abs, Bounded, Weight;
    RequestUpToBounded(law, h, next, bound, range, |law.a|);
    assert law.b[..|law.a| + 1] == law.b && law.a[..|law.a|] == law.a;
  }

  lemma {:induction false} RequestUpToBounded(law: Law, h: History, error: real, bound: real, range: real, k: nat)
    requires LawOk(law) && Fits(law, h) && k <= |law.a|
    requires Abs(error) <= bound && Bounded(h, bound, range)
    ensures Abs(RequestUpTo(law, h, error, k)) <= Weighted(law.b[..k + 1], bound) + Weighted(law.a[..k], range)
  {
    hide Abs, Weighted, Tap, Weight;
    if k == 0 {
      AbsProduct(law.b[0], error, RequestUpTo(law, h, error, 0), bound);
      WeightedSnoc(law.b, 0, bound);
      WeightedNone(law.b[..0], bound);
      WeightedNone(law.a[..0], range);
    } else {
      RequestUpToBounded(law, h, error, bound, range, k - 1);
      WeightedSnoc(law.b, k, bound);
      WeightedSnoc(law.a, k - 1, range);
      TapBounded(law, h, bound, range, k);
      AbsSum(RequestUpTo(law, h, error, k - 1), Tap(law, h, k));
    }
  }

  lemma TapBounded(law: Law, h: History, bound: real, range: real, k: nat)
    requires LawOk(law) && Fits(law, h) && 1 <= k <= |law.a| && Bounded(h, bound, range)
    ensures Abs(Tap(law, h, k)) <= Weight(law.b[k], bound) + Weight(law.a[k - 1], range)
  {
    hide Abs, Weight;
    var forward, back := law.b[k] * h.x[k - 1], law.a[k - 1] * h.y[k - 1];
    AbsProduct(law.b[k], h.x[k - 1], forward, bound);
    AbsProduct(law.a[k - 1], h.y[k - 1], back, range);
    AbsSum(forward, -back);
    AbsNegated(back);
    assert Tap(law, h, k) == forward + -back;
  }

  lemma AbsSum(p: real, q: real)
    ensures Abs(p + q) <= Abs(p) + Abs(q)
  {}

  lemma AbsNegated(p: real)
    ensures Abs(-p) == Abs(p)
  {}

  lemma WeightedNone(s: seq<real>, m: real)
    requires s == []
    ensures Weighted(s, m) == 0.0
  {}

  lemma AbsProduct(c: real, v: real, product: real, bound: real)
    requires Abs(v) <= bound && product == c * v
    ensures Abs(product) <= Weight(c, bound)
  {
    var m := Abs(c);
    assert m * (bound - v) >= 0.0;
    assert m * (bound + v) >= 0.0;
    assert product == m * v || product == -(m * v);
  }

  // -------------------------------------------------------------------- checkpoints

  datatype Snapshot = Snapshot(b: seq<real>, a: seq<real>, history: History, limits: Limits)

  /** Either shape `reset` accepts: a snapshot's history, or `x1..xN`, `y1..yN`. */
  datatype Saved = FromHistory(history: History) | FromUpdate(update: map<string, real>)

  const DIGITS := ["1", "2", "3"]

  /** `x1..xN`, `y1..yN` and `output`. */
  function StateUpdate(h: History, output: real): map<string, real>
    requires |h.x| == |h.y| <= 3
  {
    UpdateUpTo("x", h.x, |h.x|) + UpdateUpTo("y", h.y, |h.y|) + map["output" := output]
  }

  /** The names a state update goes by. */
  ghost predicate Reported(update: map<string, real>, h: History, output: real)
    requires 1 <= |h.x| == |h.y| <= 3
  {
    && update.Keys == {"output", "x1", "y1"} + (if |h.x| > 1 then {"x2", "y2"} else {}) + (if |h.x| > 2 then {"x3", "y3"} else {})
    && update["output"] == output && update["x1"] == h.x[0] && update["y1"] == h.y[0]
    && (|h.x| > 1 ==> update["x2"] == h.x[1] && update["y2"] == h.y[1])
    && (|h.x| > 2 ==> update["x3"] == h.x[2] && update["y3"] == h.y[2])
  }

  lemma UpdateReports(h: History, output: real)
    requires 1 <= |h.x| == |h.y| <= 3
    ensures Reported(StateUpdate(h, output), h, output)
  {
    var update, n := StateUpdate(h, output), |h.x|;
    UpdateKeys("x", h.x, n);
    UpdateKeys("y", h.y, n);
    UpdateNames("x", h.x, n);
    UpdateNames("y", h.y, n);
    assert update.Keys == UpdateUpTo("x", h.x, n).Keys + UpdateUpTo("y", h.y, n).Keys + {"output"};
    assert update["output"] == output;
    forall i | 0 <= i < n
      ensures "x" + DIGITS[i] in update && update["x" + DIGITS[i]] == h.x[i]
      ensures "y" + DIGITS[i] in update && update["y" + DIGITS[i]] == h.y[i]
    {
      assert ("x" + DIGITS[i])[0] == 'x' && ("y" + DIGITS[i])[0] == 'y' && |"x" + DIGITS[i]| == |"y" + DIGITS[i]| == 2;
      assert "x" + DIGITS[i] !in UpdateUpTo("y", h.y, n);
    }
    NamesByOrder("x", n);
    NamesByOrder("y", n);
    hide *;
    SpelledOut(update, h, output);
  }

  lemma SpelledOut(update: map<string, real>, h: History, output: real)
    requires 1 <= |h.x| == |h.y| <= 3
    requires update.Keys == {"x" + "1"} + (if |h.x| > 1 then {"x" + "2"} else {}) + (if |h.x| > 2 then {"x" + "3"} else {})
      + ({"y" + "1"} + (if |h.x| > 1 then {"y" + "2"} else {}) + (if |h.x| > 2 then {"y" + "3"} else {})) + {"output"}
    requires update["output"] == output
    requires forall i | 0 <= i < |h.x| ::
      && "x" + DIGITS[i] in update && update["x" + DIGITS[i]] == h.x[i]
      && "y" + DIGITS[i] in update && update["y" + DIGITS[i]] == h.y[i]
    ensures Reported(update, h, output)
  {
    assert "x" + "1" == "x1" && "y" + "1" == "y1" && "x" + "2" == "x2" && "y" + "2" == "y2" && "x" + "3" == "x3" && "y" + "3" == "y3";
    assert DIGITS[0] == "1" && DIGITS[1] == "2" && DIGITS[2] == "3";
  }

  function Names(prefix: string, k: nat): set<string>
    requires k <= 3
  {
    if k == 0 then {} else Names(prefix, k - 1) + {prefix + DIGITS[k - 1]}
  }

  lemma NamesByOrder(prefix: string, n: nat)
    requires 1 <= n <= 3
    ensures Names(prefix, n) == {prefix + "1"} + (if n > 1 then {prefix + "2"} else {}) + (if n > 2 then {prefix + "3"} else {})
  {
    assert Names(prefix, 1) == {prefix + "1"} by { assert Names(prefix, 0) == {}; }
  }

  lemma {:induction false} UpdateNames(prefix: string, values: seq<real>, k: nat)
    requires k <= |values| <= 3
    ensures UpdateUpTo(prefix, values, k).Keys == Names(prefix, k)
  {
    if k > 0 { UpdateNames(prefix, values, k - 1); }
  }

  function UpdateUpTo(prefix: string, values: seq<real>, k: nat): map<string, real>
    requires k <= |values| <= 3
  {
    if k == 0 then map[] else UpdateUpTo(prefix, values, k - 1)[prefix + DIGITS[k - 1] := values[k - 1]]
  }

  function Read(update: map<string, real>, prefix: string, order: nat): (values: seq<real>)
    requires order <= 3
    ensures |values| == order
  {
    seq(order, i requires 0 <= i < order =>
      if prefix + DIGITS[i] in update then update[prefix + DIGITS[i]] else 0.0)
  }

  function LoadHistory(order: nat, saved: Saved): Result<History, Fault>
    requires order <= 3
  {
    match saved
    case FromUpdate(update) => Ok(History(Read(update, "x", order), Read(update, "y", order)))
    case FromHistory(h) => if |h.x| == |h.y| == order then Ok(h) else Err(BadHistory)
  }

  function Restore(law: Law, snapshot: Snapshot): Result<History, Fault>
    requires LawOk(law)
  {
    if snapshot.b != law.b || snapshot.a != law.a then Err(ForeignCoefficients)
    else LoadHistory(|law.a|, FromHistory(snapshot.history))
  }

  /** A saved state loads by the names of its entries; one that is missing counts as zero. */
  lemma UpdateLoads(order: nat, update: map<string, real>)
    requires 1 <= order <= 3
    ensures var loaded := LoadHistory(order, FromUpdate(update));
      && loaded.Ok? && |loaded.value.x| == |loaded.value.y| == order
      && loaded.value.x[0] == Entry(update, "x1") && loaded.value.y[0] == Entry(update, "y1")
      && (order > 1 ==> loaded.value.x[1] == Entry(update, "x2") && loaded.value.y[1] == Entry(update, "y2"))
      && (order > 2 ==> loaded.value.x[2] == Entry(update, "x3") && loaded.value.y[2] == Entry(update, "y3"))
  {
    assert "x" + "1" == "x1" && "x" + "2" == "x2" && "x" + "3" == "x3";
    assert "y" + "1" == "y1" && "y" + "2" == "y2" && "y" + "3" == "y3";
  }

  function Entry(update: map<string, real>, name: string): real {
    if name in update then update[name] else 0.0
  }

  function SnapshotOf(law: Law, h: History): Snapshot { Snapshot(law.b, law.a, h, law.limits) }

  /** A delay line survives both ways of saving it, at every order. */
  lemma SavedHistoryLoads(law: Law, h: History, output: real)
    requires LawOk(law) && Fits(law, h)
    ensures Restore(law, SnapshotOf(law, h)) == Ok(h)
    ensures LoadHistory(|law.a|, FromUpdate(StateUpdate(h, output))) == Ok(h)
  {
    var update := StateUpdate(h, output);
    UpdateKeys("x", h.x, |h.x|);
    UpdateKeys("y", h.y, |h.y|);
    forall i | 0 <= i < |law.a|
      ensures Read(update, "x", |law.a|)[i] == h.x[i] && Read(update, "y", |law.a|)[i] == h.y[i]
    {
      var x, y := "x" + DIGITS[i], "y" + DIGITS[i];
      assert x[0] == 'x' && y[0] == 'y' && |x| == |y| == 2;
      assert x !in UpdateUpTo("y", h.y, |h.y|);
    }
    assert Read(update, "x", |law.a|) == h.x && Read(update, "y", |law.a|) == h.y;
  }

  lemma {:induction false} UpdateKeys(prefix: string, values: seq<real>, k: nat)
    requires k <= |values| <= 3
    ensures forall i | 0 <= i < k ::
      prefix + DIGITS[i] in UpdateUpTo(prefix, values, k) && UpdateUpTo(prefix, values, k)[prefix + DIGITS[i]] == values[i]
    ensures forall key :: key in UpdateUpTo(prefix, values, k) ==> prefix <= key && |key| == |prefix| + 1
  {
    if k > 0 {
      UpdateKeys(prefix, values, k - 1);
      forall i | 0 <= i < k - 1 ensures prefix + DIGITS[i] != prefix + DIGITS[k - 1] {
        assert (prefix + DIGITS[i])[|prefix|] == DIGITS[i][0] != DIGITS[k - 1][0] == (prefix + DIGITS[k - 1])[|prefix|];
      }
    }
  }

  lemma {:induction false} RunSplits(law: Law, h: History, first: seq<real>, second: seq<real>)
    requires LawOk(law) && Fits(law, h)
    ensures var (mid, outputs) := Run(law, h, first);
      var (end, rest) := Run(law, mid, second);
      Run(law, h, first + second) == (end, outputs + rest)
  {
    if second == [] {
      assert first + second == first;
      assert Run(law, h, first).1 + [] == Run(law, h, first).1;
    } else {
      var n := |second| - 1;
      assert (first + second)[..|first + second| - 1] == first + second[..n];
      assert (first + second)[|first + second| - 1] == second[n];
      RunSplits(law, h, first, second[..n]);
      var (mid, outputs) := Run(law, h, first);
      var (before, rest) := Run(law, mid, second[..n]);
      var last := [Applied(law, before, second[n])];
      assert Run(law, mid, second) == (Shift(law, before, second[n]), rest + last);
      assert (outputs + rest) + last == outputs + (rest + last);
    }
  }

  /** Stopping after any run, saving, loading into the same controller and going on
      gives the outputs of the run that never stopped. */
  lemma CheckpointContinues(law: Law, h: History, first: seq<real>, second: seq<real>, output: real)
    requires LawOk(law) && Fits(law, h)
    ensures var (mid, outputs) := Run(law, h, first);
      var restored := Restore(law, SnapshotOf(law, mid));
      var reset := LoadHistory(|law.a|, FromUpdate(StateUpdate(mid, output)));
      && restored.Ok? && reset.Ok? && Fits(law, restored.value) && Fits(law, reset.value)
      && Run(law, h, first + second).1 == outputs + Run(law, restored.value, second).1
      && Run(law, h, first + second).1 == outputs + Run(law, reset.value, second).1
  {
    RunSplits(law, h, first, second);
    SavedHistoryLoads(law, Run(law, h, first).0, output);
  }

  /** `restore` compares coefficients but not limits: a snapshot of another law with the
      same coefficients is accepted. */
  lemma ForeignLimitsAccepted(own: Law, other: Law, h: History)
    requires LawOk(own) && LawOk(other) && Fits(other, h) && own.b == other.b && own.a == other.a
    ensures Restore(own, SnapshotOf(other, h)) == Ok(h)
  {}

  ghost predicate SameRuns(own: Law, other: Law, h: History)
    requires LawOk(own) && LawOk(other) && Fits(own, h) && Fits(other, h)
  {
    forall errors :: Run(own, h, errors).1 == Run(other, h, errors).1
  }

  /** Restored under other limits, such a snapshot continues its law on every input
      exactly when the limits are the same, unless the numerator is zero throughout. */
  lemma ForeignLimitsIff(own: Law, other: Law, h: History, k: nat)
    requires LawOk(own) && LawOk(other) && Fits(other, h) && own.b == other.b && own.a == other.a
    requires k < |own.b| && own.b[k] != 0.0 && forall i | 0 <= i < k :: own.b[i] == 0.0
    ensures SameRuns(own, other, h) <==> own.limits == other.limits
  {
    if own.limits == other.limits {
      assert own == other;
    } else {
      var errors := ApartFrom(own, other, h, k);
    }
  }

  /** With a zero numerator no input is felt: the two laws agree on every input exactly
      when they agree on none at all. */
  lemma ZeroNumeratorIff(own: Law, other: Law, h: History)
    requires LawOk(own) && LawOk(other) && Fits(other, h) && own.b == other.b && own.a == other.a
    requires forall i | 0 <= i < |own.b| :: own.b[i] == 0.0
    ensures SameRuns(own, other, h) <==> forall n: nat :: Run(own, h, Silence(n)).1 == Run(other, h, Silence(n)).1
  {
    if forall n: nat :: Run(own, h, Silence(n)).1 == Run(other, h, Silence(n)).1 {
      forall errors ensures Run(own, h, errors).1 == Run(other, h, errors).1 {
        InputUnfelt(own, h, errors);
        InputUnfelt(other, h, errors);
      }
    }
  }

  function Silence(n: nat): seq<real> { seq(n, _ => 0.0) }

  lemma {:induction false} InputUnfelt(law: Law, h: History, errors: seq<real>)
    requires LawOk(law) && Fits(law, h) && forall i | 0 <= i < |law.b| :: law.b[i] == 0.0
    ensures Run(law, h, errors).1 == Run(law, h, Silence(|errors|)).1
    ensures Run(law, h, errors).0.y == Run(law, h, Silence(|errors|)).0.y
  {
    if errors != [] {
      var n := |errors| - 1;
      InputUnfelt(law, h, errors[..n]);
      assert Silence(n + 1)[..n] == Silence(n);
      OutputsDecide(law, Run(law, h, errors[..n]).0, errors[n], Run(law, h, Silence(n)).0, 0.0, |law.a|);
    }
  }

  lemma {:induction false} OutputsDecide(law: Law, g: History, e: real, h: History, d: real, k: nat)
    requires LawOk(law) && Fits(law, g) && Fits(law, h) && g.y == h.y && k <= |law.a|
    requires forall i | 0 <= i < |law.b| :: law.b[i] == 0.0
    ensures RequestUpTo(law, g, e, k) == RequestUpTo(law, h, d, k)
  {
    if k == 0 {
      Nothing(e);
      Nothing(d);
    } else {
      OutputsDecide(law, g, e, h, d, k - 1);
      Nothing(g.x[k - 1]);
      Nothing(h.x[k - 1]);
    }
  }

  lemma Nothing(v: real)
    ensures 0.0 * v == 0.0
  {}

  // a request of any size can be provoked, if only through the delay line

  /** The history with `e` as its `p`-th error. */
  function Put(h: History, p: nat, e: real): History
    requires 1 <= p <= |h.x|
  {
    History(h.x[p - 1 := e], h.y)
  }

  lemma {:induction false} PutFelt(law: Law, h: History, p: nat, e: real, k: nat)
    requires LawOk(law) && Fits(law, h) && 1 <= p <= |law.a| && k <= |law.a|
    ensures RequestUpTo(law, Put(h, p, e), 0.0, k)
         == RequestUpTo(law, Put(h, p, 0.0), 0.0, k) + if p <= k then law.b[p] * e else 0.0
  {
    if k > 0 {
      PutFelt(law, h, p, e, k - 1);
      if k == p { Nothing(law.b[p]); }
    }
  }

  /** An error whose coefficient is zero moves on unfelt. */
  lemma PutUnfelt(law: Law, h: History, p: nat, e: real)
    requires LawOk(law) && Fits(law, h) && 1 <= p < |law.a| && law.b[p] == 0.0
    ensures Applied(law, Put(h, p, e), 0.0) == Applied(law, Put(h, p, 0.0), 0.0)
    ensures Shift(law, Put(h, p, e), 0.0) == Put(Shift(law, Put(h, p, 0.0), 0.0), p + 1, e)
  {
    PutFelt(law, h, p, e, |law.a|);
    Nothing(e);
  }

  lemma RunHead(law: Law, h: History, error: real, rest: seq<real>)
    requires LawOk(law) && Fits(law, h)
    ensures Run(law, h, [error] + rest).1 == [Applied(law, h, error)] + Run(law, Shift(law, h, error), rest).1
  {
    RunSplits(law, h, [error], rest);
    RunOne(law, h, error);
  }

  /** Two laws that differ in their limits tell apart some error placed in the delay
      line before the first coefficient that feels it. */
  lemma {:induction false} DriveFrom(own: Law, other: Law, h: History, p: nat, k: nat) returns (e: real, n: nat)
    requires LawOk(own) && LawOk(other) && Fits(own, h) && own.b == other.b && own.a == other.a
    requires own.limits != other.limits && 1 <= p <= k <= |own.a|
    requires own.b[k] != 0.0 && forall i | p <= i < k :: own.b[i] == 0.0
    ensures Run(own, Put(h, p, e), Silence(n)).1 != Run(other, Put(h, p, e), Silence(n)).1
    decreases k - p
  {
    hide RequestUpTo; hide Shift; hide Run; hide Applied;
    if p == k {
      e := DriveHere(own, other, h, p);
      n := 1;
      assert Silence(1) == [0.0];
      RunsDiffer(own, other, Put(h, p, e), 0.0);
    } else if Applied(own, Put(h, p, 0.0), 0.0) != Applied(other, Put(h, p, 0.0), 0.0) {
      e, n := 0.0, 1;
      assert Silence(1) == [0.0];
      RunsDiffer(own, other, Put(h, p, e), 0.0);
    } else {
      var m;
      ShiftSame(own, other, Put(h, p, 0.0), 0.0);
      e, m := DriveFrom(own, other, Shift(own, Put(h, p, 0.0), 0.0), p + 1, k);
      n := m + 1;
      DriveNext(own, other, h, p, e, m);
    }
  }

  lemma RunsDiffer(own: Law, other: Law, h: History, error: real)
    requires LawOk(own) && LawOk(other) && Fits(own, h) && Fits(other, h)
    requires Applied(own, h, error) != Applied(other, h, error)
    ensures Run(own, h, [error]).1 != Run(other, h, [error]).1
  {
    RunOne(own, h, error);
    RunOne(other, h, error);
    assert Run(own, h, [error]).1[0] != Run(other, h, [error]).1[0];
  }

  lemma DriveHere(own: Law, other: Law, h: History, p: nat) returns (e: real)
    requires LawOk(own) && LawOk(other) && Fits(own, h) && own.b == other.b && own.a == other.a
    requires own.limits != other.limits && 1 <= p <= |own.a| && own.b[p] != 0.0
    ensures Applied(own, Put(h, p, e), 0.0) != Applied(other, Put(h, p, e), 0.0)
  {
    hide RequestUpTo; hide Clamp;
    var v := ClampWitness(own.limits, other.limits);
    var rest := Request(own, Put(h, p, 0.0), 0.0);
    e := (v - rest) / own.b[p];
    Quotient(v - rest, own.b[p], e);
    PutFelt(own, h, p, e, |own.a|);
    RequestSame(own, other, Put(h, p, e), 0.0, |own.a|);
    assert Request(own, Put(h, p, e), 0.0) == v;
  }

  lemma DriveNext(own: Law, other: Law, h: History, p: nat, e: real, m: nat)
    requires LawOk(own) && LawOk(other) && Fits(own, h) && own.b == other.b && own.a == other.a
    requires 1 <= p < |own.a| && own.b[p] == 0.0
    requires Shift(own, Put(h, p, 0.0), 0.0) == Shift(other, Put(h, p, 0.0), 0.0)
    requires var next := Put(Shift(own, Put(h, p, 0.0), 0.0), p + 1, e);
      Run(own, next, Silence(m)).1 != Run(other, next, Silence(m)).1
    ensures Run(own, Put(h, p, e), Silence(m + 1)).1 != Run(other, Put(h, p, e), Silence(m + 1)).1
  {
    hide RequestUpTo; hide Shift; hide Run; hide Applied;
    PutUnfelt(own, h, p, e);
    PutUnfelt(other, h, p, e);
    assert Silence(m + 1) == [0.0] + Silence(m);
    RunHead(own, Put(h, p, e), 0.0, Silence(m));
    RunHead(other, Put(h, p, e), 0.0, Silence(m));
    TailsApart(Applied(own, Put(h, p, e), 0.0), Run(own, Shift(own, Put(h, p, e), 0.0), Silence(m)).1,
               Applied(other, Put(h, p, e), 0.0), Run(other, Shift(other, Put(h, p, e), 0.0), Silence(m)).1);
  }

  lemma ShiftSame(own: Law, other: Law, h: History, error: real)
    requires LawOk(own) && LawOk(other) && Fits(own, h) && own.b == other.b && own.a == other.a
    requires Applied(own, h, error) == Applied(other, h, error)
    ensures Shift(own, h, error) == Shift(other, h, error)
  {
    hide Applied;
  }

  lemma TailsApart(x: real, a: seq<real>, y: real, b: seq<real>)
    requires a != b
    ensures [x] + a != [y] + b
  {
    assert ([x] + a)[1..] == a && ([y] + b)[1..] == b;
  }

  lemma Quotient(x: real, c: real, q: real)
    requires c != 0.0 && q == x / c
    ensures c * q == x
  {}

  lemma ApartFrom(own: Law, other: Law, h: History, k: nat) returns (errors: seq<real>)
    requires LawOk(own) && LawOk(other) && Fits(own, h) && own.b == other.b && own.a == other.a
    requires own.limits != other.limits
    requires k < |own.b| && own.b[k] != 0.0 && forall i | 0 <= i < k :: own.b[i] == 0.0
    ensures Run(own, h, errors).1 != Run(other, h, errors).1
  {
    hide RequestUpTo; hide Shift; hide Run;
    if k == 0 {
      var v := ClampWitness(own.limits, other.limits);
      var error := DriveTo(own, h, v);
      errors := [error];
      RequestSame(own, other, h, error, |own.a|);
      RunsDiffer(own, other, h, error);
    } else if Applied(own, h, 0.0) != Applied(other, h, 0.0) {
      errors := [0.0];
      RunsDiffer(own, other, h, 0.0);
    } else {
      ShiftSame(own, other, h, 0.0);
      var e, n := DriveFrom(own, other, Shift(own, h, 0.0), 1, k);
      errors := [e] + Silence(n);
      FirstUnfelt(own, h, e);
      FirstUnfelt(other, h, e);
      RunHead(own, h, e, Silence(n));
      RunHead(other, h, e, Silence(n));
      TailsApart(Applied(own, h, e), Run(own, Shift(own, h, e), Silence(n)).1,
                 Applied(other, h, e), Run(other, Shift(other, h, e), Silence(n)).1);
    }
  }

  lemma FirstUnfelt(law: Law, h: History, e: real)
    requires LawOk(law) && Fits(law, h) && law.b[0] == 0.0
    ensures Applied(law, h, e) == Applied(law, h, 0.0)
    ensures Shift(law, h, e) == Put(Shift(law, h, 0.0), 1, e)
  {
    RequestIsAffine(law, h, e, |law.a|);
    Nothing(e);
  }

  lemma RunOne(law: Law, h: History, error: real)
    requires LawOk(law) && Fits(law, h)
    ensures Run(law, h, [error]) == (Shift(law, h, error), [Applied(law, h, error)])
  {
    hide RequestUpTo; hide Shift; hide Applied;
    assert [error][..0] == [];
    assert Run(law, h, []) == (h, []);
    assert [] + [Applied(law, h, error)] == [Applied(law, h, error)];
  }

  /** With a direct feed-through any request can be provoked. */
  lemma DriveTo(law: Law, h: History, v: real) returns (error: real)
    requires LawOk(law) && Fits(law, h) && law.b[0] != 0.0
    ensures Request(law, h, error) == v
  {
    var rest := Request(law, h, 0.0);
    error := (v - rest) / law.b[0];
    RequestIsAffine(law, h, error, |law.a|);
    assert error * law.b[0] == v - rest;
  }

  lemma {:induction false} RequestIsAffine(law: Law, h: History, error: real, k: nat)
    requires LawOk(law) && Fits(law, h) && k <= |law.a|
    ensures RequestUpTo(law, h, error, k) == law.b[0] * error + RequestUpTo(law, h, 0.0, k)
  {
    if k > 0 { RequestIsAffine(law, h, error, k - 1); }
  }

  lemma {:induction false} RequestSame(own: Law, other: Law, h: History, error: real, k: nat)
    requires LawOk(own) && LawOk(other) && Fits(own, h) && own.b == other.b && own.a == other.a && k <= |own.a|
    ensures RequestUpTo(own, h, error, k) == RequestUpTo(other, h, error, k)
  {
    if k > 0 {
      RequestSame(own, other, h, error, k - 1);
      assert Tap(own, h, k) == Tap(other, h, k);
    }
  }

  lemma ClampWitness(p: Limits, q: Limits) returns (v: real)
    requires p != q && (p.Some? ==> p.value.0 < p.value.1) && (q.Some? ==> q.value.0 < q.value.1)
    ensures Clamp(p, v) != Clamp(q, v)
  {
    if p.None? {
      v := q.value.0 - 1.0;
    } else if q.None? {
      v := p.value.0 - 1.0;
    } else if p.value.0 != q.value.0 {
      v := Min(p.value.0, q.value.0) - 1.0;
    } else {
      v := Max(p.value.1, q.value.1) + 1.0;
    }
  }

  // ---------------------------------------------------------------------- the object

  datatype Action = Action(value: real, time: real, update: map<string, real>)

  /** What the constructor accepts. */
  function MakeLaw(b: seq<real>, a: seq<real>, low: Option<real>, high: Option<real>): (r: Result<Law, Fault>)
    ensures r.Ok? ==> LawOk(r.value) && r.value.b == b && r.value.a == a
    ensures r.Ok? <==> 2 <= |b| <= 4 && |a| == |b| - 1 && low.Some? == high.Some? && (low.Some? ==> low.value < high.value)
    ensures r.Ok? ==> (low.None? ==> r.value.limits == None) && (low.Some? ==> r.value.limits == Some((low.value, high.value)))
    ensures r.Err? ==> r.error == if 2 <= |b| <= 4 && |a| == |b| - 1 then BadLimits else BadCoefficients
  {
    if !(2 <= |b| <= 4) || |a| != |b| - 1 then Err(BadCoefficients)
    else if low.Some? != high.Some? then Err(BadLimits)
    else if low.None? then Ok(Law(b, a, None))
    else if !(low.value < high.value) then Err(BadLimits)
    else Ok(Law(b, a, Some((low.value, high.value))))
  }

  class DiscreteCompensator {
    const law: Law
    const measurementKey: string
    var x: seq<real>
    var y: seq<real>

    constructor (law: Law, measurementKey: string)
      requires LawOk(law)
      ensures Valid() && this.law == law && this.measurementKey == measurementKey
      ensures State() == ZeroHistory(|law.a|)
    {
      this.law, this.measurementKey := law, measurementKey;
      x, y := seq(|law.a|, _ => 0.0), seq(|law.a|, _ => 0.0);
    }

    predicate Valid()
      reads this
    {
      LawOk(law) && Fits(law, State())
    }

    function State(): History
      reads this
    {
      History(x, y)
    }

    /** The difference equation and the saturation. */
    method Respond(error: real) returns (applied: real)
      requires Valid()
      ensures applied == Applied(law, State(), error)
    {
      var output := law.b[0] * error;
      for k := 1 to |law.b|
        invariant output == RequestUpTo(law, State(), error, k - 1)
      {
        output := output + law.b[k] * x[k - 1];
        output := output - law.a[k - 1] * y[k - 1];
      }
      applied := output;
      if law.limits.Some? {
        applied := Min(Max(output, law.limits.value.0), law.limits.value.1);
      }
    }

    /** One sample: the request is clamped, and the clamped value is what the delay
        line keeps.  A refused sample leaves the delay line alone. */
    method Observe(measurement: map<string, real>, command: map<string, real>, timing: map<string, real>)
      returns (r: Result<Action, Fault>)
      requires Valid()
      modifies this
      ensures Valid()
      ensures measurementKey !in measurement ==> r == Err(MissingMeasurement)
      ensures measurementKey in measurement && "sample_time_s" !in timing ==> r == Err(MissingTime)
      ensures r.Err? ==> State() == old(State())
      ensures measurementKey in measurement && "sample_time_s" in timing ==>
        var error := (if "vref" in command then command["vref"] else 1.0) - measurement[measurementKey];
        && r.Ok?
        && r.value.value == Applied(law, old(State()), error)
        && r.value.time == timing["sample_time_s"]
        && State() == Shift(law, old(State()), error)
        && r.value.update == StateUpdate(State(), r.value.value)
      ensures measurementKey in measurement && "sample_time_s" in timing ==>
        var error := (if "vref" in command then command["vref"] else 1.0) - measurement[measurementKey];
        && |old(x)| == |old(y)| == |law.a| && r.Ok?
        && Nearest(law.limits, Dot(law.b, [error] + old(x), |law.b|) - Dot(law.a, old(y), |law.a|), r.value.value)
        && x == [error] + old(x)[..|old(x)| - 1] && y == [r.value.value] + old(y)[..|old(y)| - 1]
        && Reported(r.value.update, State(), r.value.value)
    {
      if measurementKey !in measurement { return Err(MissingMeasurement); }
      var vref := if "vref" in command then command["vref"] else 1.0;
      if "sample_time_s" !in timing { return Err(MissingTime); }
      var error := vref - measurement[measurementKey];
      var applied := Respond(error);
      hide RequestUpTo; hide Clamp; hide Nearest; hide Dot; hide Reported; hide StateUpdate;
      AppliedIsNearest(law, State(), error);
      x := [error] + x[..|x| - 1];
      y := [applied] + y[..|y| - 1];
      UpdateReports(State(), applied);
      return Ok(Action(applied, timing["sample_time_s"], StateUpdate(State(), applied)));
    }

    method Reset(saved: Option<Saved>) returns (r: Result<map<string, real>, Fault>)
      requires Valid()
      modifies this
      ensures Valid()
      ensures var loaded := LoadHistory(|law.a|, saved.GetOr(FromUpdate(map[])));
        if loaded.Err? then r == Err(loaded.error) && State() == old(State())
        else State() == loaded.value && r == Ok(StateUpdate(State(), State().y[0]))
    {
      var loaded := LoadHistory(|law.a|, saved.GetOr(FromUpdate(map[])));
      if loaded.Err? { return Err(loaded.error); }
      x, y := loaded.value.x, loaded.value.y;
      return Ok(StateUpdate(State(), y[0]));
    }

    method TakeSnapshot() returns (snapshot: Snapshot)
      requires Valid()
      ensures snapshot == SnapshotOf(law, State())
    {
      return Snapshot(law.b, law.a, History(x, y), law.limits);
    }

    method RestoreFrom(snapshot: Option<Snapshot>) returns (r: Result<map<string, real>, Fault>)
      requires Valid()
      modifies this
      ensures Valid()
      ensures snapshot.None? ==> r == Err(NotASnapshot) && State() == old(State())
      ensures snapshot.Some? ==>
        if Restore(law, snapshot.value).Err? then r == Err(Restore(law, snapshot.value).error) && State() == old(State())
        else State() == Restore(law, snapshot.value).value && r == Ok(StateUpdate(State(), State().y[0]))
      ensures snapshot.Some? ==>
        var s := snapshot.value;
        if s.b == law.b && s.a == law.a && |s.history.x| == |s.history.y| == |law.a| then r.Ok? && State() == s.history
        else State() == old(State()) && r == Err(if s.b == law.b && s.a == law.a then BadHistory else ForeignCoefficients)
    {
      if snapshot.None? { return Err(NotASnapshot); }
      if snapshot.value.b != law.b || snapshot.value.a != law.a { return Err(ForeignCoefficients); }
      r := Reset(Some(FromHistory(snapshot.value.history)));
    }
  }
}
