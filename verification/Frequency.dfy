/** Phase unwrapping and log-spaced frequencies. */
module Frequency {
  import opened Wrappers
  import opened RealMod

  datatype Fault = NoValues

  // ---------------------------------------------------------------- phase unwrapping

  /** What the two correction loops make of a raw angle after `previous`: a congruent
      angle within half a turn, the raw one itself when that is already so. */
  ghost predicate NextAngle(previous: real, angle: real, result: real, pi: real)
    requires pi > 0.0
  {
    && Congruent(result, angle, 2.0 * pi)
    && Abs(result - previous) <= pi
    && (Abs(angle - previous) <= pi ==> result == angle)
    && (angle - previous > pi ==> result - previous > -pi)
    && (angle - previous < -pi ==> result - previous < pi)
  }

  ghost predicate UnwrappedFrom(raw: seq<real>, result: seq<real>, pi: real)
    requires pi > 0.0
  {
    && |result| == |raw| > 0 && result[0] == raw[0]
    && forall i | 0 < i < |raw| :: NextAngle(result[i - 1], raw[i], result[i], pi)
  }

  method UnwrapAngles(raw: seq<real>, pi: real) returns (r: Result<seq<real>, Fault>)
    requires pi > 0.0
    ensures r.Err? <==> raw == []
    ensures r.Ok? ==> UnwrappedFrom(raw, r.value, pi)
  {
    if raw == [] { return Err(NoValues); }
    var unwrapped := [raw[0]];
    for i := 1 to |raw|
      invariant UnwrappedFrom(raw[..i], unwrapped, pi)
    {
      var angle := CorrectAngle(unwrapped[i - 1], raw[i], pi);
      unwrapped := unwrapped + [angle];
    }
    assert raw[..|raw|] == raw;
    return Ok(unwrapped);
  }

  /** The two while loops; the number of whole turns left is the measure. */
  method CorrectAngle(previous: real, raw: real, pi: real) returns (angle: real)
    requires pi > 0.0
    ensures NextAngle(previous, raw, angle, pi)
  {
    var turn := 2.0 * pi;
    angle := raw;
    ghost var k := 0;
    WholeZero(turn);
    while angle - previous > pi
      invariant angle == raw + Whole(k, turn) && k <= 0
      invariant raw - previous <= pi ==> angle == raw
      invariant raw - previous > pi ==> angle - previous > -pi
      decreases Turns(angle - previous, turn)
    {
      TurnsBack(angle - previous, turn);
      angle := angle - turn;
      k := k - 1;
    }
    while angle - previous < -pi
      invariant angle == raw + Whole(k, turn)
      invariant raw - previous >= -pi ==> angle - previous >= -pi
      invariant Abs(raw - previous) <= pi ==> angle == raw
      invariant raw - previous > pi ==> angle - previous > -pi
      invariant raw - previous < -pi ==> angle - previous < pi
      invariant angle - previous <= pi
      decreases -Turns(angle - previous, turn)
    {
      TurnsForward(angle - previous, turn);
      angle := angle + turn;
      k := k + 1;
    }
  }

  lemma WholeZero(turn: real)
    ensures Whole(0, turn) == 0.0
  {}

  lemma TurnsBack(x: real, turn: real)
    requires turn > 0.0 && x > 0.0
    ensures 0 <= Turns(x, turn) && Turns(x - turn, turn) == Turns(x, turn) - 1
  {
    ModRange(x, turn);
    WholeApart(Turns(x, turn), 0, turn);
    WholeZero(turn);
    ModOneMore(x - turn, turn);
  }

  lemma TurnsForward(x: real, turn: real)
    requires turn > 0.0 && x < 0.0
    ensures Turns(x, turn) < 0 && Turns(x + turn, turn) == Turns(x, turn) + 1
  {
    ModRange(x, turn);
    WholeApart(Turns(x, turn), 0, turn);
    WholeZero(turn);
    ModOneMore(x, turn);
  }

  /** The correction is a function of the two angles. */
  lemma NextAngleUnique(previous: real, angle: real, p: real, q: real, pi: real)
    requires pi > 0.0 && NextAngle(previous, angle, p, pi) && NextAngle(previous, angle, q, pi)
    ensures p == q
  {
    SameWithinTurn(p, q, angle, pi);
  }

  /** Two angles congruent to a third and less than a turn apart are the same. */
  lemma SameWithinTurn(p: real, q: real, angle: real, pi: real)
    requires pi > 0.0 && Congruent(p, angle, 2.0 * pi) && Congruent(q, angle, 2.0 * pi)
    requires -2.0 * pi < p - q < 2.0 * pi
    ensures p == q
  {
    var i :| p == angle + Whole(i, 2.0 * pi);
    var j :| q == angle + Whole(j, 2.0 * pi);
    WholeApart(i, j, 2.0 * pi);
  }

  /** Unwrapping inverts wrapping: when the true phase moves by less than half a turn
      per sample, the unwrapped phase is the true one up to a single constant, which
      is a whole number of turns. */
  lemma UnwrapInvertsWrap(truth: seq<real>, raw: seq<real>, result: seq<real>, pi: real)
    requires pi > 0.0 && |truth| == |raw| && UnwrappedFrom(raw, result, pi)
    requires forall i | 0 <= i < |raw| :: Congruent(raw[i], truth[i], 2.0 * pi)
    requires forall i | 0 < i < |raw| :: Abs(truth[i] - truth[i - 1]) < pi
    ensures Congruent(result[0], truth[0], 2.0 * pi)
    ensures forall i | 0 <= i < |raw| :: result[i] - truth[i] == result[0] - truth[0]
  {
    for i := 1 to |raw|
      invariant forall j | 0 <= j < i :: result[j] - truth[j] == result[0] - truth[0]
    {
      assert NextAngle(result[i - 1], raw[i], result[i], pi);
      assert Congruent(raw[i], truth[i], 2.0 * pi);
      OffsetKept(truth[i], raw[i], result[i], result[0] - truth[0], truth[0], result[0], pi);
    }
  }

  lemma OffsetKept(truth: real, raw: real, result: real, offset: real, truth0: real, result0: real, pi: real)
    requires pi > 0.0 && offset == result0 - truth0
    requires Congruent(result0, truth0, 2.0 * pi) && Congruent(result, raw, 2.0 * pi) && Congruent(raw, truth, 2.0 * pi)
    requires -2.0 * pi < result - (truth + offset) < 2.0 * pi
    ensures result == truth + offset
  {
    var turn := 2.0 * pi;
    var i :| result == raw + Whole(i, turn);
    var j :| raw == truth + Whole(j, turn);
    var k :| result0 == truth0 + Whole(k, turn);
    WholeSum(i, j, turn);
    assert result == truth + Whole(i + j, turn);
    assert truth + offset == truth + Whole(k, turn);
    SameWithinTurn(result, truth + offset, truth, pi);
  }

  /** Conversely only phases with steps of at most half a turn can come back. */
  lemma UnwrapNeedsSmallSteps(truth: seq<real>, raw: seq<real>, result: seq<real>, pi: real)
    requires pi > 0.0 && |truth| == |raw| && UnwrappedFrom(raw, result, pi)
    requires forall i | 0 <= i < |raw| :: result[i] - truth[i] == result[0] - truth[0]
    ensures forall i | 0 < i < |raw| :: Abs(truth[i] - truth[i - 1]) <= pi
  {
    forall i | 0 < i < |raw| ensures Abs(truth[i] - truth[i - 1]) <= pi {
      assert NextAngle(result[i - 1], raw[i], result[i], pi);
      assert result[i] - truth[i] == result[i - 1] - truth[i - 1];
    }
  }

  /** A true step comes back when it is less than half a turn; exactly half a turn
      forward comes back only from a raw angle at least as far ahead of the one before,
      and half a turn backward only from one at least as far behind. */
  predicate ComesBack(step: real, ahead: real, pi: real) {
    Abs(step) < pi || (step == pi && ahead >= pi) || (step == -pi && ahead <= -pi)
  }

  lemma StepBackIff(truth: real, next: real, raw: real, previous: real, result: real, pi: real)
    requires pi > 0.0 && NextAngle(previous, raw, result, pi)
    requires Congruent(previous, truth, 2.0 * pi) && Congruent(raw, next, 2.0 * pi)
    ensures result - previous == next - truth <==> ComesBack(next - truth, raw - previous, pi)
  {
    var turn := 2.0 * pi;
    var i :| result == raw + Whole(i, turn);
    var j :| raw == next + Whole(j, turn);
    var k :| previous == truth + Whole(k, turn);
    WholeSum(i, j, turn);
    WholeApart(i + j, k, turn);
    WholeApart(i, 0, turn);
  }

  /** Main result: the unwrapped phase is the true one up to a single whole number of
      turns exactly when every step comes back. */
  lemma UnwrapInvertsIff(truth: seq<real>, raw: seq<real>, result: seq<real>, pi: real)
    requires pi > 0.0 && |truth| == |raw| && UnwrappedFrom(raw, result, pi)
    requires forall i | 0 <= i < |raw| :: Congruent(raw[i], truth[i], 2.0 * pi)
    ensures (forall i | 0 <= i < |raw| :: result[i] - truth[i] == result[0] - truth[0])
       <==> forall i | 0 < i < |raw| ::
              ComesBack(truth[i] - truth[i - 1], raw[i] - (truth[i - 1] + (result[0] - truth[0])), pi)
  {
    var offset := result[0] - truth[0];
    hide Congruent; hide ComesBack;
    if forall i | 0 <= i < |raw| :: result[i] - truth[i] == offset {
      forall i | 0 < i < |raw| ensures ComesBack(truth[i] - truth[i - 1], raw[i] - (truth[i - 1] + offset), pi) {
        StepsAgree(truth, raw, result, pi, i);
      }
    }
    if forall i | 0 < i < |raw| :: ComesBack(truth[i] - truth[i - 1], raw[i] - (truth[i - 1] + offset), pi) {
      for i := 1 to |raw|
        invariant forall j | 0 <= j < i :: result[j] - truth[j] == offset
      {
        StepsAgree(truth, raw, result, pi, i);
      }
    }
  }

  lemma StepsAgree(truth: seq<real>, raw: seq<real>, result: seq<real>, pi: real, i: nat)
    requires pi > 0.0 && |truth| == |raw| && UnwrappedFrom(raw, result, pi) && 0 < i < |raw|
    requires forall i | 0 <= i < |raw| :: Congruent(raw[i], truth[i], 2.0 * pi)
    requires result[i - 1] - truth[i - 1] == result[0] - truth[0]
    ensures result[i] - truth[i] == result[0] - truth[0]
       <==> ComesBack(truth[i] - truth[i - 1], raw[i] - (truth[i - 1] + (result[0] - truth[0])), pi)
  {
    assert NextAngle(result[i - 1], raw[i], result[i], pi);
    assert Congruent(raw[0], truth[0], 2.0 * pi);
    ShiftedCongruent(truth[0], result[0], truth[i - 1], result[i - 1], pi);
    StepBackIff(truth[i - 1], truth[i], raw[i], result[i - 1], result[i], pi);
  }

  lemma ShiftedCongruent(a: real, b: real, c: real, d: real, pi: real)
    requires pi > 0.0 && Congruent(b, a, 2.0 * pi) && d - c == b - a
    ensures Congruent(d, c, 2.0 * pi)
  {
    var k :| b == a + Whole(k, 2.0 * pi);
    assert d == c + Whole(k, 2.0 * pi);
  }

  /** Half a turn forward read as half a turn back. */
  lemma HalfTurnStepIsAmbiguous(pi: real, result: seq<real>)
    requires pi > 0.0 && UnwrappedFrom([0.0, -pi], result, pi)
    ensures Congruent(-pi, pi, 2.0 * pi)
    ensures result == [0.0, -pi]
  {
    assert NextAngle(result[0], [0.0, -pi][1], result[1], pi);
    assert Whole(-1, 2.0 * pi) == Whole(0, 2.0 * pi) - 2.0 * pi;
    assert -pi == pi + Whole(-1, 2.0 * pi);
  }

  // -------------------------------------------------------------- degrees and axes

  function Degrees(angle: real, pi: real): real
    requires pi > 0.0
  {
    angle / pi * 180.0
  }

  /** Unwrapped phases never move more than 180 degrees between samples. */
  lemma UnwrappedStepsInDegrees(raw: seq<real>, result: seq<real>, pi: real, i: nat)
    requires pi > 0.0 && UnwrappedFrom(raw, result, pi) && 0 < i < |raw|
    ensures Abs(Degrees(result[i], pi) - Degrees(result[i - 1], pi)) <= 180.0
    ensures Degrees(result[i], pi) * pi == 180.0 * result[i]
  {
    assert NextAngle(result[i - 1], raw[i], result[i], pi);
    hide UnwrappedFrom; hide NextAngle;
    var u, v := result[i] / pi, result[i - 1] / pi;
    Quotient(result[i], pi, u);
    Quotient(result[i - 1], pi, v);
    WithinOne(u - v, result[i] - result[i - 1], pi);
  }

  lemma Quotient(x: real, pi: real, q: real)
    requires pi > 0.0 && q == x / pi
    ensures q * pi == x
  {}

  lemma WithinOne(c: real, part: real, pi: real)
    requires pi > 0.0 && c * pi == part && Abs(part) <= pi
    ensures Abs(c) <= 1.0
  {
    Beyond(c, part, pi);
    assert -c * pi == -part;
    Beyond(-c, -part, pi);
  }

  lemma Beyond(c: real, part: real, pi: real)
    requires pi > 0.0 && c * pi == part
    ensures c > 1.0 ==> part > pi
  {
    if c > 1.0 {
      var rest := c - 1.0;
      assert rest * pi > 0.0;
      assert rest * pi == part - pi;
    }
  }

  /** A logarithm and its power: inverse on the positive axis, both increasing. */
  ghost predicate LogAndPower(log: real -> real, power: real -> real) {
    && (forall x | x > 0.0 :: power(log(x)) == x)
    && (forall y :: power(y) > 0.0 && log(power(y)) == y)
    && (forall x, y | 0.0 < x < y :: log(x) < log(y))
    && (forall x, y | x < y :: power(x) < power(y))
  }

  /** The `i`-th of `n` evenly spaced logarithms from `a` to `b`. */
  function LogPoint(a: real, b: real, n: nat, i: nat): real
    requires n >= 2
  {
    a + (b - a) / (n - 1) as real * i as real
  }

  lemma LogPoints(a: real, b: real, n: nat, i: nat)
    requires n >= 2 && a < b
    ensures LogPoint(a, b, n, 0) == a && LogPoint(a, b, n, n - 1) == b
    ensures LogPoint(a, b, n, i) < LogPoint(a, b, n, i + 1)
  {
    var step := (b - a) / (n - 1) as real;
    assert step * (n - 1) as real == b - a;
    assert step > 0.0;
    assert step * (i + 1) as real == step * i as real + step by { assert (i + 1) as real == i as real + 1.0; }
    assert step * 0.0 == 0.0;
  }

  /** The swept axis: the declared endpoints exactly, and even steps of the logarithm
      in between, so it is the strictly increasing positive axis the margin search
      demands. */
  method LogFrequencies(start: real, stop: real, points: nat, log: real -> real, power: real -> real)
    returns (frequencies: seq<real>)
    requires 0.0 < start < stop && points >= 2 && LogAndPower(log, power)
    ensures |frequencies| == points && frequencies[0] == start && frequencies[points - 1] == stop
    ensures forall i | 0 <= i < points :: frequencies[i] > 0.0
    ensures forall i | 0 <= i < points - 1 :: frequencies[i] < frequencies[i + 1]
    ensures forall i | 0 <= i < points :: log(frequencies[i]) == LogPoint(log(start), log(stop), points, i)
  {
    hide LogPoint;
    var a, b := log(start), log(stop);
    LogPoints(a, b, points, 0);
    if points == 2 { return [start, stop]; }
    var result := new real[points](i requires i >= 0 => power(LogPoint(a, b, points, i)));
    result[0] := start;
    result[points - 1] := stop;
    forall i | 0 <= i < points ensures result[i] == power(LogPoint(a, b, points, i)) {}
    forall i | 0 <= i < points - 1 ensures result[i] < result[i + 1] {
      LogPoints(a, b, points, i);
    }
    return result[..];
  }
}
