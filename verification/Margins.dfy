/** Crossover search over sampled responses and the margins read off there. */
module Margins {
  import opened Wrappers
  import opened RealMod
  import Frequency

  datatype Crossing = Crossing(hz: real, fraction: real, index: nat)

  // -------------------------------------------------------------- searching samples

  predicate SignChange(low: real, high: real, target: real) {
    (low - target) * (high - target) < 0.0
  }

  /** Sample `i` is on the target, or the target lies strictly between it and the next. */
  predicate CrossesAt(values: seq<real>, target: real, i: nat)
    requires i < |values|
  {
    values[i] == target || (i + 1 < |values| && SignChange(values[i], values[i + 1], target))
  }

  function Interpolate(values: seq<real>, index: nat, fraction: real): real
    requires values != []
  {
    if index >= |values| - 1 then values[|values| - 1]
    else values[index] + fraction * (values[index + 1] - values[index])
  }

  function LogInterpolate(low: real, high: real, fraction: real, log: real -> real, power: real -> real): real {
    power(log(low) + fraction * (log(high) - log(low)))
  }

  /** The frequency reported for a crossing at sample `i`. */
  function CrossingHz(frequencies: seq<real>, values: seq<real>, target: real, i: nat, log: real -> real, power: real -> real): real
    requires |frequencies| == |values| && i < |values| && CrossesAt(values, target, i)
  {
    if values[i] == target then frequencies[i]
    else LogInterpolate(frequencies[i], frequencies[i + 1], FractionAt(values, target, i), log, power)
  }

  /** How far into step `i` the target is met. */
  function FractionAt(values: seq<real>, target: real, i: nat): real
    requires i < |values| && CrossesAt(values, target, i)
  {
    if values[i] == target then 0.0 else (target - values[i]) / (values[i + 1] - values[i])
  }

  lemma SignChangeMeans(low: real, high: real, target: real)
    ensures SignChange(low, high, target) <==> (low < target < high || high < target < low)
  {
    var p, q := low - target, high - target;
    if p > 0.0 && q < 0.0 { assert p * q < 0.0; }
    if p < 0.0 && q > 0.0 { assert p * q < 0.0; }
    if p >= 0.0 && q >= 0.0 { assert p * q >= 0.0; }
    if p <= 0.0 && q <= 0.0 { assert p * q >= 0.0; }
  }

  method FirstCrossing(frequencies: seq<real>, values: seq<real>, target: real, log: real -> real, power: real -> real)
    returns (r: Option<Crossing>)
    requires |frequencies| == |values| > 0
    ensures r.None? <==> forall i | 0 <= i < |values| :: !CrossesAt(values, target, i)
    ensures r.Some? ==>
      var c := r.value;
      && c.index < |values| && CrossesAt(values, target, c.index)
      && (forall i | 0 <= i < c.index :: !CrossesAt(values, target, i))
      && c.fraction == FractionAt(values, target, c.index)
      && c.hz == CrossingHz(frequencies, values, target, c.index, log, power)
  {
    for index := 0 to |values| - 1
      invariant forall i | 0 <= i < index :: !CrossesAt(values, target, i)
    {
      var low, high := values[index], values[index + 1];
      assert low == target || SignChange(low, high, target) ==> CrossesAt(values, target, index);
      if low == target { return Some(Crossing(frequencies[index], 0.0, index)); }
      if SignChange(low, high, target) {
        SignChangeMeans(low, high, target);
        var fraction := (target - low) / (high - low);
        return Some(Crossing(LogInterpolate(frequencies[index], frequencies[index + 1], fraction, log, power), fraction, index));
      }
    }
    var last := |values| - 1;
    assert values[last] == target ==> CrossesAt(values, target, last);
    if values[last] == target { return Some(Crossing(frequencies[last], 0.0, last)); }
    return None;
  }

  /** Crossings among the first `k` samples. */
  function Count(values: seq<real>, target: real, k: nat): nat
    requires k <= |values|
  {
    if k == 0 then 0 else Count(values, target, k - 1) + if CrossesAt(values, target, k - 1) then 1 else 0
  }

  method CountCrossings(values: seq<real>, target: real) returns (count: nat)
    requires values != []
    ensures count == Count(values, target, |values|)
  {
    count := 0;
    for index := 0 to |values| - 1
      invariant count == Count(values, target, index)
    {
      var low, high := values[index], values[index + 1];
      if low == target {
        count := count + 1;
      } else if SignChange(low, high, target) {
        count := count + 1;
      }
    }
    if values[|values| - 1] == target { count := count + 1; }
  }

  // ------------------------------------------------------------ what the search means

  ghost predicate StrictlyOneSide(values: seq<real>, target: real) {
    (forall i | 0 <= i < |values| :: values[i] > target) || (forall i | 0 <= i < |values| :: values[i] < target)
  }

  /** Nothing is found, nothing is counted, and all samples lie strictly on one side
      are the same thing. */
  lemma NoCrossingIffOneSide(values: seq<real>, target: real)
    requires values != []
    ensures (forall i | 0 <= i < |values| :: !CrossesAt(values, target, i)) <==> StrictlyOneSide(values, target)
    ensures Count(values, target, |values|) == 0 <==> StrictlyOneSide(values, target)
  {
    CountZero(values, target, |values|);
    if forall i | 0 <= i < |values| :: !CrossesAt(values, target, i) {
      SideKept(values, target, |values| - 1);
    }
    if StrictlyOneSide(values, target) {
      forall i | 0 <= i < |values| ensures !CrossesAt(values, target, i) {
        if i + 1 < |values| { SignChangeMeans(values[i], values[i + 1], target); }
      }
    }
  }

  lemma {:induction false} CountZero(values: seq<real>, target: real, k: nat)
    requires k <= |values|
    ensures Count(values, target, k) == 0 <==> forall i | 0 <= i < k :: !CrossesAt(values, target, i)
  {
    if k > 0 { CountZero(values, target, k - 1); }
  }

  function Crossings(values: seq<real>, target: real, k: nat): set<nat>
    requires k <= |values|
  {
    set i: nat | i < k && CrossesAt(values, target, i)
  }

  /** The count is the number of places where the response meets the target. */
  lemma {:induction false} CountIsSize(values: seq<real>, target: real, k: nat)
    requires k <= |values|
    ensures Count(values, target, k) == |Crossings(values, target, k)|
  {
    if k == 0 {
      assert Crossings(values, target, 0) == {};
    } else {
      CountIsSize(values, target, k - 1);
      var before := Crossings(values, target, k - 1);
      assert Crossings(values, target, k) == if CrossesAt(values, target, k - 1) then before + {k - 1} else before;
    }
  }

  lemma {:induction false} SideKept(values: seq<real>, target: real, k: nat)
    requires k < |values| && forall i | 0 <= i < |values| :: !CrossesAt(values, target, i)
    ensures forall i | 0 <= i <= k :: values[i] != target && (values[i] > target <==> values[0] > target)
  {
    assert !CrossesAt(values, target, k);
    if k > 0 {
      SideKept(values, target, k - 1);
      assert !CrossesAt(values, target, k - 1);
      SignChangeMeans(values[k - 1], values[k], target);
    }
  }

  /** With no sample on the target, an odd count is a change of side end to end. */
  lemma {:induction false} CountParity(values: seq<real>, target: real, k: nat)
    requires k < |values| && forall i | 0 <= i < |values| :: values[i] != target
    ensures Count(values, target, k) % 2 == 1 <==> (values[0] > target) != (values[k] > target)
  {
    if k > 0 {
      CountParity(values, target, k - 1);
      SignChangeMeans(values[k - 1], values[k], target);
    }
  }

  lemma OddIffEndsOpposite(values: seq<real>, target: real)
    requires values != [] && forall i | 0 <= i < |values| :: values[i] != target
    ensures Count(values, target, |values|) % 2 == 1 <==> (values[0] > target) != (values[|values| - 1] > target)
  {
    CountParity(values, target, |values| - 1);
  }

  /** Interpolating at a reported crossing gives the target exactly. */
  lemma CrossingHitsTarget(values: seq<real>, target: real, i: nat)
    requires i < |values| && CrossesAt(values, target, i)
    ensures Interpolate(values, i, FractionAt(values, target, i)) == target
    ensures 0.0 <= FractionAt(values, target, i) < 1.0
    ensures values[i] != target ==> FractionAt(values, target, i) > 0.0
  {
    if values[i] != target {
      SignChangeMeans(values[i], values[i + 1], target);
      Between(values[i], values[i + 1], target, FractionAt(values, target, i));
    } else if i + 1 < |values| {
      assert 0.0 * (values[i + 1] - values[i]) == 0.0;
    }
  }

  lemma Between(low: real, high: real, target: real, fraction: real)
    requires low < target < high || high < target < low
    requires fraction == (target - low) / (high - low)
    ensures low + fraction * (high - low) == target
    ensures 0.0 < fraction < 1.0
  {
    var span := high - low;
    assert fraction * span == target - low;
    if span > 0.0 {
      FractionInside(fraction, target - low, span);
    } else {
      assert fraction * -span == low - target;
      FractionInside(fraction, low - target, -span);
    }
  }

  lemma FractionInside(fraction: real, part: real, span: real)
    requires 0.0 < part < span && part == fraction * span
    ensures 0.0 < fraction < 1.0
  {
    OutOfStep(fraction, span, part);
  }

  lemma OutOfStep(fraction: real, span: real, part: real)
    requires span > 0.0 && part == fraction * span
    ensures fraction <= 0.0 ==> part <= 0.0
    ensures fraction >= 1.0 ==> part >= span
  {
    if fraction <= 0.0 { assert (-fraction) * span >= 0.0; }
    if fraction >= 1.0 { assert (fraction - 1.0) * span >= 0.0; }
  }

  // --------------------------------------------------------------------- the angles

  const TURN := 360.0

  /** The code's `(phase + 360) % 360 - 180`. */
  function PhaseOffset(phase: real): real {
    Mod(phase + TURN, TURN) - 180.0
  }

  /** C's `fmod`: the remainder keeps the sign of the dividend. */
  function Fmod(x: real): real {
    if x >= 0.0 then Mod(x, TURN) else -Mod(-x, TURN)
  }

  function NormalizePhase(value: real): real {
    var normalized := Fmod(value);
    if normalized <= -180.0 then normalized + TURN
    else if normalized > 180.0 then normalized - TURN
    else normalized
  }

  /** The offset is the phase seen from 180 degrees; its range is `[-180, 180)`. */
  lemma PhaseOffsetMeans(phase: real)
    ensures -180.0 <= PhaseOffset(phase) < 180.0
    ensures phase == 180.0 + PhaseOffset(phase) + Whole(Turns(phase, TURN), TURN)
    ensures PhaseOffset(phase) == 0.0 <==> Congruent(phase, 180.0, TURN)
  {
    ModRange(phase, TURN);
    ModOneMore(phase, TURN);
    CongruentIffModEqual(phase, 180.0, TURN);
    ModSmall(180.0, TURN);
  }

  /** The range announced for the offset, `(-180, 180]`, is not the one computed: the
      two disagree on every whole turn and nowhere else. */
  lemma AnnouncedOffsetRangeIff(phase: real)
    ensures -180.0 < PhaseOffset(phase) <= 180.0 <==> !Congruent(phase, 0.0, TURN)
  {
    PhaseOffsetMeans(phase);
    CongruentIffModEqual(phase, 0.0, TURN);
    ModSmall(0.0, TURN);
    ModOneMore(phase, TURN);
  }

  lemma NormalizePhaseMeans(value: real)
    ensures -180.0 < NormalizePhase(value) <= 180.0
    ensures Congruent(NormalizePhase(value), value, TURN)
  {
    ModRange(value, TURN);
    ModRange(-value, TURN);
    if value >= 0.0 {
      var k := -Turns(value, TURN);
      WholeSum(Turns(value, TURN), k, TURN);
      assert Fmod(value) == value + Whole(k, TURN) by { assert Whole(0, TURN) == 0.0; }
      WithinHalfTurn(value, k);
    } else {
      WithinHalfTurn(value, Turns(-value, TURN));
    }
  }

  lemma WithinHalfTurn(value: real, k: int)
    requires Fmod(value) == value + Whole(k, TURN) && -TURN < Fmod(value) < TURN
    ensures -180.0 < NormalizePhase(value) <= 180.0
    ensures Congruent(NormalizePhase(value), value, TURN)
  {
    WholeSum(k, 1, TURN);
    WholeSum(k, -1, TURN);
    assert Whole(1, TURN) == Whole(0, TURN) + TURN && Whole(-1, TURN) == Whole(0, TURN) - TURN;
    assert NormalizePhase(value) == value + Whole(k, TURN)
        || NormalizePhase(value) == value + Whole(k + 1, TURN)
        || NormalizePhase(value) == value + Whole(k + -1, TURN);
  }

  function Offsets(phases: seq<real>): seq<real> {
    seq(|phases|, i requires 0 <= i < |phases| => PhaseOffset(phases[i]))
  }

  lemma OffsetsAt(phases: seq<real>, i: nat)
    requires i < |phases|
    ensures Offsets(phases)[i] == PhaseOffset(phases[i])
  {}

  predicate IsWhole(x: real) { x.Floor as real == x }

  /** How many sheets between multiples of 360 step `i` climbs. */
  function SheetsUp(phases: seq<real>, i: nat): int
    requires i + 1 < |phases|
  {
    Turns(phases[i + 1], TURN) - Turns(phases[i], TURN)
  }

  /** The part of that climb done at a fraction of the step. */
  function Climbed(fraction: real, sheets: int): real { fraction * sheets as real }

  /** A reported phase crossover is genuine, that is its interpolated phase really is
      180 degrees modulo a turn, exactly when the sample is on it or the sheets climbed
      up to the crossover are a whole number.  The offsets also change sign where the
      phase passes a multiple of 360, and such a crossing is not genuine. */
  lemma PhaseCrossoverGenuineIff(phases: seq<real>, i: nat)
    requires i < |phases| && CrossesAt(Offsets(phases), 0.0, i)
    ensures var fraction := FractionAt(Offsets(phases), 0.0, i);
      Congruent(Interpolate(phases, i, fraction), 180.0, TURN) <==>
      (Offsets(phases)[i] == 0.0 || IsWhole(Climbed(fraction, SheetsUp(phases, i))))
  {
    OffsetsAt(phases, i);
    if Offsets(phases)[i] == 0.0 {
      CrossoverOnSample(phases, i);
    } else {
      OffsetsAt(phases, i + 1);
      CrossingHitsTarget(Offsets(phases), 0.0, i);
      hide PhaseOffset, Turns, Congruent, IsWhole, Interpolate, Climbed;
      CrossoverBetween(phases, Offsets(phases), i, FractionAt(Offsets(phases), 0.0, i));
    }
  }

  /** When no two neighbouring samples straddle a multiple of 360 every reported
      crossover is genuine, however far the phase moves in a step. */
  lemma SameSheetCrossoverGenuine(phases: seq<real>, i: nat)
    requires i < |phases| && CrossesAt(Offsets(phases), 0.0, i)
    requires i + 1 < |phases| ==> SheetsUp(phases, i) == 0
    ensures Congruent(Interpolate(phases, i, FractionAt(Offsets(phases), 0.0, i)), 180.0, TURN)
  {
    PhaseCrossoverGenuineIff(phases, i);
    if Offsets(phases)[i] != 0.0 {
      assert Climbed(FractionAt(Offsets(phases), 0.0, i), 0) == 0.0;
    }
  }

  /** On an unwrapped phase, whose steps are at most half a turn, that is the only way. */
  lemma UnwrappedCrossoverGenuineIff(phases: seq<real>, i: nat)
    requires i < |phases| && CrossesAt(Offsets(phases), 0.0, i)
    requires i + 1 < |phases| ==> Abs(phases[i + 1] - phases[i]) <= 180.0
    ensures Congruent(Interpolate(phases, i, FractionAt(Offsets(phases), 0.0, i)), 180.0, TURN)
       <==> Offsets(phases)[i] == 0.0 || SheetsUp(phases, i) == 0
  {
    PhaseCrossoverGenuineIff(phases, i);
    if Offsets(phases)[i] != 0.0 {
      CrossingHitsTarget(Offsets(phases), 0.0, i);
      PhaseOffsetMeans(phases[i]);
      PhaseOffsetMeans(phases[i + 1]);
      SheetStep(Turns(phases[i], TURN), Turns(phases[i + 1], TURN),
                Whole(Turns(phases[i + 1], TURN), TURN) - Whole(Turns(phases[i], TURN), TURN));
      PartOfOne(FractionAt(Offsets(phases), 0.0, i), SheetsUp(phases, i));
    }
  }

  lemma PartOfOne(fraction: real, sheets: int)
    requires 0.0 < fraction < 1.0 && -1 <= sheets <= 1
    ensures IsWhole(Climbed(fraction, sheets)) <==> sheets == 0
  {
    if sheets == 0 {
      assert fraction * 0.0 == 0.0;
    } else if sheets == 1 {
      assert fraction * 1.0 == fraction;
    } else {
      assert fraction * -1.0 == -fraction;
    }
  }

  lemma CrossoverOnSample(phases: seq<real>, i: nat)
    requires i < |phases| && Offsets(phases)[i] == 0.0
    ensures Congruent(Interpolate(phases, i, FractionAt(Offsets(phases), 0.0, i)), 180.0, TURN)
  {
    hide Mod, Turns, Congruent;
    OffsetsAt(phases, i);
    PhaseOffsetMeans(phases[i]);
    if i + 1 < |phases| { Spread(0.0, phases[i + 1] - phases[i], 0.0, phases[i + 1] - phases[i]); }
  }

  lemma CrossoverBetween(phases: seq<real>, offsets: seq<real>, i: nat, fraction: real)
    requires i + 1 < |phases| == |offsets|
    requires offsets[i] == PhaseOffset(phases[i]) && offsets[i + 1] == PhaseOffset(phases[i + 1])
    requires Interpolate(offsets, i, fraction) == 0.0
    ensures Congruent(Interpolate(phases, i, fraction), 180.0, TURN) <==> IsWhole(Climbed(fraction, SheetsUp(phases, i)))
  {
    hide PhaseOffset, Turns, Mod, Congruent, IsWhole, Climbed;
    var low, high := phases[i], phases[i + 1];
    InterpolatedPhase(low, high, fraction);
    assert Interpolate(phases, i, fraction) == low + fraction * (high - low);
  }

  lemma InterpolatedPhase(low: real, high: real, fraction: real)
    requires PhaseOffset(low) + fraction * (PhaseOffset(high) - PhaseOffset(low)) == 0.0
    ensures Congruent(low + fraction * (high - low), 180.0, TURN)
       <==> IsWhole(Climbed(fraction, Turns(high, TURN) - Turns(low, TURN)))
  {
    PhaseOffsetMeans(low);
    PhaseOffsetMeans(high);
    hide PhaseOffset, Mod, Turns, Whole, Congruent, IsWhole, Climbed;
    var p, q := PhaseOffset(low), PhaseOffset(high);
    var i, j := Turns(low, TURN), Turns(high, TURN);
    var climb := Whole(j, TURN) - Whole(i, TURN);
    Spread(fraction, q - p, climb, high - low);
    WholeSum(i, j - i, TURN);
    assert i + (j - i) == j;
    WholeIsProduct(j - i, TURN);
    var sheets := Climbed(fraction, j - i);
    Regroup(fraction, j - i, climb);
    var phase := low + fraction * (high - low);
    assert phase == 180.0 + Whole(i, TURN) + sheets * TURN;
    SheetsAway(phase, i, sheets);
  }

  lemma Regroup(fraction: real, sheets: int, climb: real)
    requires climb == sheets as real * TURN
    ensures fraction * climb == Climbed(fraction, sheets) * TURN
  {}

  /** A phase some sheets up from 180 degrees is 180 degrees again when they are whole. */
  lemma SheetsAway(phase: real, i: int, sheets: real)
    requires phase == 180.0 + Whole(i, TURN) + sheets * TURN
    ensures Congruent(phase, 180.0, TURN) <==> IsWhole(sheets)
  {
    if IsWhole(sheets) {
      var n := sheets.Floor;
      WholeIsProduct(n, TURN);
      WholeSum(i, n, TURN);
      assert phase == 180.0 + Whole(i + n, TURN);
    }
    if Congruent(phase, 180.0, TURN) {
      var k :| phase == 180.0 + Whole(k, TURN);
      WholeIsProduct(k, TURN);
      WholeIsProduct(i, TURN);
      assert sheets == (k - i) as real;
    }
  }

  lemma Spread(fraction: real, a: real, b: real, sum: real)
    requires sum == a + b
    ensures fraction * sum == fraction * a + fraction * b
    ensures b == 0.0 ==> fraction * b == 0.0
    ensures fraction == 0.0 ==> fraction * sum == 0.0
  {}

  /** Neighbouring samples are on the same sheet or on adjacent ones. */
  lemma SheetStep(i: int, j: int, step: real)
    requires step == Whole(j, TURN) - Whole(i, TURN) && -540.0 < step < 540.0
    ensures -1 <= j - i <= 1
  {
    hide Whole;
    OneTurn();
    WholeSum(i, 1, TURN);
    WholeSum(i, -1, TURN);
    WholeApart(j, i + 1, TURN);
    WholeApart(j, i - 1, TURN);
  }

  lemma OneTurn()
    ensures Whole(1, TURN) == TURN && Whole(-1, TURN) == -TURN
  {
    assert Whole(0, TURN) == 0.0;
  }

  // -------------------------------------------------------------------- the margins

  datatype Note =
    | CoarseSweep
    | NoGainCrossover
    | SeveralGainCrossovers
    | FlatAtMinus180
    | NoPhaseCrossover
    | SeveralPhaseCrossovers

  datatype Fault = TooFewSamples | LengthsDiffer | NotIncreasing

  datatype Report = Report(gainHz: Option<real>, phaseMargin: Option<real>, phaseHz: Option<real>, gainMargin: Option<real>,
                           positive: Option<bool>, notes: seq<Note>)

  const COARSE_POINTS := 32
  const FLAT := 0.000000001

  ghost predicate SweepOk(frequencies: seq<real>, magnitude: seq<real>, phases: seq<real>) {
    && |frequencies| >= 2 && |magnitude| == |phases| == |frequencies|
    && frequencies[0] > 0.0 && forall i | 0 <= i < |frequencies| - 1 :: frequencies[i] < frequencies[i + 1]
  }

  ghost predicate FirstAt(values: seq<real>, target: real, i: nat) {
    i < |values| && CrossesAt(values, target, i) && forall j | 0 <= j < i :: !CrossesAt(values, target, j)
  }

  ghost predicate AllFlat(phases: seq<real>) {
    forall i | 0 <= i < |phases| :: Abs(Offsets(phases)[i]) <= 0.000000001
  }

  /** `other` read off, by linear interpolation, where `values` first meets `target`. */
  ghost predicate ReadAtFirst(values: seq<real>, target: real, other: seq<real>, reading: real) {
    |other| == |values|
    && exists i: nat :: FirstAt(values, target, i) && reading == Interpolate(other, i, FractionAt(values, target, i))
  }

  /** `hz` is the frequency at which `values` first meets `target`. */
  ghost predicate HzAtFirst(frequencies: seq<real>, values: seq<real>, target: real,
                            log: real -> real, power: real -> real, hz: real) {
    |frequencies| == |values|
    && exists i: nat :: FirstAt(values, target, i) && hz == CrossingHz(frequencies, values, target, i, log, power)
  }

  /** The first meeting of `values` with `target` and what `other` is there. */
  method Search(frequencies: seq<real>, values: seq<real>, target: real, other: seq<real>,
                log: real -> real, power: real -> real) returns (hz: Option<real>, reading: real, several: bool)
    requires |frequencies| == |values| == |other| > 0
    ensures hz.None? <==> StrictlyOneSide(values, target)
    ensures hz.Some? ==> ReadAtFirst(values, target, other, reading)
    ensures hz.Some? ==> HzAtFirst(frequencies, values, target, log, power, hz.value)
    ensures several <==> Count(values, target, |values|) > 1
  {
    NoCrossingIffOneSide(values, target);
    var crossing := FirstCrossing(frequencies, values, target, log, power);
    var count := CountCrossings(values, target);
    if crossing.None? { return None, 0.0, count > 1; }
    var c := crossing.value;
    assert FirstAt(values, target, c.index);
    return Some(c.hz), Interpolate(other, c.index, c.fraction), count > 1;
  }

  method StabilityMargins(frequencies: seq<real>, magnitude: seq<real>, phases: seq<real>,
                          log: real -> real, power: real -> real) returns (r: Result<Report, Fault>)
    ensures r.Ok? <==> SweepOk(frequencies, magnitude, phases)
    ensures r.Err? ==> r.error == (if |frequencies| < 2 then TooFewSamples
      else if |magnitude| != |frequencies| || |phases| != |frequencies| then LengthsDiffer else NotIncreasing)
    ensures r.Ok? ==> GainSide(r.value, magnitude, phases) && PhaseSide(r.value, magnitude, phases)
    ensures r.Ok? && r.value.gainHz.Some? ==> HzAtFirst(frequencies, magnitude, 0.0, log, power, r.value.gainHz.value)
    ensures r.Ok? && r.value.phaseHz.Some? ==> HzAtFirst(frequencies, Offsets(phases), 0.0, log, power, r.value.phaseHz.value)
    ensures r.Ok? && Frequency.LogAndPower(log, power) ==> CrossoversOnLines(r.value, frequencies, magnitude, phases, log)
    ensures r.Ok? ==> (r.value.positive.None? <==> r.value.phaseMargin.None? || r.value.gainMargin.None?)
    ensures r.Ok? && r.value.positive.Some? ==>
      (r.value.positive.value <==> r.value.phaseMargin.value > 0.0 && r.value.gainMargin.value > 0.0)
    ensures r.Ok? ==> (CoarseSweep in r.value.notes <==> |frequencies| < 32)
  {
    if |frequencies| < 2 { return Err(TooFewSamples); }
    if |magnitude| != |frequencies| || |phases| != |frequencies| { return Err(LengthsDiffer); }
    if frequencies[0] <= 0.0 { return Err(NotIncreasing); }
    for i := 0 to |frequencies| - 1
      invariant forall j | 0 <= j < i :: frequencies[j] < frequencies[j + 1]
    {
      if !(frequencies[i + 1] > frequencies[i]) { return Err(NotIncreasing); }
    }
    var coarse: seq<Note> := if |frequencies| < COARSE_POINTS then [CoarseSweep] else [];
    var gainHz, phaseMargin, gainNotes := ReadGain(frequencies, magnitude, phases, log, power);
    var phaseHz, gainMargin, phaseNotes := ReadPhase(frequencies, magnitude, phases, log, power);
    var report := Report(gainHz, phaseMargin, phaseHz, gainMargin, Sign(phaseMargin, gainMargin),
                         coarse + gainNotes + phaseNotes);
    NotesJoined(report, coarse, gainNotes, phaseNotes, magnitude, phases);
    if Frequency.LogAndPower(log, power) { CrossoversLie(report, frequencies, magnitude, phases, log, power); }
    return Ok(report);
  }

  lemma NotesJoined(report: Report, coarse: seq<Note>, gainNotes: seq<Note>, phaseNotes: seq<Note>,
                    magnitude: seq<real>, phases: seq<real>)
    requires report.notes == coarse + gainNotes + phaseNotes
    requires forall n | n in coarse :: n.CoarseSweep?
    requires forall n | n in gainNotes :: n.NoGainCrossover? || n.SeveralGainCrossovers?
    requires forall n | n in phaseNotes :: n.FlatAtMinus180? || n.NoPhaseCrossover? || n.SeveralPhaseCrossovers?
    requires GainSide(report.(notes := gainNotes), magnitude, phases)
    requires PhaseSide(report.(notes := phaseNotes), magnitude, phases)
    ensures GainSide(report, magnitude, phases) && PhaseSide(report, magnitude, phases)
    ensures CoarseSweep in report.notes <==> CoarseSweep in coarse
  {
    hide AllFlat; hide StrictlyOneSide; hide Count; hide ReadAtFirst; hide Offsets; hide NormalizePhase;
    assert forall n :: n in report.notes <==> n in coarse || n in gainNotes || n in phaseNotes;
  }

  /** Three states: unknown when either margin is missing. */
  function Sign(phaseMargin: Option<real>, gainMargin: Option<real>): Option<bool> {
    if phaseMargin.None? || gainMargin.None? then None
    else Some(phaseMargin.value > 0.0 && gainMargin.value > 0.0)
  }

  method ReadGain(frequencies: seq<real>, magnitude: seq<real>, phases: seq<real>, log: real -> real, power: real -> real)
    returns (gainHz: Option<real>, phaseMargin: Option<real>, notes: seq<Note>)
    requires |frequencies| == |magnitude| == |phases| > 0
    ensures forall h, g, p :: GainSide(Report(gainHz, phaseMargin, h, g, p, notes), magnitude, phases)
    ensures gainHz.Some? ==> HzAtFirst(frequencies, magnitude, 0.0, log, power, gainHz.value)
    ensures forall n | n in notes :: n.NoGainCrossover? || n.SeveralGainCrossovers?
  {
    var hz, phaseAt, several := Search(frequencies, magnitude, 0.0, phases, log, power);
    if hz.None? { return None, None, [NoGainCrossover]; }
    return hz, Some(NormalizePhase(180.0 + phaseAt)), if several then [SeveralGainCrossovers] else [];
  }

  method ReadPhase(frequencies: seq<real>, magnitude: seq<real>, phases: seq<real>, log: real -> real, power: real -> real)
    returns (phaseHz: Option<real>, gainMargin: Option<real>, notes: seq<Note>)
    requires |frequencies| == |magnitude| == |phases| > 0
    ensures forall h, g, p :: PhaseSide(Report(h, g, phaseHz, gainMargin, p, notes), magnitude, phases)
    ensures phaseHz.Some? ==> HzAtFirst(frequencies, Offsets(phases), 0.0, log, power, phaseHz.value)
    ensures forall n | n in notes :: n.FlatAtMinus180? || n.NoPhaseCrossover? || n.SeveralPhaseCrossovers?
  {
    var offsets := Offsets(phases);
    if forall i | 0 <= i < |offsets| :: Abs(offsets[i]) <= FLAT { return None, None, [FlatAtMinus180]; }
    var hz, magnitudeAt, several := Search(frequencies, offsets, 0.0, magnitude, log, power);
    if hz.None? { return None, None, [NoPhaseCrossover]; }
    return hz, Some(-magnitudeAt), if several then [SeveralPhaseCrossovers] else [];
  }

  ghost predicate GainSide(report: Report, magnitude: seq<real>, phases: seq<real>) {
    && (report.gainHz.None? <==> StrictlyOneSide(magnitude, 0.0))
    && (report.phaseMargin.None? <==> report.gainHz.None?)
    && (report.phaseMargin.Some? ==> exists phase ::
          ReadAtFirst(magnitude, 0.0, phases, phase) && report.phaseMargin.value == NormalizePhase(180.0 + phase))
    && (NoGainCrossover in report.notes <==> report.gainHz.None?)
    && (SeveralGainCrossovers in report.notes <==> report.gainHz.Some? && Count(magnitude, 0.0, |magnitude|) > 1)
  }

  ghost predicate PhaseSide(report: Report, magnitude: seq<real>, phases: seq<real>) {
    && (report.phaseHz.None? <==> AllFlat(phases) || StrictlyOneSide(Offsets(phases), 0.0))
    && (report.gainMargin.None? <==> report.phaseHz.None?)
    && (report.gainMargin.Some? ==> ReadAtFirst(Offsets(phases), 0.0, magnitude, -report.gainMargin.value))
    && (FlatAtMinus180 in report.notes <==> AllFlat(phases))
    && (NoPhaseCrossover in report.notes <==> !AllFlat(phases) && StrictlyOneSide(Offsets(phases), 0.0))
    && (SeveralPhaseCrossovers in report.notes <==> report.phaseHz.Some? && Count(Offsets(phases), 0.0, |phases|) > 1)
  }

  /** The reported phase margin is 180 degrees plus the phase at the first gain
      crossover, brought into `(-180, 180]`. */
  lemma PhaseMarginMeans(report: Report, magnitude: seq<real>, phases: seq<real>)
    requires GainSide(report, magnitude, phases) && report.phaseMargin.Some?
    ensures -180.0 < report.phaseMargin.value <= 180.0
    ensures exists phase ::
      ReadAtFirst(magnitude, 0.0, phases, phase) && Congruent(report.phaseMargin.value, 180.0 + phase, TURN)
  {
    var phase :| ReadAtFirst(magnitude, 0.0, phases, phase) && report.phaseMargin.value == NormalizePhase(180.0 + phase);
    NormalizePhaseMeans(180.0 + phase);
  }

  /** On a sweep whose phase stays on one sheet, between two neighbouring multiples of
      360, a phase crossover is reported exactly when the phase meets 180 degrees on
      that sheet, flat responses aside. */
  lemma OneSheetCrossoverIff(report: Report, magnitude: seq<real>, phases: seq<real>, sheet: int)
    requires PhaseSide(report, magnitude, phases) && phases != [] && !AllFlat(phases)
    requires forall i | 0 <= i < |phases| :: Turns(phases[i], TURN) == sheet
    ensures report.phaseHz.Some? <==> !StrictlyOneSide(phases, 180.0 + Whole(sheet, TURN))
  {
    forall i | 0 <= i < |phases|
      ensures Offsets(phases)[i] == phases[i] - (180.0 + Whole(sheet, TURN))
    {
      OffsetsAt(phases, i);
      PhaseOffsetMeans(phases[i]);
    }
    var target := 180.0 + Whole(sheet, TURN);
    var offsets := Offsets(phases);
    assert forall i | 0 <= i < |phases| :: offsets[i] > 0.0 <==> phases[i] > target;
    assert forall i | 0 <= i < |phases| :: offsets[i] < 0.0 <==> phases[i] < target;
  }

  /** The point `hz`, `y` lies on the straight line, over the logarithm of the frequency,
      through samples `i` and `i + 1`. */
  predicate OnLine(frequencies: seq<real>, values: seq<real>, i: nat, log: real -> real, hz: real, y: real)
    requires |frequencies| == |values| && i + 1 < |values|
  {
    (log(hz) - log(frequencies[i])) * (values[i + 1] - values[i]) == (y - values[i]) * (log(frequencies[i + 1]) - log(frequencies[i]))
  }

  /** At `hz` the response first meets the target, on a sample or on the line through two,
      and `reading` is the other response at that very place. */
  ghost predicate MeetsOnLine(frequencies: seq<real>, values: seq<real>, target: real, other: seq<real>, log: real -> real,
                              hz: real, reading: real) {
    |frequencies| == |values| == |other|
    && exists i: nat :: FirstAt(values, target, i) && MeetsIn(frequencies, values, target, other, i, log, hz, reading)
  }

  predicate MeetsIn(frequencies: seq<real>, values: seq<real>, target: real, other: seq<real>, i: nat, log: real -> real,
                    hz: real, reading: real)
    requires |frequencies| == |values| == |other| && i < |values|
  {
    if values[i] == target then hz == frequencies[i] && reading == other[i]
    else
      && i + 1 < |values| && frequencies[i] < hz < frequencies[i + 1]
      && OnLine(frequencies, values, i, log, hz, target) && OnLine(frequencies, other, i, log, hz, reading)
  }

  /** Both reported crossovers are where the straight lines through the samples meet 0 dB
      and 180 degrees, and both margins are what the other line says there. */
  ghost predicate CrossoversOnLines(report: Report, frequencies: seq<real>, magnitude: seq<real>, phases: seq<real>,
                                    log: real -> real) {
    && (report.gainHz.Some? ==> report.phaseMargin.Some? && exists phase ::
          && MeetsOnLine(frequencies, magnitude, 0.0, phases, log, report.gainHz.value, phase)
          && Congruent(report.phaseMargin.value, 180.0 + phase, 360.0) && -180.0 < report.phaseMargin.value <= 180.0)
    && (report.phaseHz.Some? ==>
          && report.gainMargin.Some?
          && MeetsOnLine(frequencies, Offsets(phases), 0.0, magnitude, log, report.phaseHz.value, -report.gainMargin.value))
  }

  lemma CrossoversLie(report: Report, frequencies: seq<real>, magnitude: seq<real>, phases: seq<real>,
                      log: real -> real, power: real -> real)
    requires Frequency.LogAndPower(log, power) && SweepOk(frequencies, magnitude, phases)
    requires GainSide(report, magnitude, phases) && PhaseSide(report, magnitude, phases)
    requires report.gainHz.Some? ==> HzAtFirst(frequencies, magnitude, 0.0, log, power, report.gainHz.value)
    requires report.phaseHz.Some? ==> HzAtFirst(frequencies, Offsets(phases), 0.0, log, power, report.phaseHz.value)
    ensures CrossoversOnLines(report, frequencies, magnitude, phases, log)
  {
    hide Frequency.LogAndPower; hide MeetsOnLine; hide HzAtFirst; hide ReadAtFirst; hide Count; hide AllFlat;
    hide StrictlyOneSide; hide Congruent; hide NormalizePhase; hide PhaseOffset;
    if report.gainHz.Some? {
      var phase :| ReadAtFirst(magnitude, 0.0, phases, phase) && report.phaseMargin.value == NormalizePhase(180.0 + phase);
      NormalizePhaseMeans(180.0 + phase);
      CrossingOnLine(frequencies, magnitude, 0.0, phases, log, power, report.gainHz.value, phase);
    }
    if report.phaseHz.Some? {
      CrossingOnLine(frequencies, Offsets(phases), 0.0, magnitude, log, power, report.phaseHz.value, -report.gainMargin.value);
    }
  }

  lemma CrossingOnLine(frequencies: seq<real>, values: seq<real>, target: real, other: seq<real>,
                       log: real -> real, power: real -> real, hz: real, reading: real)
    requires Frequency.LogAndPower(log, power) && SweepOk(frequencies, values, other)
    requires HzAtFirst(frequencies, values, target, log, power, hz) && ReadAtFirst(values, target, other, reading)
    ensures MeetsOnLine(frequencies, values, target, other, log, hz, reading)
  {
    var i: nat :| FirstAt(values, target, i) && hz == CrossingHz(frequencies, values, target, i, log, power);
    var j: nat :| FirstAt(values, target, j) && reading == Interpolate(other, j, FractionAt(values, target, j));
    assert i == j;
    CrossingInside(frequencies, values, target, other, i, log, power);
  }

  lemma CrossingInside(frequencies: seq<real>, values: seq<real>, target: real, other: seq<real>, i: nat,
                       log: real -> real, power: real -> real)
    requires Frequency.LogAndPower(log, power) && SweepOk(frequencies, values, other)
    requires i < |values| && CrossesAt(values, target, i)
    ensures MeetsIn(frequencies, values, target, other, i, log, CrossingHz(frequencies, values, target, i, log, power),
                    Interpolate(other, i, FractionAt(values, target, i)))
  {
    if values[i] == target {
      if i + 1 < |values| { assert 0.0 * (other[i + 1] - other[i]) == 0.0; }
    } else {
      CrossingHitsTarget(values, target, i);
      var fraction := FractionAt(values, target, i);
      LogInterpolateInside(frequencies, i, fraction, log, power);
      var hz := CrossingHz(frequencies, values, target, i, log, power);
      var step := log(frequencies[i + 1]) - log(frequencies[i]);
      assert log(hz) - log(frequencies[i]) == fraction * step;
      PartsAgree(fraction, step, values[i + 1] - values[i], log(hz) - log(frequencies[i]), target - values[i]);
      PartsAgree(fraction, step, other[i + 1] - other[i], log(hz) - log(frequencies[i]),
                 Interpolate(other, i, fraction) - other[i]);
    }
  }

  lemma PartsAgree(fraction: real, a: real, b: real, partA: real, partB: real)
    requires partA == fraction * a && partB == fraction * b
    ensures partA * b == partB * a
  {
    assert (fraction * a) * b == (fraction * b) * a;
  }

  /** A reported crossover lies in the sweep step it was found in. */
  lemma CrossoverInsideStep(frequencies: seq<real>, values: seq<real>, target: real, log: real -> real, power: real -> real,
                            hz: real)
    requires HzAtFirst(frequencies, values, target, log, power, hz)
    requires Frequency.LogAndPower(log, power) && SweepOk(frequencies, values, values)
    ensures exists i: nat :: FirstAt(values, target, i) && InsideStep(frequencies, i, values[i] == target, hz)
  {
    var i: nat :| FirstAt(values, target, i) && hz == CrossingHz(frequencies, values, target, i, log, power);
    if values[i] != target {
      CrossingHitsTarget(values, target, i);
      LogInterpolateInside(frequencies, i, FractionAt(values, target, i), log, power);
    }
  }

  predicate InsideStep(frequencies: seq<real>, i: nat, onSample: bool, hz: real) {
    if onSample then i < |frequencies| && hz == frequencies[i]
    else i + 1 < |frequencies| && frequencies[i] < hz < frequencies[i + 1]
  }

  lemma LogInterpolateInside(frequencies: seq<real>, i: nat, fraction: real, log: real -> real, power: real -> real)
    requires Frequency.LogAndPower(log, power) && SweepOk(frequencies, frequencies, frequencies) && i + 1 < |frequencies|
    requires 0.0 < fraction < 1.0
    ensures InsideStep(frequencies, i, false, LogInterpolate(frequencies[i], frequencies[i + 1], fraction, log, power))
  {
    SweepPositive(frequencies, i);
    var low, high := log(frequencies[i]), log(frequencies[i + 1]);
    var part := fraction * (high - low);
    PartWay(high - low, fraction, part);
    assert power(low) < power(low + part) < power(high);
  }

  lemma PartWay(span: real, fraction: real, part: real)
    requires 0.0 < span && 0.0 < fraction < 1.0 && part == fraction * span
    ensures 0.0 < part < span
  {
    var rest := 1.0 - fraction;
    assert rest * span > 0.0;
    assert rest * span == span - part;
  }

  lemma {:induction false} SweepPositive(frequencies: seq<real>, i: nat)
    requires i < |frequencies| && frequencies[0] > 0.0
    requires forall j | 0 <= j < |frequencies| - 1 :: frequencies[j] < frequencies[j + 1]
    ensures frequencies[i] > 0.0
  {
    if i > 0 { SweepPositive(frequencies, i - 1); }
  }
}
