/** What a rendered gate does in time, and that it is the gate the plan asks for.

    A gate is meant to be the periodic indicator "the carrier, advanced by its
    phase, stands inside the on-window".  The compiler writes it as a PULSE source
    that starts at the first rise plus a finite PWL tail for the pulse that is
    already running when the window opens.  Source edges are instantaneous here,
    and `eps` is the compiler's snap tolerance (zero allowed). */
module GateSignal {
  import opened Wrappers
  import opened RealMod
  import opened GateControl

  // ------------------------------------------------------------------- the meaning

  predicate GateOn(w: Window, phase: real, period: real, t: real)
    requires period > 0.0
  {
    w.start <= Mod(t + phase, period) < w.stop
  }

  // ----------------------------------------------------------------- the rendering

  function Tolerance(eps: real, period: real): real {
    eps * Max(1.0, period)
  }

  /** The carrier phase reduced into one period, a hair below a period being zero. */
  function NormalPhase(phase: real, period: real, eps: real): real
    requires period > 0.0
  {
    var value := Mod(phase, period);
    if period - value <= Tolerance(eps, period) then 0.0 else value
  }

  /** The phase is reduced, except that one within the tolerance of a whole period counts
      as zero: short of it by no more than `eps`, or by no more than that part of it. */
  lemma NormalPhaseMeans(phase: real, period: real, eps: real)
    requires period > 0.0 && eps >= 0.0
    ensures var rest := period - Mod(phase, period);
      NormalPhase(phase, period, eps) == if rest <= eps || rest <= eps * period then 0.0 else Mod(phase, period)
  {
    if period >= 1.0 { assert eps * (period - 1.0) >= 0.0; } else { assert eps * (1.0 - period) >= 0.0; }
    hide Mod;
  }

  /** The phase one gate is rendered with: the base carrier less the gate's delay. */
  function GatePhase(carrierPhase: real, delay: real, period: real, eps: real): real
    requires period > 0.0
  {
    NormalPhase(NormalPhase(carrierPhase, period, eps) - delay, period, eps)
  }

  function FirstRise(w: Window, phase: real, period: real, eps: real): real
    requires period > 0.0
  {
    NormalPhase(w.start - phase, period, eps)
  }

  /** How long the pulse that straddles the window start still lasts. */
  function TailUntil(w: Window, phase: real, eps: real): real {
    var tail := if w.start < phase < w.stop then w.stop - phase else 0.0;
    if tail <= eps then 0.0 else tail
  }

  /** A PULSE source: low until its delay, then high for `width` of every period. */
  predicate PulseOn(delay: real, width: real, period: real, t: real)
    requires period > 0.0
  {
    delay <= t && Mod(t - delay, period) < width
  }

  /** A PWL tail: high from the window start until it runs out. */
  predicate TailOn(until: real, t: real) {
    0.0 <= t < until
  }

  function Bit(b: bool): nat { if b then 1 else 0 }

  /** How many of a gate's sources are high; the control net carries that many
      amplitudes.  An empty window is a zero-volt source. */
  function Level(w: Window, phase: real, period: real, eps: real, t: real): nat
    requires period > 0.0
  {
    if w.stop <= w.start then 0
    else
      Bit(PulseOn(FirstRise(w, phase, period, eps), w.stop - w.start, period, t))
      + Bit(TailOn(TailUntil(w, phase, eps), t))
  }

  ghost predicate Normalised(phase: real, period: real, eps: real) {
    0.0 <= phase < period && (phase == 0.0 || period - phase > Tolerance(eps, period))
  }

  lemma NormalPhaseNormalised(phase: real, period: real, eps: real)
    requires period > 0.0 && eps >= 0.0
    ensures Normalised(NormalPhase(phase, period, eps), period, eps)
    ensures eps == 0.0 ==> NormalPhase(phase, period, eps) == Mod(phase, period)
  {
    ModRange(phase, period);
  }

  // --------------------------------------------------------- when it is the meaning

  /** The first rise is pulled to the window start although it lies elsewhere. */
  ghost predicate RiseSnapped(w: Window, phase: real, period: real, eps: real)
    requires period > 0.0
  {
    var rise := Mod(w.start - phase, period);
    0.0 < rise && period - rise <= Tolerance(eps, period)
  }

  /** A running pulse is dropped because too little of it is left. */
  ghost predicate TailDropped(w: Window, phase: real, eps: real) {
    w.start < phase < w.stop && w.stop - phase <= eps
  }

  ghost predicate Exact(w: Window, phase: real, period: real, eps: real, t: real)
    requires period > 0.0
  {
    Level(w, phase, period, eps, t) == Bit(GateOn(w, phase, period, t))
  }

  /** Measuring the cycle from another origin. */
  lemma Rotate(x: real, origin: real, period: real)
    requires period > 0.0 && 0.0 <= origin <= period
    ensures var c := Mod(x, period);
      Mod(x - origin, period) == if c >= origin then c - origin else c - origin + period
  {
    var c, q := Mod(x, period), Turns(x, period);
    ModRange(x, period);
    if c >= origin {
      ModUnique(x - origin, period, q, c - origin);
    } else {
      ModUnique(x - origin + period, period, q, c - origin + period);
      ModOneMore(x - origin, period);
    }
  }

  /** Once it has started, the pulse is the indicator. */
  lemma PulseFollowsGate(w: Window, phase: real, period: real, t: real)
    requires period > 0.0 && Fits(w, period) && w.start < w.stop
    ensures Mod(t - Mod(w.start - phase, period), period) < w.stop - w.start <==> GateOn(w, phase, period, t)
  {
    var q := Turns(w.start - phase, period);
    assert t - Mod(w.start - phase, period) == (t + phase - w.start) + Whole(q, period);
    ModShift(t + phase - w.start, period, q);
    Rotate(t + phase, w.start, period);
    ModRange(t + phase, period);
  }

  /** Before the first rise only the tail can be on, and it is the indicator. */
  lemma TailFollowsGate(w: Window, phase: real, period: real, t: real)
    requires period > 0.0 && Fits(w, period) && w.start < w.stop && 0.0 <= phase < period
    requires 0.0 <= t < Mod(w.start - phase, period)
    ensures GateOn(w, phase, period, t) <==> w.start < phase < w.stop && t < w.stop - phase
  {
    RiseAt(w, phase, period);
    if w.start < phase && t + phase >= period {
      ModAbove(t + phase, period);
    } else {
      ModSmall(t + phase, period);
    }
  }

  lemma RiseAt(w: Window, phase: real, period: real)
    requires period > 0.0 && 0.0 <= w.start < period && 0.0 <= phase < period
    ensures Mod(w.start - phase, period) == if phase <= w.start then w.start - phase else w.start - phase + period
  {
    if phase <= w.start {
      ModSmall(w.start - phase, period);
    } else {
      ModBelow(w.start - phase, period);
    }
  }

  /** Main refinement: the rendered sources carry the indicator at every instant of
      the window exactly when neither snap fires. */
  lemma RenderingExactIff(w: Window, phase: real, period: real, eps: real)
    requires period > 0.0 && eps >= 0.0 && Fits(w, period) && w.start < w.stop
    requires Normalised(phase, period, eps)
    ensures (forall t | t >= 0.0 :: Exact(w, phase, period, eps, t))
       <==> !RiseSnapped(w, phase, period, eps) && !TailDropped(w, phase, eps)
  {
    if RiseSnapped(w, phase, period, eps) || TailDropped(w, phase, eps) {
      var t := SnapWitness(w, phase, period, eps);
      assert t >= 0.0 && !Exact(w, phase, period, eps, t);
    } else {
      forall t | t >= 0.0 ensures Exact(w, phase, period, eps, t) {
        UnsnappedExact(w, phase, period, eps, t);
      }
    }
  }

  lemma UnsnappedExact(w: Window, phase: real, period: real, eps: real, t: real)
    requires period > 0.0 && eps >= 0.0 && Fits(w, period) && w.start < w.stop
    requires 0.0 <= phase < period && t >= 0.0
    requires !RiseSnapped(w, phase, period, eps) && !TailDropped(w, phase, eps)
    ensures Exact(w, phase, period, eps, t)
    ensures FirstRise(w, phase, period, eps) == Mod(w.start - phase, period)
    ensures TailUntil(w, phase, eps) <= FirstRise(w, phase, period, eps)
  {
    var rise := Mod(w.start - phase, period);
    ModRange(w.start - phase, period);
    RiseAt(w, phase, period);
    if rise <= t {
      PulseFollowsGate(w, phase, period, t);
    } else {
      TailFollowsGate(w, phase, period, t);
    }
  }

  /** An instant at which a snapped rendering is wrong. */
  lemma SnapWitness(w: Window, phase: real, period: real, eps: real) returns (t: real)
    requires period > 0.0 && eps >= 0.0 && Fits(w, period) && w.start < w.stop
    requires Normalised(phase, period, eps)
    requires RiseSnapped(w, phase, period, eps) || TailDropped(w, phase, eps)
    ensures t >= 0.0 && !Exact(w, phase, period, eps, t)
  {
    RiseAt(w, phase, period);
    ModSmall(phase, period);
    ModSmall(0.0, period);
    if RiseSnapped(w, phase, period, eps) && w.start < phase < w.stop && w.stop - phase <= eps {
      t := w.stop - phase;
      ModSmall(t, period);
      if w.stop < period {
        ModSmall(w.stop, period);
      } else {
        ModAbove(w.stop, period);
        ToleranceAtLeast(eps, period);
      }
    } else {
      t := 0.0;
    }
  }

  lemma ToleranceAtLeast(eps: real, period: real)
    requires eps >= 0.0
    ensures eps <= Tolerance(eps, period)
  {
    if period > 1.0 { assert 0.0 <= eps * (period - 1.0); }
  }

  /** With no snapping the recorded first rise is the first time in the window at
      which the carrier reaches the gate's start. */
  lemma FirstRiseIsLeast(w: Window, phase: real, period: real, t: real)
    requires period > 0.0 && 0.0 <= w.start < period && 0.0 <= phase < period
    ensures 0.0 <= FirstRise(w, phase, period, 0.0)
    ensures Mod(FirstRise(w, phase, period, 0.0) + phase, period) == w.start
    ensures 0.0 <= t && Mod(t + phase, period) == w.start ==> FirstRise(w, phase, period, 0.0) <= t
  {
    var rise := FirstRise(w, phase, period, 0.0);
    NormalPhaseNormalised(w.start - phase, period, 0.0);
    RiseAt(w, phase, period);
    if phase <= w.start {
      ModSmall(rise + phase, period);
    } else {
      ModAbove(rise + phase, period);
    }
    if 0.0 <= t < rise {
      if t + phase < period {
        ModSmall(t + phase, period);
      } else {
        ModAbove(t + phase, period);
      }
    }
  }

  /** The gate is on at some instant of the window. */
  ghost predicate TurnsOn(w: Window, phase: real, period: real)
    requires period > 0.0
  {
    exists t :: t >= 0.0 && GateOn(w, phase, period, t)
  }

  predicate AtStart(w: Window, phase: real, period: real, t: real)
    requires period > 0.0
  {
    t >= 0.0 && Mod(t + phase, period) == w.start
  }

  /** The first time the carrier reaches the gate's start. */
  ghost predicate LeastStart(w: Window, phase: real, period: real, rise: real)
    requires period > 0.0
  {
    AtStart(w, phase, period, rise) && forall t | AtStart(w, phase, period, t) :: rise <= t
  }

  /** A gate turns on at all exactly when its on-window is not empty, and first rises
      where the renderer puts it. */
  lemma TurnsOnIff(w: Window, phase: real, period: real)
    requires period > 0.0 && Fits(w, period) && 0.0 <= phase < period
    ensures TurnsOn(w, phase, period) <==> w.start < w.stop
    ensures w.start < w.stop ==> LeastStart(w, phase, period, FirstRise(w, phase, period, 0.0))
  {
    if w.start < w.stop {
      var rise := FirstRise(w, phase, period, 0.0);
      FirstRiseIsLeast(w, phase, period, 0.0);
      assert AtStart(w, phase, period, rise) && GateOn(w, phase, period, rise);
      forall t | AtStart(w, phase, period, t) ensures rise <= t {
        FirstRiseIsLeast(w, phase, period, t);
      }
    }
  }

  /** Snapping moves a pulse, it never invents one: whenever a source is high the
      indicator was high no more than a tolerance earlier. */
  lemma LevelNeedsGate(w: Window, phase: real, period: real, eps: real, t: real) returns (late: real)
    requires period > 0.0 && eps >= 0.0 && Fits(w, period) && 0.0 <= phase < period && t >= 0.0
    requires Level(w, phase, period, eps, t) > 0
    ensures 0.0 <= late <= Tolerance(eps, period)
    ensures GateOn(w, phase, period, t - late)
  {
    var rise := Mod(w.start - phase, period);
    ModRange(w.start - phase, period);
    ToleranceAtLeast(eps, period);
    late := 0.0;
    if TailOn(TailUntil(w, phase, eps), t) {
      ModSmall(t + phase, period);
    } else if period - rise <= Tolerance(eps, period) {
      late := period - rise;
      assert (t - late) - rise == t - period;
      ModOneMore(t - period, period);
      PulseFollowsGate(w, phase, period, t - late);
    } else {
      PulseFollowsGate(w, phase, period, t);
    }
  }

  // --------------------------------------------------------------- runs of windows

  /** The gate of an unbroken run, at absolute time. */
  predicate RunGateOn(w: Window, delay: real, period: real, time: real)
    requires period > 0.0
  {
    GateOn(w, -delay, period, time)
  }

  /** What the sources of the window opened at `start` carry at absolute time `time`. */
  function SolvedLevel(w: Window, delay: real, period: real, eps: real, start: real, time: real): nat
    requires period > 0.0
  {
    Level(w, GatePhase(start, delay, period, eps), period, eps, time - start)
  }

  /** The start of the window that is being solved at `time`: the last one opened. */
  function OpenWindow(starts: seq<real>, time: real): real
    requires starts != []
  {
    var last := starts[|starts| - 1];
    if |starts| == 1 || last <= time then last else OpenWindow(starts[..|starts| - 1], time)
  }

  /** The concatenation of all the solved windows. */
  function ConcatenatedLevel(w: Window, delay: real, period: real, eps: real, starts: seq<real>, time: real): nat
    requires period > 0.0 && starts != []
  {
    SolvedLevel(w, delay, period, eps, OpenWindow(starts, time), time)
  }

  ghost predicate Partition(starts: seq<real>) {
    starts != [] && forall i, j | 0 <= i < j < |starts| :: starts[i] < starts[j]
  }

  lemma {:induction false} OpenWindowOpened(starts: seq<real>, time: real)
    requires Partition(starts) && starts[0] <= time
    ensures OpenWindow(starts, time) <= time && OpenWindow(starts, time) in starts
    ensures forall s | s in starts && s <= time :: s <= OpenWindow(starts, time)
  {
    var last := |starts| - 1;
    assert forall s :: s in starts <==> s in starts[..last] || s == starts[last] by {
      assert starts == starts[..last] + [starts[last]];
    }
    if starts[last] > time { OpenWindowOpened(starts[..last], time); }
  }

  /** How far normalising a phase advances it: all the way to the next whole
      period when that is within the tolerance, otherwise not at all. */
  function Slip(phase: real, period: real, eps: real): real
    requires period > 0.0
  {
    var rest := period - Mod(phase, period);
    if rest <= Tolerance(eps, period) then rest else 0.0
  }

  lemma NormalPhaseSlips(phase: real, period: real, eps: real, y: real)
    requires period > 0.0 && eps >= 0.0
    ensures 0.0 <= Slip(phase, period, eps) <= Tolerance(eps, period)
    ensures eps == 0.0 ==> Slip(phase, period, eps) == 0.0
    ensures Mod(NormalPhase(phase, period, eps) + y, period) == Mod(phase + Slip(phase, period, eps) + y, period)
  {
    ModRange(phase, period);
    ToleranceAtLeast(eps, period);
    var slip, q := Slip(phase, period, eps), Turns(phase, period);
    if slip == 0.0 {
      ModOfSum(phase, y, period);
      assert phase + slip + y == phase + y;
    } else {
      assert NormalPhase(phase, period, eps) + y == y;
      ModShift(y, period, q);
      ModOneMore(y + Whole(q, period), period);
      assert phase + slip + y == y + Whole(q, period) + period;
    }
  }

  /** The two normalisations between a window's start and a gate's phase. */
  function WindowSlip(start: real, delay: real, period: real, eps: real): real
    requires period > 0.0
  {
    Slip(start, period, eps) + Slip(NormalPhase(start, period, eps) - delay, period, eps)
  }

  /** A window's gate is the run's gate, advanced by at most two tolerances. */
  lemma WindowGateIsRunGate(w: Window, delay: real, period: real, eps: real, start: real, t: real)
    requires period > 0.0 && eps >= 0.0
    ensures 0.0 <= WindowSlip(start, delay, period, eps) <= 2.0 * Tolerance(eps, period)
    ensures eps == 0.0 ==> WindowSlip(start, delay, period, eps) == 0.0
    ensures GateOn(w, GatePhase(start, delay, period, eps), period, t)
         == RunGateOn(w, delay, period, start + t + WindowSlip(start, delay, period, eps))
  {
    var carrier := NormalPhase(start, period, eps);
    var second := Slip(carrier - delay, period, eps);
    NormalPhaseSlips(carrier - delay, period, eps, t);
    NormalPhaseSlips(start, period, eps, second - delay + t);
    assert carrier - delay + second + t == carrier + (second - delay + t);
    assert start + Slip(start, period, eps) + (second - delay + t)
        == start + t + WindowSlip(start, delay, period, eps) + -delay;
    assert GatePhase(start, delay, period, eps) + t == NormalPhase(carrier - delay, period, eps) + t;
  }

  /** Cutting a run into windows does not change a gate: at every instant the
      sources of the window being solved carry the unbroken run's indicator, and so
      does the run solved as one window. */
  lemma WindowSplittingPreservesGate(w: Window, delay: real, period: real, starts: seq<real>, time: real)
    requires period > 0.0 && Fits(w, period) && Partition(starts) && starts[0] <= time
    ensures ConcatenatedLevel(w, delay, period, 0.0, starts, time) == Bit(RunGateOn(w, delay, period, time))
    ensures ConcatenatedLevel(w, delay, period, 0.0, starts, time) == SolvedLevel(w, delay, period, 0.0, starts[0], time)
  {
    OpenWindowOpened(starts, time);
    SolvedIsRunGate(w, delay, period, OpenWindow(starts, time), time);
    SolvedIsRunGate(w, delay, period, starts[0], time);
  }

  lemma SolvedIsRunGate(w: Window, delay: real, period: real, start: real, time: real)
    requires period > 0.0 && Fits(w, period) && start <= time
    ensures SolvedLevel(w, delay, period, 0.0, start, time) == Bit(RunGateOn(w, delay, period, time))
  {
    var carrier := NormalPhase(start, period, 0.0);
    var phase := GatePhase(start, delay, period, 0.0);
    NormalPhaseNormalised(carrier - delay, period, 0.0);
    WindowGateIsRunGate(w, delay, period, 0.0, start, time - start);
    if w.start < w.stop {
      ModRange(w.start - phase, period);
      UnsnappedExact(w, phase, period, 0.0, time - start);
    }
  }

  // -------------------------------------------------------------------- dead time

  /** Over all time, an instant with the high gate on and one with the low gate on
      are at least the dead time apart.  The duty may change from cycle to cycle, but
      not inside one cycle of the leg. */
  lemma DeadTimeSeparation(dutyHigh: real, dutyLow: real, period: real, deadTime: real, delay: real,
                           timeHigh: real, timeLow: real)
    requires period > 0.0 && 0.0 <= deadTime < period / 2.0
    requires 0.0 <= dutyHigh <= 1.0 && 0.0 <= dutyLow <= 1.0
    requires Turns(timeHigh - delay, period) == Turns(timeLow - delay, period) ==> dutyHigh == dutyLow
    requires RunGateOn(HighWindow(dutyHigh, period, deadTime), delay, period, timeHigh)
    requires RunGateOn(LowWindow(dutyLow, period, deadTime), delay, period, timeLow)
    ensures Abs(timeHigh - timeLow) >= deadTime
  {
    var h, l := Mod(timeHigh - delay, period), Mod(timeLow - delay, period);
    var p, q := Turns(timeHigh - delay, period), Turns(timeLow - delay, period);
    WholeApart(p, q, period);
    ModRange(timeHigh - delay, period);
    ModRange(timeLow - delay, period);
    var cycles := Whole(p, period) - Whole(q, period);
    assert Abs(h - l + cycles) >= deadTime by {
      HighFits(dutyHigh, period, deadTime);
      SeparationInCycle(h, l, cycles, HighWidth(dutyHigh, period, deadTime),
                        LowWindow(dutyLow, period, deadTime).start, period, deadTime);
    }
    assert timeHigh - timeLow == h - l + cycles;
  }

  lemma HighFits(duty: real, period: real, deadTime: real)
    requires 0.0 <= duty <= 1.0 && period > 0.0 && 0.0 <= deadTime
    ensures HighWidth(duty, period, deadTime) <= period
  {
    Share(duty, period, duty * period);
  }

  lemma SeparationInCycle(h: real, l: real, cycles: real, highStop: real, lowStart: real, period: real, deadTime: real)
    requires 0.0 <= h < highStop <= period && deadTime <= lowStart <= l < period - deadTime
    requires cycles == 0.0 ==> lowStart == highStop + deadTime
    requires cycles == 0.0 || period <= cycles || cycles <= -period
    ensures Abs(h - l + cycles) >= deadTime
  {}

  /** The same for what the sources really carry, whatever windows the two instants
      are solved in: the snaps cost at most one tolerance inside one window and
      three across windows, so with no snapping the dead time is met in full. */
  lemma RenderedDeadTime(duty: real, period: real, deadTime: real, delay: real, eps: real,
                         startHigh: real, timeHigh: real, startLow: real, timeLow: real)
    requires period > 0.0 && 0.0 <= deadTime < period / 2.0 && 0.0 <= duty <= 1.0 && eps >= 0.0
    requires startHigh <= timeHigh && startLow <= timeLow
    requires SolvedLevel(HighWindow(duty, period, deadTime), delay, period, eps, startHigh, timeHigh) > 0
    requires SolvedLevel(LowWindow(duty, period, deadTime), delay, period, eps, startLow, timeLow) > 0
    ensures Abs(timeHigh - timeLow) >= deadTime - 3.0 * Tolerance(eps, period)
    ensures startHigh == startLow ==> Abs(timeHigh - timeLow) >= deadTime - Tolerance(eps, period)
  {
    WindowsFit(duty, period, deadTime);
    var lateHigh := SolvedNeedsRunGate(HighWindow(duty, period, deadTime), delay, period, eps, startHigh, timeHigh);
    var lateLow := SolvedNeedsRunGate(LowWindow(duty, period, deadTime), delay, period, eps, startLow, timeLow);
    DeadTimeSeparation(duty, duty, period, deadTime, delay,
                       timeHigh - lateHigh + WindowSlip(startHigh, delay, period, eps),
                       timeLow - lateLow + WindowSlip(startLow, delay, period, eps));
    WindowGateIsRunGate(HighWindow(duty, period, deadTime), delay, period, eps, startHigh, 0.0);
    WindowGateIsRunGate(LowWindow(duty, period, deadTime), delay, period, eps, startLow, 0.0);
  }

  lemma SolvedNeedsRunGate(w: Window, delay: real, period: real, eps: real, start: real, time: real) returns (late: real)
    requires period > 0.0 && Fits(w, period) && eps >= 0.0 && start <= time
    requires SolvedLevel(w, delay, period, eps, start, time) > 0
    ensures 0.0 <= late <= Tolerance(eps, period)
    ensures RunGateOn(w, delay, period, time - late + WindowSlip(start, delay, period, eps))
  {
    NormalPhaseNormalised(NormalPhase(start, period, eps) - delay, period, eps);
    late := LevelNeedsGate(w, GatePhase(start, delay, period, eps), period, eps, time - start);
    WindowGateIsRunGate(w, delay, period, eps, start, time - start - late);
    assert start + (time - start - late) + WindowSlip(start, delay, period, eps)
        == time - late + WindowSlip(start, delay, period, eps);
  }

  function OnTime(w: Window): real { Max(0.0, w.stop - w.start) }

  /** The two gates of a leg share the cycle less two dead times, exactly as long as
      the duty leaves the low side a window. */
  lemma OnTimesFillCycleIff(duty: real, period: real, deadTime: real)
    requires period > 0.0 && 0.0 <= deadTime < period / 2.0
    ensures OnTime(HighWindow(duty, period, deadTime)) + OnTime(LowWindow(duty, period, deadTime))
              == period - 2.0 * deadTime
       <==> duty * period <= period - deadTime
  {}
}
