/** The envelope monitor: it records findings about a run against a declared validity
    envelope, reports each one once, and repeats itself only after the external
    operating point has changed. */
module Envelope {
  import opened Wrappers

  datatype Mode = Off | Record | Warn | Enforce

  datatype Strength = Hard | Advisory

  /** A policy whose mode has been resolved. */
  datatype Policy = Policy(mode: Mode, blockingStrengths: set<Strength>, preflightChecks: bool, stepChecks: bool,
                           checkExternalInputs: bool, requireEnvelope: bool, requireProvenance: bool,
                           deduplicate: bool, tolerance: real)

  datatype Severity = Info | Warning | Error

  /** The rule identifiers. */
  datatype Rule =
    | VinDomain | LoadDomain | CcmBoundary | DutyDomain | DutyResolution | ExternalChanged
    | DeclarationUnknown | DeclarationUnreadable | ActuatorUndeclared | ActuatorSubset | ScheduleInvalid
    | SwitchingPeriods | SampleResolution | TimestepDynamics | Substeps | OffResistance
    | ProvenanceUnreadable | ProvenanceUnknown | Unreviewed

  datatype Finding = Finding(rule: Rule, category: string, severity: Severity, stopRequested: bool) {
    /** Findings of the monitor never pass. */
    predicate Blocking() { stopRequested || severity == Error }
  }

  datatype Variable = Named(name: string) | Scheduled(index: nat, key: string)

  datatype Key = Key(rule: Rule, variable: Variable)

  /** One request to record a violation. */
  datatype Raise = Raise(rule: Rule, category: string, variable: Variable, strength: Strength)

  function Judge(policy: Policy, r: Raise): Finding {
    var blocking := policy.mode == Enforce && r.strength in policy.blockingStrengths;
    Finding(r.rule, r.category, if blocking then Error else if policy.mode == Warn then Warning else Info, blocking)
  }

  // ---------------------------------------------------------------- the event history

  /** What happened: a requested violation, with its finding unless it was a repeat, or
      the re-arming of the keys that depend on the operating point. */
  datatype Event = Violation(what: Raise, finding: Option<Finding>) | Rearmed

  function KeyOf(r: Raise): Key { Key(r.rule, r.variable) }

  const REARMED: set<Key> := {
    Key(VinDomain, Named("input_voltage_v")), Key(LoadDomain, Named("load_resistance_ohm")), Key(CcmBoundary, Named("duty"))}

  function Seen(trace: seq<Event>): set<Key> {
    if trace == [] then {}
    else
      var before := Seen(trace[..|trace| - 1]);
      match trace[|trace| - 1]
      case Violation(what, finding) => if finding.Some? then before + {KeyOf(what)} else before
      case Rearmed => before - REARMED
  }

  function Found(trace: seq<Event>): seq<Finding> {
    if trace == [] then []
    else
      Found(trace[..|trace| - 1])
      + match trace[|trace| - 1] case Violation(_, Some(finding)) => [finding] case _ => []
  }

  /** Violations of one rule, repeats included. */
  function Violations(trace: seq<Event>, rule: Rule): nat {
    if trace == [] then 0
    else
      var last := trace[|trace| - 1];
      Violations(trace[..|trace| - 1], rule) + if last.Violation? && last.what.rule == rule then 1 else 0
  }

  function AllViolations(trace: seq<Event>): nat {
    if trace == [] then 0
    else AllViolations(trace[..|trace| - 1]) + if trace[|trace| - 1].Violation? then 1 else 0
  }

  /** The events one request causes. */
  datatype Step = Do(what: Raise) | Rearm

  function After(policy: Policy, trace: seq<Event>, step: Step): seq<Event> {
    match step
    case Rearm => trace + [Rearmed]
    case Do(r) =>
      if policy.mode == Off then trace
      else
        var key := Key(r.rule, r.variable);
        trace + [Violation(r, if policy.deduplicate && key in Seen(trace) then None else Some(Judge(policy, r)))]
  }

  function Play(policy: Policy, trace: seq<Event>, steps: seq<Step>): seq<Event> {
    if steps == [] then trace
    else After(policy, Play(policy, trace, steps[..|steps| - 1]), steps[|steps| - 1])
  }

  lemma {:induction false} PlayAppend(policy: Policy, trace: seq<Event>, a: seq<Step>, b: seq<Step>)
    ensures Play(policy, trace, a + b) == Play(policy, Play(policy, trace, a), b)
  {
    if b == [] {
      assert a + b == a;
    } else {
      assert (a + b)[..|a + b| - 1] == a + b[..|b| - 1];
      PlayAppend(policy, trace, a, b[..|b| - 1]);
    }
  }

  /** Every violation in the history was judged by the keys standing before it. */
  ghost predicate Lawful(policy: Policy, trace: seq<Event>) {
    forall i | 0 <= i < |trace| && trace[i].Violation? ::
      trace[i].finding.None? <==> policy.deduplicate && KeyOf(trace[i].what) in Seen(trace[..i])
  }

  lemma {:induction false} PlayLawful(policy: Policy, trace: seq<Event>, steps: seq<Step>)
    requires Lawful(policy, trace)
    ensures Lawful(policy, Play(policy, trace, steps)) && trace <= Play(policy, trace, steps)
  {
    if steps != [] {
      var n := |steps| - 1;
      PlayLawful(policy, trace, steps[..n]);
      var before, after := Play(policy, trace, steps[..n]), Play(policy, trace, steps);
      assert before <= after;
      forall i | 0 <= i < |after| && after[i].Violation?
        ensures after[i].finding.None? <==> policy.deduplicate && KeyOf(after[i].what) in Seen(after[..i])
      {
        if i < |before| { assert after[..i] == before[..i] && after[i] == before[i]; } else { assert after[..i] == before; }
      }
    }
  }

  /** A finding is about its request, and as severe as the mode and the request's strength
      make it. */
  predicate Graded(policy: Policy, event: Event) {
    event.Violation? ==>
      && policy.mode != Off
      && (event.finding.Some? ==>
        var f := event.finding.value;
        && f.rule == event.what.rule && f.category == event.what.category
        && match policy.mode
           case Warn => f.severity == Warning && !f.stopRequested
           case Enforce =>
             if event.what.strength in policy.blockingStrengths then f.severity == Error && f.stopRequested
             else f.severity == Info && !f.stopRequested
           case _ => f.severity == Info && !f.stopRequested)
  }

  ghost predicate AllGraded(policy: Policy, trace: seq<Event>) {
    forall event | event in trace :: Graded(policy, event)
  }

  lemma {:induction false} PlayGraded(policy: Policy, trace: seq<Event>, steps: seq<Step>)
    requires AllGraded(policy, trace)
    ensures AllGraded(policy, Play(policy, trace, steps))
  {
    if steps != [] {
      PlayGraded(policy, trace, steps[..|steps| - 1]);
      AfterGraded(policy, Play(policy, trace, steps[..|steps| - 1]), steps[|steps| - 1]);
    }
  }

  lemma AfterGraded(policy: Policy, trace: seq<Event>, step: Step)
    requires AllGraded(policy, trace)
    ensures AllGraded(policy, After(policy, trace, step))
  {
    hide Seen;
  }

  /** A finding in a list is the finding of some request in the history. */
  lemma {:induction false} FoundComes(trace: seq<Event>, f: Finding)
    requires f in Found(trace)
    ensures exists event | event in trace :: event.Violation? && event.finding == Some(f)
  {
    var n := |trace| - 1;
    if f in Found(trace[..n]) {
      FoundComes(trace[..n], f);
      var event :| event in trace[..n] && event.Violation? && event.finding == Some(f);
      assert event in trace;
    } else {
      assert trace[n] in trace;
    }
  }

  /** Over any history: outside enforcement nothing blocks, warnings are warnings and
      records are information; in enforcement a finding blocks exactly when it was asked
      for with a blocking strength, whatever the set of those. */
  ghost predicate ModeObeyed(policy: Policy, trace: seq<Event>, findings: seq<Finding>) {
    && (policy.mode == Off ==> findings == [])
    && (policy.mode == Record ==> forall f | f in findings :: f.severity == Info && !f.Blocking())
    && (policy.mode == Warn ==> forall f | f in findings :: f.severity == Warning && !f.Blocking())
    && (policy.mode == Enforce ==> forall f | f in findings :: AskedAs(policy, trace, f))
  }

  ghost predicate AskedAs(policy: Policy, trace: seq<Event>, f: Finding) {
    exists event | event in trace :: event.Violation? && event.finding == Some(f)
      && f.rule == event.what.rule && f.category == event.what.category
      && (f.Blocking() <==> event.what.strength in policy.blockingStrengths)
      && (f.severity == Error <==> f.Blocking()) && (f.severity == Info <==> !f.Blocking())
  }

  lemma HistoryObeysMode(policy: Policy, trace: seq<Event>, findings: seq<Finding>)
    requires AllGraded(policy, trace) && forall f | f in findings :: f in Found(trace)
    ensures ModeObeyed(policy, trace, findings)
    ensures policy.mode != Enforce ==> !AnyBlocking(findings)
  {
    assert findings == [] || findings[0] in findings;
    forall f | f in findings
      ensures exists event | event in trace :: event.Violation? && event.finding == Some(f) && Graded(policy, event)
    {
      FoundComes(trace, f);
    }
  }

  /** A key stays seen until it is re-armed. */
  lemma {:induction false} SeenUntilRearmed(trace: seq<Event>, i: nat, j: nat)
    requires i < j <= |trace| && trace[i].Violation? && trace[i].finding.Some?
    requires KeyOf(trace[i].what) !in REARMED || forall m | i < m < j :: !trace[m].Rearmed?
    ensures KeyOf(trace[i].what) in Seen(trace[..j])
  {
    assert trace[..j][..j - 1] == trace[..j - 1];
    if i + 1 < j { SeenUntilRearmed(trace, i, j - 1); }
  }

  /** With deduplication a key is found twice only when it is one of the three that
      depend on the operating point and they were re-armed in between. */
  lemma FoundAgainOnlyAfterRearm(policy: Policy, trace: seq<Event>, i: nat, j: nat)
    requires Lawful(policy, trace) && policy.deduplicate && i < j < |trace|
    requires trace[i].Violation? && trace[i].finding.Some? && trace[j].Violation? && trace[j].finding.Some?
    requires KeyOf(trace[i].what) == KeyOf(trace[j].what)
    ensures KeyOf(trace[i].what) in REARMED && exists m | i < m < j :: trace[m].Rearmed?
  {
    if KeyOf(trace[i].what) !in REARMED || forall m | i < m < j :: !trace[m].Rearmed? {
      SeenUntilRearmed(trace, i, j);
      assert false;
    }
  }

  /** And the other way round: a violation is silent only when its key was found
      before and, if it depends on the operating point, not re-armed since. */
  lemma {:induction false} SilentOnlyIfSeen(trace: seq<Event>, key: Key, j: nat)
    requires j <= |trace| && key in Seen(trace[..j])
    ensures exists i | 0 <= i < j :: trace[i].Violation? && KeyOf(trace[i].what) == key && trace[i].finding.Some?
              && (key in REARMED ==> forall m | i < m < j :: !trace[m].Rearmed?)
  {
    assert trace[..j][..j - 1] == trace[..j - 1];
    var last := trace[j - 1];
    if !(last.Violation? && last.finding.Some? && KeyOf(last.what) == key) {
      SilentOnlyIfSeen(trace, key, j - 1);
      var i :| 0 <= i < j - 1 && trace[i].Violation? && KeyOf(trace[i].what) == key && trace[i].finding.Some?
               && (key in REARMED ==> forall m | i < m < j - 1 :: !trace[m].Rearmed?);
      assert key in REARMED ==> !last.Rearmed?;
    }
  }

  // ---------------------------------------------------------------------- the counters

  /** The requests of one rule among the steps. */
  function Asked(steps: seq<Step>, rule: Rule): set<nat> {
    set k: nat | k < |steps| && steps[k].Do? && steps[k].what.rule == rule
  }

  function AllAsked(steps: seq<Step>): set<nat> {
    set k: nat | k < |steps| && steps[k].Do?
  }

  lemma AskedMore(steps: seq<Step>, rule: Rule)
    requires steps != []
    ensures var n, last := |steps| - 1, steps[|steps| - 1];
      && |Asked(steps, rule)| == |Asked(steps[..n], rule)| + (if last.Do? && last.what.rule == rule then 1 else 0)
      && |AllAsked(steps)| == |AllAsked(steps[..n])| + (if last.Do? then 1 else 0)
  {
    var n: nat := |steps| - 1;
    var first := steps[..n];
    assert forall k: nat | k < n :: first[k] == steps[k];
    var some, all := Asked(first, rule), AllAsked(first);
    forall k: nat ensures k in Asked(steps, rule) <==> k in some || (k == n && steps[n].Do? && steps[n].what.rule == rule) {}
    forall k: nat ensures k in AllAsked(steps) <==> k in all || (k == n && steps[n].Do?) {}
    assert n !in some && n !in all;
    Added(some, Asked(steps, rule), n, steps[n].Do? && steps[n].what.rule == rule);
    Added(all, AllAsked(steps), n, steps[n].Do?);
  }

  lemma Added(before: set<nat>, after: set<nat>, n: nat, joins: bool)
    requires n !in before && forall k: nat :: k in after <==> k in before || (k == n && joins)
    ensures |after| == |before| + (if joins then 1 else 0)
  {
    assert after == if joins then before + {n} else before;
  }

  /** Every request counts as a violation, found anew or not, unless the monitor is off. */
  lemma {:induction false} PlayCounts(policy: Policy, trace: seq<Event>, steps: seq<Step>, rule: Rule)
    ensures policy.mode != Off ==>
      && Violations(Play(policy, trace, steps), rule) == Violations(trace, rule) + |Asked(steps, rule)|
      && AllViolations(Play(policy, trace, steps)) == AllViolations(trace) + |AllAsked(steps)|
    ensures policy.mode == Off ==> AllViolations(Play(policy, trace, steps)) == AllViolations(trace)
  {
    if steps == [] {
      assert Asked(steps, rule) == {} && AllAsked(steps) == {};
    } else {
      hide *;
      var n := |steps| - 1;
      PlayCounts(policy, trace, steps[..n], rule);
      AskedMore(steps, rule);
      PlayLast(policy, trace, steps);
      OneMoreCounts(policy, Play(policy, trace, steps[..n]), steps[n], rule);
    }
  }

  lemma PlayLast(policy: Policy, trace: seq<Event>, steps: seq<Step>)
    requires steps != []
    ensures Play(policy, trace, steps) == After(policy, Play(policy, trace, steps[..|steps| - 1]), steps[|steps| - 1])
  {}

  lemma OneMoreCounts(policy: Policy, trace: seq<Event>, step: Step, rule: Rule)
    ensures var after, asked := After(policy, trace, step), policy.mode != Off && step.Do?;
      && Violations(after, rule) == Violations(trace, rule) + (if asked && step.what.rule == rule then 1 else 0)
      && AllViolations(after) == AllViolations(trace) + (if asked then 1 else 0)
  {
    hide Seen; hide Judge;
    var after := After(policy, trace, step);
    if after != trace { assert after[..|trace|] == trace; }
  }

  type Counter = map<Rule, nat>

  function Bump(counts: Counter, rule: Rule): Counter {
    counts[rule := (if rule in counts then counts[rule] else 0) + 1]
  }

  ghost function Sum<K(!new)>(counts: map<K, nat>): nat {
    if counts == map[] then 0
    else var rule :| rule in counts; counts[rule] + Sum(counts - {rule})
  }

  lemma {:induction false} SumTakesAny<K(!new)>(counts: map<K, nat>, rule: K)
    requires rule in counts
    ensures Sum(counts) == counts[rule] + Sum(counts - {rule})
    decreases |counts|
  {
    var first :| first in counts && Sum(counts) == counts[first] + Sum(counts - {first});
    if first != rule {
      SumTakesAny(counts - {first}, rule);
      SumTakesAny(counts - {rule}, first);
      assert counts - {first} - {rule} == counts - {rule} - {first};
    }
  }

  lemma SumBump(counts: Counter, rule: Rule)
    ensures Sum(Bump(counts, rule)) == Sum(counts) + 1
  {
    var bumped := Bump(counts, rule);
    SumTakesAny(bumped, rule);
    assert bumped - {rule} == counts - {rule};
    if rule in counts {
      SumTakesAny(counts, rule);
    } else {
      assert counts - {rule} == counts;
    }
  }

  // ------------------------------------------------------------------ the declaration

  datatype OperatingRange = OperatingRange(name: string, minimum: Option<real>, maximum: Option<real>,
                                           minimumExclusive: bool, maximumExclusive: bool)

  datatype Status = Declared | Unknown | DeclarationInvalid

  datatype Limit = Limit(name: string, value: Option<real>, strength: Strength)

  datatype Claim = Claim(status: Status, topology: string, ranges: seq<OperatingRange>, limits: seq<Limit>,
                         parameters: map<string, real>)

  /** The sources of the parameters, and which of them nobody has reviewed. */
  datatype Provenance = Provenance(status: Status, unreviewed: seq<string>)

  /** The first declaration of that name. */
  function LimitNamed(limits: seq<Limit>, name: string): (r: Option<Limit>)
    ensures r.None? <==> forall k | 0 <= k < |limits| :: limits[k].name != name
    ensures r.Some? ==> exists k | 0 <= k < |limits| ::
      limits[k] == r.value && r.value.name == name && forall j | 0 <= j < k :: limits[j].name != name
  {
    if limits == [] then None
    else if limits[0].name == name then Some(limits[0])
    else LimitNamed(limits[1..], name)
  }

  function Slack(bound: real, tolerance: real): real {
    tolerance * Max(1.0, Abs(bound))
  }

  predicate Contains(range: OperatingRange, value: real, tolerance: real) {
    && (range.minimum.Some? ==>
         var low := range.minimum.value - Slack(range.minimum.value, tolerance);
         if range.minimumExclusive then value > low else value >= low)
    && (range.maximum.Some? ==>
         var high := range.maximum.value + Slack(range.maximum.value, tolerance);
         if range.maximumExclusive then value < high else value <= high)
  }

  /** The first declaration of that name. */
  function RangeNamed(ranges: seq<OperatingRange>, name: string): (r: Option<OperatingRange>)
    ensures r.None? <==> forall k | 0 <= k < |ranges| :: ranges[k].name != name
    ensures r.Some? ==> exists k | 0 <= k < |ranges| ::
      ranges[k] == r.value && r.value.name == name && forall j | 0 <= j < k :: ranges[j].name != name
  {
    if ranges == [] then None
    else if ranges[0].name == name then Some(ranges[0])
    else RangeNamed(ranges[1..], name)
  }

  /** The declared bounds do not cross. */
  predicate Ordered(range: OperatingRange) {
    range.minimum.Some? && range.maximum.Some? ==> range.minimum.value <= range.maximum.value
  }

  /** By how much the value may pass a bound: the tolerance for a bound of at most one,
      that share of a larger one. */
  predicate Passes(bound: real, exclusive: bool, excess: real, tolerance: real) {
    var allowed := if -1.0 <= bound <= 1.0 then tolerance else if bound > 0.0 then tolerance * bound else tolerance * -bound;
    excess > allowed || (exclusive && excess == allowed)
  }

  /** The value is past one of the bounds. */
  predicate Beyond(range: OperatingRange, value: real, tolerance: real) {
    || (range.minimum.Some? && Passes(range.minimum.value, range.minimumExclusive, range.minimum.value - value, tolerance))
    || (range.maximum.Some? && Passes(range.maximum.value, range.maximumExclusive, value - range.maximum.value, tolerance))
  }

  lemma BeyondIffOutside(range: OperatingRange, value: real, tolerance: real)
    ensures Beyond(range, value, tolerance) <==> !Contains(range, value, tolerance)
  {
    if range.minimum.Some? {
      PassesMeans(range.minimum.value, range.minimumExclusive, range.minimum.value - value, tolerance);
    }
    if range.maximum.Some? {
      PassesMeans(range.maximum.value, range.maximumExclusive, value - range.maximum.value, tolerance);
    }
    hide Slack; hide Passes;
  }

  lemma PassesMeans(bound: real, exclusive: bool, excess: real, tolerance: real)
    ensures Passes(bound, exclusive, excess, tolerance)
       <==> excess > Slack(bound, tolerance) || (exclusive && excess == Slack(bound, tolerance))
  {}

  /** An exclusive bound is itself inside exactly when there is any tolerance. */
  lemma ExclusiveBoundInsideIff(range: OperatingRange, tolerance: real)
    requires Ordered(range) && tolerance >= 0.0
    ensures range.minimum.Some? && range.minimumExclusive ==>
      (Contains(range, range.minimum.value, tolerance) <==> tolerance > 0.0)
    ensures range.maximum.Some? && range.maximumExclusive ==>
      (Contains(range, range.maximum.value, tolerance) <==> tolerance > 0.0)
  {
    if range.minimum.Some? { SlackNonNegative(range.minimum.value, tolerance); }
    if range.maximum.Some? { SlackNonNegative(range.maximum.value, tolerance); }
    hide Slack;
  }

  /** Within the slack below the lower bound, or on it where it is exclusive. */
  predicate JustBelow(range: OperatingRange, value: real, tolerance: real) {
    && range.minimum.Some?
    && var low := range.minimum.value - Slack(range.minimum.value, tolerance);
    && (if range.minimumExclusive then low < value else low <= value)
    && (if range.minimumExclusive then value <= range.minimum.value else value < range.minimum.value)
  }

  predicate JustAbove(range: OperatingRange, value: real, tolerance: real) {
    && range.maximum.Some?
    && var high := range.maximum.value + Slack(range.maximum.value, tolerance);
    && (if range.maximumExclusive then value < high else value <= high)
    && (if range.maximumExclusive then range.maximum.value <= value else range.maximum.value < value)
  }

  /** A tolerance takes nothing away and adds exactly the two rims. */
  lemma ToleranceAddsRims(range: OperatingRange, value: real, tolerance: real)
    requires Ordered(range) && tolerance >= 0.0
    ensures Contains(range, value, 0.0) ==> Contains(range, value, tolerance)
    ensures Contains(range, value, tolerance) && !Contains(range, value, 0.0)
       <==> JustBelow(range, value, tolerance) || JustAbove(range, value, tolerance)
  {
    if range.minimum.Some? { SlackNonNegative(range.minimum.value, tolerance); }
    if range.maximum.Some? { SlackNonNegative(range.maximum.value, tolerance); }
    hide Slack;
  }

  lemma SlackNonNegative(bound: real, tolerance: real)
    requires tolerance >= 0.0
    ensures Slack(bound, tolerance) >= 0.0 && Slack(bound, 0.0) == 0.0
    ensures tolerance > 0.0 ==> Slack(bound, tolerance) > 0.0
  {
    var scale := Max(1.0, Abs(bound));
    assert scale >= 1.0 && tolerance * scale >= tolerance * 1.0;
  }

  // --------------------------------------------------------------- what a check raises

  function RangeSteps(claim: Claim, policy: Policy, range: string, value: Option<real>, rule: Rule, variable: string): seq<Step> {
    var declared := RangeNamed(claim.ranges, range);
    if value.None? || declared.None? || Contains(declared.value, value.value, policy.tolerance) then []
    else [Do(Raise(rule, "out_of_envelope", Named(variable), Hard))]
  }

  datatype Ccm = Silent | Continuous | Discontinuous

  /** The continuous-conduction estimate at one operating point. */
  function EstimateCcm(claim: Claim, vin: Option<real>, load: Option<real>, duty: Option<real>): Ccm {
    if vin.None? || load.None? || duty.None? then Silent
    else if "switching_frequency_hz" !in claim.parameters || "inductance_h" !in claim.parameters then Silent
    else
      var f, l := claim.parameters["switching_frequency_hz"], claim.parameters["inductance_h"];
      if f <= 0.0 || l <= 0.0 || load.value <= 0.0 then Silent
      else if claim.topology == "buck" then
        if !(0.0 <= duty.value <= 1.0) then Silent
        else
          Positive(l, f);
          Verdict(BuckAverage(vin.value, duty.value, load.value), BuckRipple(vin.value, duty.value, l, f))
      else if claim.topology == "boost" then
        if !(0.0 <= duty.value < 1.0) then Silent
        else
          var off := 1.0 - duty.value;
          Positive(l, f);
          Positive(off, load.value);
          Positive(off, off * load.value);
          Verdict(BoostAverage(vin.value, off, load.value), BoostRipple(vin.value, duty.value, l, f))
      else Silent
  }

  lemma Positive(a: real, b: real)
    requires a > 0.0 && b > 0.0
    ensures a * b > 0.0
  {}

  function Verdict(average: real, ripple: real): Ccm {
    if average >= 0.5 * ripple then Continuous else Discontinuous
  }

  function BuckAverage(vin: real, duty: real, load: real): real
    requires load > 0.0
  {
    duty * vin / load
  }

  function BuckRipple(vin: real, duty: real, l: real, f: real): real
    requires l * f > 0.0
  {
    vin * duty * (1.0 - duty) / (l * f)
  }

  /** `off` is `1 - D`. */
  function BoostAverage(vin: real, off: real, load: real): real
    requires off * (off * load) > 0.0
  {
    vin / (off * (off * load))
  }

  function BoostRipple(vin: real, duty: real, l: real, f: real): real
    requires l * f > 0.0
  {
    vin * duty / (l * f)
  }

  lemma QuotientsCompare(a: real, b: real, c: real, d: real)
    requires b > 0.0 && d > 0.0
    ensures a / b >= c / d <==> a * d >= c * b
  {
    var x, y := a / b, c / d;
    assert a == x * b && c == y * d;
    assert a * d == x * (b * d) && c * b == y * (b * d);
    Positive(b, d);
    Scaled(x, y, b * d);
  }

  lemma Scaled(x: real, y: real, k: real)
    requires k > 0.0
    ensures x >= y <==> x * k >= y * k
  {
    if x >= y { assert (x - y) * k >= 0.0; } else { assert (y - x) * k > 0.0; }
  }

  /** A conducting buck stays continuous exactly when `2*L*f/R >= 1 - D`. */
  lemma BuckBoundary(vin: real, duty: real, load: real, l: real, f: real)
    requires vin > 0.0 && 0.0 < duty <= 1.0 && load > 0.0 && l > 0.0 && f > 0.0 && l * f > 0.0
    ensures Verdict(BuckAverage(vin, duty, load), BuckRipple(vin, duty, l, f)) == Continuous
       <==> 2.0 * (l * f) >= (1.0 - duty) * load
  {
    var drive, lf := duty * vin, l * f;
    Positive(duty, vin);
    assert vin * duty * (1.0 - duty) == drive * (1.0 - duty);
    HalfQuotient(drive * (1.0 - duty), lf);
    QuotientsCompare(drive, load, drive * (1.0 - duty), 2.0 * lf);
    assert drive * (1.0 - duty) * load == (1.0 - duty) * load * drive;
    assert drive * (2.0 * lf) == 2.0 * lf * drive;
    Scaled(2.0 * lf, (1.0 - duty) * load, drive);
  }

  /** A boost stays continuous exactly when `2*L*f/R >= D*(1 - D)^2`. */
  lemma BoostBoundary(vin: real, duty: real, load: real, l: real, f: real, off: real)
    requires vin > 0.0 && 0.0 <= duty < 1.0 && l * f > 0.0
    requires off == 1.0 - duty && off * (off * load) > 0.0
    ensures Verdict(BoostAverage(vin, off, load), BoostRipple(vin, duty, l, f)) == Continuous
       <==> 2.0 * (l * f) >= duty * (off * (off * load))
  {
    BoostCompare(vin, duty, l * f, off * (off * load));
  }

  lemma BoostCompare(vin: real, duty: real, lf: real, r: real)
    requires vin > 0.0 && lf > 0.0 && r > 0.0
    ensures vin / r >= 0.5 * (vin * duty / lf) <==> 2.0 * lf >= duty * r
  {
    HalfQuotient(vin * duty, lf);
    QuotientsCompare(vin, r, vin * duty, 2.0 * lf);
    assert vin * duty * r == duty * r * vin;
    assert vin * (2.0 * lf) == 2.0 * lf * vin;
    Scaled(2.0 * lf, duty * r, vin);
  }

  lemma HalfQuotient(a: real, b: real)
    requires b > 0.0
    ensures 0.5 * (a / b) == a / (2.0 * b)
  {
    var q := a / b;
    assert a == q * b;
    assert 0.5 * q * (2.0 * b) == a;
  }

  function CcmSteps(claim: Claim, vin: Option<real>, load: Option<real>, duty: Option<real>): seq<Step> {
    if EstimateCcm(claim, vin, load, duty) == Discontinuous
    then [Do(Raise(CcmBoundary, "ccm_boundary_violated", Named("duty"), Advisory))] else []
  }

  type Signature = (Option<real>, Option<real>)

  function ExternalSteps(policy: Policy, last: Option<Signature>, now: Signature): seq<Step> {
    if policy.checkExternalInputs && last.Some? && last.value != now
    then [Do(Raise(ExternalChanged, "external_input_changed", Named("external"), Advisory)), Rearm]
    else []
  }

  function ObservationSteps(claim: Claim, policy: Policy, last: Option<Signature>, vin: Option<real>, load: Option<real>,
                            duty: Option<real>): seq<Step> {
    if !policy.stepChecks || claim.status != Declared then []
    else
      ExternalSteps(policy, last, (vin, load))
      + RangeSteps(claim, policy, "input_voltage_v", vin, VinDomain, "input_voltage_v")
      + RangeSteps(claim, policy, "load_resistance_ohm", load, LoadDomain, "load_resistance_ohm")
      + CcmSteps(claim, vin, load, duty)
  }

  const EDGE := 0.000000000000001

  function ActionSteps(claim: Claim, policy: Policy, action: Option<real>): seq<Step> {
    if !policy.stepChecks || claim.status != Declared || action.None? then []
    else
      RangeSteps(claim, policy, "duty", action, DutyDomain, "duty") + ResolutionSteps(claim, action.value)
  }

  function ResolutionSteps(claim: Claim, duty: real): seq<Step> {
    if PulseTooShort(claim, duty)
    then [Do(Raise(DutyResolution, "pulse_width_below_template_resolution", Named("duty_resolution"), Advisory))]
    else []
  }

  predicate PulseTooShort(claim: Claim, duty: real) {
    && "switching_period_s" in claim.parameters && "pulse_edge_s" in claim.parameters
    && 0.0 < duty < 1.0
    && duty * claim.parameters["switching_period_s"] + EDGE < 2.0 * claim.parameters["pulse_edge_s"]
  }

  // ----------------------------------------------------------------------- preflight

  /** One entry of an input schedule: what it sets, `None` where that is no number. */
  type ScheduleItem = map<string, Option<real>>

  function ValueSteps(claim: Claim, policy: Policy, index: nat, item: ScheduleItem, key: string,
                      range: string, rule: Rule, category: string): seq<Step> {
    if key !in item then []
    else if item[key].None? then [Do(Raise(ScheduleInvalid, category, Scheduled(index, key), Hard))]
    else RangeSteps(claim, policy, range, item[key], rule, range)
  }

  function ItemSteps(claim: Claim, policy: Policy, index: nat, item: ScheduleItem): seq<Step> {
    ValueSteps(claim, policy, index, item, "vin_v", "input_voltage_v", VinDomain, "invalid_schedule_value")
    + ValueSteps(claim, policy, index, item, "input_voltage_v", "input_voltage_v", VinDomain, "invalid_schedule_value")
    + ValueSteps(claim, policy, index, item, "load_ohm", "load_resistance_ohm", LoadDomain, "invalid_schedule_value")
    + ValueSteps(claim, policy, index, item, "load_resistance_ohm", "load_resistance_ohm", LoadDomain, "invalid_schedule_value")
  }

  function ScheduleSteps(claim: Claim, policy: Policy, schedule: seq<ScheduleItem>): seq<Step> {
    if schedule == [] then []
    else
      var n := |schedule| - 1;
      ScheduleSteps(claim, policy, schedule[..n]) + ItemSteps(claim, policy, n, schedule[n])
  }

  function ActuatorSteps(claim: Claim, policy: Policy, bounds: Option<(real, real)>): seq<Step> {
    if bounds.None? then []
    else
      var declared := RangeNamed(claim.ranges, "duty");
      if declared.None? then
        [Do(Raise(ActuatorUndeclared, "actuator_undeclared", Named("duty"), Advisory))]
      else if Contains(declared.value, bounds.value.0, policy.tolerance) && Contains(declared.value, bounds.value.1, policy.tolerance)
      then []
      else [Do(Raise(ActuatorSubset, "actuator_outside_envelope", Named("duty"), Hard))]
  }

  const SHORT := 0.000000001

  /** A limit with a value and the parameter it is about are both declared. */
  predicate Limited(claim: Claim, parameter: string, limit: string) {
    parameter in claim.parameters && LimitNamed(claim.limits, limit).Some? && LimitNamed(claim.limits, limit).value.value.Some?
  }

  function LimitStrength(claim: Claim, limit: string): Strength {
    match LimitNamed(claim.limits, limit) case None => Advisory case Some(l) => l.strength
  }

  /** The parameter falls short of a declared minimum. */
  predicate Short(claim: Claim, parameter: string, limit: string) {
    Limited(claim, parameter, limit)
    && claim.parameters[parameter] + SHORT < LimitNamed(claim.limits, limit).value.value.value
  }

  const STEP := "integration_step_s"
  const SUBSTEPS := "control_period.min_integration_substeps"
  const STEP_LIMIT := "integration_step_s.max"
  const RATIO_LIMIT := "control_period.min_switching_periods"
  const SAMPLES_LIMIT := "samples_per_switching_period.min"
  const LOAD_LIMIT := "load.min_off_resistance_ratio"

  predicate StepTooLong(claim: Claim, policy: Policy) {
    Limited(claim, STEP, STEP_LIMIT)
    && claim.parameters[STEP] > LimitNamed(claim.limits, STEP_LIMIT).value.value.value * (1.0 + policy.tolerance)
  }

  /** Counting substeps divides by a step of zero. */
  predicate StepZero(claim: Claim) {
    Limited(claim, STEP, SUBSTEPS) && claim.parameters[STEP] == 0.0
  }

  predicate TooFewSubsteps(claim: Claim, control: real) {
    Limited(claim, STEP, SUBSTEPS) && claim.parameters[STEP] != 0.0
    && control / claim.parameters[STEP] + SHORT < LimitNamed(claim.limits, SUBSTEPS).value.value.value
  }

  function IfSo(asked: bool, r: Raise): seq<Step> { if asked then [Do(r)] else [] }

  function LimitRaise(claim: Claim, rule: Rule, category: string, variable: string, limit: string): Raise {
    Raise(rule, category, Named(variable), LimitStrength(claim, limit))
  }

  /** The first three comparisons, and the two after them. */
  function EarlySteps(claim: Claim, policy: Policy): seq<Step> {
    IfSo(Short(claim, "switching_periods_per_control_period", RATIO_LIMIT),
         LimitRaise(claim, SwitchingPeriods, "control_period_too_short", "control_period", RATIO_LIMIT))
    + IfSo(Short(claim, "samples_per_switching_period", SAMPLES_LIMIT),
           LimitRaise(claim, SampleResolution, "insufficient_sample_resolution", "sample_resolution", SAMPLES_LIMIT))
    + IfSo(StepTooLong(claim, policy),
           LimitRaise(claim, TimestepDynamics, "integration_step_too_large", "integration_step", STEP_LIMIT))
  }

  function LateSteps(claim: Claim, control: real): seq<Step> {
    IfSo(TooFewSubsteps(claim, control),
         LimitRaise(claim, Substeps, "insufficient_integration_substeps", "control_period", SUBSTEPS))
    + IfSo(Short(claim, "load_off_resistance_ratio", LOAD_LIMIT),
           LimitRaise(claim, OffResistance, "load_too_close_to_switch_off_resistance", "load_ratio", LOAD_LIMIT))
  }

  /** `control` is the control period of the run's timebase, if it has one. */
  function TimebaseSteps(claim: Claim, policy: Policy, control: Option<real>): seq<Step> {
    if control.None? then []
    else EarlySteps(claim, policy) + if StepZero(claim) then [] else LateSteps(claim, control.value)
  }

  function Demand(required: bool): Strength { if required then Hard else Advisory }

  function ProvenanceSteps(policy: Policy, provenance: Provenance): seq<Step> {
    match provenance.status
    case DeclarationInvalid =>
      [Do(Raise(ProvenanceUnreadable, "parameter_provenance_invalid", Named("provenance"), Demand(policy.requireProvenance)))]
    case Unknown =>
      [Do(Raise(ProvenanceUnknown, "parameter_provenance_unknown", Named("provenance"), Demand(policy.requireProvenance)))]
    case Declared => UnreviewedSteps(provenance.unreviewed)
  }

  function UnreviewedSteps(names: seq<string>): seq<Step> {
    if names == [] then []
    else
      UnreviewedSteps(names[..|names| - 1])
      + [Do(Raise(Unreviewed, "parameter_unreviewed", Named(names[|names| - 1]), Advisory))]
  }

  /** A least number of substeps is declared and the integration step is zero. */
  predicate DividesByZero(claim: Claim) {
    && "integration_step_s" in claim.parameters && claim.parameters["integration_step_s"] == 0.0
    && LimitNamed(claim.limits, "control_period.min_integration_substeps").Some?
    && LimitNamed(claim.limits, "control_period.min_integration_substeps").value.value.Some?
  }

  lemma StepZeroMeans(claim: Claim)
    ensures StepZero(claim) <==> DividesByZero(claim)
  {
    hide LimitNamed;
  }

  /** The check raises an exception instead of making a report. */
  predicate PreflightStops(claim: Claim, policy: Policy, control: Option<real>) {
    policy.preflightChecks && claim.status == Declared && control.Some? && DividesByZero(claim)
  }

  function DeclaredSteps(claim: Claim, policy: Policy, provenance: Provenance, bounds: Option<(real, real)>,
                         schedule: seq<ScheduleItem>, control: Option<real>): seq<Step> {
    ActuatorSteps(claim, policy, bounds) + ScheduleSteps(claim, policy, schedule) + TimebaseSteps(claim, policy, control)
    + if control.Some? && StepZero(claim) then [] else ProvenanceSteps(policy, provenance)
  }

  function PreflightSteps(claim: Claim, policy: Policy, provenance: Provenance, bounds: Option<(real, real)>,
                          schedule: seq<ScheduleItem>, control: Option<real>): seq<Step> {
    if !policy.preflightChecks then []
    else
      match claim.status
      case Unknown =>
        [Do(Raise(DeclarationUnknown, "envelope_undeclared", Named("claim"), Demand(policy.requireEnvelope)))]
      case DeclarationInvalid =>
        [Do(Raise(DeclarationUnreadable, "envelope_declaration_invalid", Named("claim"), Demand(policy.requireEnvelope)))]
      case Declared => DeclaredSteps(claim, policy, provenance, bounds, schedule, control)
  }

  // ------------------------------------------------------------------------ the monitor

  datatype Report = Report(passed: bool, findings: seq<Finding>)

  function Concat(reports: seq<Report>): seq<Finding> {
    if reports == [] then [] else Concat(reports[..|reports| - 1]) + reports[|reports| - 1].findings
  }

  predicate AnyBlocking(findings: seq<Finding>) {
    exists f | f in findings :: f.Blocking()
  }

  lemma {:induction false} SomeReportFailedIff(reports: seq<Report>)
    requires forall r | r in reports :: r.passed <==> !AnyBlocking(r.findings)
    ensures (exists r | r in reports :: !r.passed) <==> AnyBlocking(Concat(reports))
  {
    if reports != [] {
      var n := |reports| - 1;
      SomeReportFailedIff(reports[..n]);
      assert forall r :: r in reports <==> r in reports[..n] || r == reports[n];
      assert forall f :: f in Concat(reports) <==> f in Concat(reports[..n]) || f in reports[n].findings;
    }
  }

  // --------------------------------------------------------- when an observation fails

  /** A finding asked for with this strength stops the run. */
  predicate Stops(policy: Policy, strength: Strength) {
    policy.mode == Enforce && strength in policy.blockingStrengths
  }

  predicate OutOfRange(claim: Claim, policy: Policy, range: string, value: Option<real>) {
    && value.Some? && RangeNamed(claim.ranges, range).Some?
    && Beyond(RangeNamed(claim.ranges, range).value, value.value, policy.tolerance)
  }

  /** The buck's or the boost's inductor current reaches zero before the period ends. */
  predicate Discontinues(claim: Claim, vin: Option<real>, load: Option<real>, duty: Option<real>) {
    && vin.Some? && load.Some? && duty.Some?
    && "switching_frequency_hz" in claim.parameters && "inductance_h" in claim.parameters
    && var f, l, r, d, v := claim.parameters["switching_frequency_hz"], claim.parameters["inductance_h"], load.value,
                            duty.value, vin.value;
      && f > 0.0 && l > 0.0 && r > 0.0
      && (|| (claim.topology == "buck" && 0.0 <= d <= 1.0 && BuckRunsDry(v, d, r, l, f))
          || (claim.topology == "boost" && 0.0 <= d < 1.0 && BoostRunsDry(v, d, r, l, f)))
  }

  /** Without division: the average current is below half the ripple. */
  predicate BuckRunsDry(v: real, d: real, r: real, l: real, f: real) {
    d * v * (2.0 * (l * f)) < d * v * (1.0 - d) * r
  }

  predicate BoostRunsDry(v: real, d: real, r: real, l: real, f: real) {
    v * (2.0 * (l * f)) < v * d * ((1.0 - d) * ((1.0 - d) * r))
  }

  lemma EstimateMeans(claim: Claim, vin: Option<real>, load: Option<real>, duty: Option<real>)
    ensures EstimateCcm(claim, vin, load, duty) == Discontinuous <==> Discontinues(claim, vin, load, duty)
  {
    if vin.Some? && load.Some? && duty.Some?
       && "switching_frequency_hz" in claim.parameters && "inductance_h" in claim.parameters {
      var f, l, r := claim.parameters["switching_frequency_hz"], claim.parameters["inductance_h"], load.value;
      if f > 0.0 && l > 0.0 && r > 0.0 {
        hide BuckRunsDry; hide BoostRunsDry;
        Positive(l, f);
        BuckMeans(vin.value, duty.value, r, l, f);
        if duty.value < 1.0 { BoostMeans(vin.value, duty.value, r, l, f, 1.0 - duty.value); }
        hide Verdict; hide BuckAverage; hide BuckRipple; hide BoostAverage; hide BoostRipple;
      }
    }
  }

  lemma BuckMeans(v: real, d: real, r: real, l: real, f: real)
    requires r > 0.0 && l * f > 0.0
    ensures Verdict(BuckAverage(v, d, r), BuckRipple(v, d, l, f)) == Discontinuous <==> BuckRunsDry(v, d, r, l, f)
  {
    AverageCompares(d * v, r, v * d * (1.0 - d), l * f);
  }

  lemma BoostMeans(v: real, d: real, r: real, l: real, f: real, off: real)
    requires off == 1.0 - d && off > 0.0 && r > 0.0 && l * f > 0.0
    ensures off * (off * r) > 0.0
    ensures Verdict(BoostAverage(v, off, r), BoostRipple(v, d, l, f)) == Discontinuous <==> BoostRunsDry(v, d, r, l, f)
  {
    Positive(off, r);
    Positive(off, off * r);
    AverageCompares(v, off * (off * r), v * d, l * f);
  }

  lemma AverageCompares(a: real, b: real, c: real, d: real)
    requires b > 0.0 && d > 0.0
    ensures a / b >= 0.5 * (c / d) <==> a * (2.0 * d) >= c * b
  {
    HalfQuotient(c, d);
    QuotientsCompare(a, b, c, 2.0 * d);
  }

  const VIN_KEY := Key(VinDomain, Named("input_voltage_v"))
  const LOAD_KEY := Key(LoadDomain, Named("load_resistance_ohm"))
  const CCM_KEY := Key(CcmBoundary, Named("duty"))
  const EXTERNAL_KEY := Key(ExternalChanged, Named("external"))

  /** The operating point is checked and is another than last time. */
  predicate Moved(policy: Policy, last: Option<Signature>, vin: Option<real>, load: Option<real>) {
    policy.checkExternalInputs && last.Some? && last.value != (vin, load)
  }

  /** What an observation fails for.  The ranges and the conduction boundary are said anew
      once the operating point has moved; that it has is said once. */
  predicate Breached(claim: Claim, policy: Policy, trace: seq<Event>, last: Option<Signature>, vin: Option<real>,
                     load: Option<real>, duty: Option<real>) {
    && policy.stepChecks && claim.status == Declared
    && var moved := Moved(policy, last, vin, load);
      || (Stops(policy, Hard) && OutOfRange(claim, policy, "input_voltage_v", vin)
          && Unsaid(policy, trace, moved, Key(VinDomain, Named("input_voltage_v"))))
      || (Stops(policy, Hard) && OutOfRange(claim, policy, "load_resistance_ohm", load)
          && Unsaid(policy, trace, moved, Key(LoadDomain, Named("load_resistance_ohm"))))
      || (Stops(policy, Advisory) && Discontinues(claim, vin, load, duty)
          && Unsaid(policy, trace, moved, Key(CcmBoundary, Named("duty"))))
      || (Stops(policy, Advisory) && moved && Unsaid(policy, trace, false, Key(ExternalChanged, Named("external"))))
  }

  predicate Unsaid(policy: Policy, trace: seq<Event>, moved: bool, key: Key) {
    !policy.deduplicate || moved || key !in Seen(trace)
  }

  lemma DoFinds(policy: Policy, trace: seq<Event>, r: Raise)
    requires policy.mode != Off
    ensures var silent, after := policy.deduplicate && KeyOf(r) in Seen(trace), Play(policy, trace, [Do(r)]);
      && Found(after) == Found(trace) + (if silent then [] else [Judge(policy, r)])
      && Seen(after) == if silent then Seen(trace) else Seen(trace) + {KeyOf(r)}
  {
    PlayOne(policy, trace, Do(r));
  }

  /** One request finds something that blocks exactly when it was made, its strength stops
      and its key is not standing. */
  lemma AskFinds(policy: Policy, trace: seq<Event>, asked: bool, r: Raise) returns (extra: seq<Finding>)
    ensures var after := Play(policy, trace, IfSo(asked, r));
      && Found(after) == Found(trace) + extra
      && (AnyBlocking(extra) <==> asked && Stops(policy, r.strength) && Unsaid(policy, trace, false, KeyOf(r)))
      && forall k | k != KeyOf(r) :: k in Seen(after) <==> k in Seen(trace)
  {
    extra := [];
    PlayNothing(policy, trace);
    PlayOne(policy, trace, Do(r));
    if asked && policy.mode != Off {
      DoFinds(policy, trace, r);
      if Unsaid(policy, trace, false, KeyOf(r)) {
        extra := [Judge(policy, r)];
        assert extra[0] in extra;
      }
    }
  }

  lemma RangeFinds(claim: Claim, policy: Policy, trace: seq<Event>, range: string, value: Option<real>, rule: Rule,
                   variable: string) returns (extra: seq<Finding>)
    ensures var key, after := Key(rule, Named(variable)), Play(policy, trace, RangeSteps(claim, policy, range, value, rule, variable));
      && Found(after) == Found(trace) + extra
      && (AnyBlocking(extra) <==>
           Stops(policy, Hard) && OutOfRange(claim, policy, range, value) && Unsaid(policy, trace, false, key))
      && forall k | k != key :: k in Seen(after) <==> k in Seen(trace)
  {
    RangeIsAsk(claim, policy, range, value, rule, variable);
    hide *;
    extra := AskFinds(policy, trace, OutOfRange(claim, policy, range, value), Raise(rule, "out_of_envelope", Named(variable), Hard));
  }

  lemma RangeIsAsk(claim: Claim, policy: Policy, range: string, value: Option<real>, rule: Rule, variable: string)
    ensures var r := Raise(rule, "out_of_envelope", Named(variable), Hard);
      && RangeSteps(claim, policy, range, value, rule, variable) == IfSo(OutOfRange(claim, policy, range, value), r)
      && KeyOf(r) == Key(rule, Named(variable)) && r.strength == Hard
  {
    if value.Some? && RangeNamed(claim.ranges, range).Some? {
      BeyondIffOutside(RangeNamed(claim.ranges, range).value, value.value, policy.tolerance);
    }
    hide Contains; hide Beyond;
  }

  /** A moved operating point is said and re-arms the keys that depend on it. */
  lemma ExternalFinds(policy: Policy, trace: seq<Event>, last: Option<Signature>, now: Signature) returns (extra: seq<Finding>)
    ensures var moved := Moved(policy, last, now.0, now.1);
      var after := Play(policy, trace, ExternalSteps(policy, last, now));
      && Found(after) == Found(trace) + extra
      && (AnyBlocking(extra) <==> Stops(policy, Advisory) && moved && Unsaid(policy, trace, false, EXTERNAL_KEY))
      && (VIN_KEY in Seen(after) <==> !moved && VIN_KEY in Seen(trace))
      && (LOAD_KEY in Seen(after) <==> !moved && LOAD_KEY in Seen(trace))
      && (CCM_KEY in Seen(after) <==> !moved && CCM_KEY in Seen(trace))
  {
    var change := Raise(ExternalChanged, "external_input_changed", Named("external"), Advisory);
    var moved := Moved(policy, last, now.0, now.1);
    extra := AskFinds(policy, trace, moved, change);
    PlayNothing(policy, trace);
    if moved {
      var told := Play(policy, trace, [Do(change)]);
      PlayAppend(policy, trace, [Do(change)], [Rearm]);
      PlayOne(policy, told, Rearm);
      assert [Do(change)] + [Rearm] == [Do(change), Rearm];
      RearmSees(told);
    }
  }

  lemma RearmSees(trace: seq<Event>)
    ensures Seen(trace + [Rearmed]) == Seen(trace) - REARMED && Found(trace + [Rearmed]) == Found(trace)
  {
    assert (trace + [Rearmed])[..|trace|] == trace;
  }

  lemma CcmFinds(claim: Claim, policy: Policy, trace: seq<Event>, vin: Option<real>, load: Option<real>, duty: Option<real>)
    returns (extra: seq<Finding>)
    ensures Found(Play(policy, trace, CcmSteps(claim, vin, load, duty))) == Found(trace) + extra
    ensures AnyBlocking(extra) <==>
      Stops(policy, Advisory) && Discontinues(claim, vin, load, duty) && Unsaid(policy, trace, false, CCM_KEY)
  {
    EstimateMeans(claim, vin, load, duty);
    var boundary := Raise(CcmBoundary, "ccm_boundary_violated", Named("duty"), Advisory);
    assert CcmSteps(claim, vin, load, duty) == IfSo(Discontinues(claim, vin, load, duty), boundary);
    assert KeyOf(boundary) == CCM_KEY && boundary.strength == Advisory;
    hide *;
    extra := AskFinds(policy, trace, Discontinues(claim, vin, load, duty), boundary);
  }

  lemma Cancel<T>(a: seq<T>, b: seq<T>, c: seq<T>)
    ensures a + b == a + c ==> b == c
  {
    assert b == (a + b)[|a|..] && c == (a + c)[|a|..];
  }

  lemma BlockingJoins(a: seq<Finding>, b: seq<Finding>)
    ensures AnyBlocking(a + b) <==> AnyBlocking(a) || AnyBlocking(b)
  {
    assert forall f :: f in a + b <==> f in a || f in b;
  }

  /** Under every policy an observation's new findings block exactly when it is `Breached`:
      by what is asked for with a strength that stops the run, and newly so. */
  lemma ObservationFailsIff(claim: Claim, policy: Policy, trace: seq<Event>, last: Option<Signature>,
                            vin: Option<real>, load: Option<real>, duty: Option<real>) returns (found: seq<Finding>)
    ensures Found(Play(policy, trace, ObservationSteps(claim, policy, last, vin, load, duty))) == Found(trace) + found
    ensures AnyBlocking(found) <==> Breached(claim, policy, trace, last, vin, load, duty)
  {
    NoObservation(claim, policy, trace, last, vin, load, duty);
    BreachedMeans(claim, policy, trace, last, vin, load, duty);
    hide *;
    found := [];
    if policy.stepChecks && claim.status == Declared {
      var e1, e2, e3, e4 := ObservationFinds(claim, policy, trace, last, vin, load, duty);
      found := e1 + e2 + e3 + e4;
      BlockingJoins(e1, e2);
      BlockingJoins(e1 + e2, e3);
      BlockingJoins(e1 + e2 + e3, e4);
    }
  }

  lemma NoObservation(claim: Claim, policy: Policy, trace: seq<Event>, last: Option<Signature>,
                      vin: Option<real>, load: Option<real>, duty: Option<real>)
    ensures !(policy.stepChecks && claim.status == Declared) ==>
      && Play(policy, trace, ObservationSteps(claim, policy, last, vin, load, duty)) == trace
      && !AnyBlocking([]) && Found(trace) + [] == Found(trace)
  {
    PlayNothing(policy, trace);
  }

  /** What each of the four checks finds. */
  lemma ObservationFinds(claim: Claim, policy: Policy, trace: seq<Event>, last: Option<Signature>,
                         vin: Option<real>, load: Option<real>, duty: Option<real>)
    returns (e1: seq<Finding>, e2: seq<Finding>, e3: seq<Finding>, e4: seq<Finding>)
    requires policy.stepChecks && claim.status == Declared
    ensures Found(Play(policy, trace, ObservationSteps(claim, policy, last, vin, load, duty)))
         == Found(trace) + (e1 + e2 + e3 + e4)
    ensures var moved := Moved(policy, last, vin, load);
      && (AnyBlocking(e1) <==> Stops(policy, Advisory) && moved && Unsaid(policy, trace, false, EXTERNAL_KEY))
      && (AnyBlocking(e2) <==> Stops(policy, Hard) && OutOfRange(claim, policy, "input_voltage_v", vin)
                               && Unsaid(policy, trace, moved, VIN_KEY))
      && (AnyBlocking(e3) <==> Stops(policy, Hard) && OutOfRange(claim, policy, "load_resistance_ohm", load)
                               && Unsaid(policy, trace, moved, LOAD_KEY))
      && (AnyBlocking(e4) <==> Stops(policy, Advisory) && Discontinues(claim, vin, load, duty)
                               && Unsaid(policy, trace, moved, CCM_KEY))
  {
    ObservationStages(claim, policy, trace, last, vin, load, duty);
    KeysDiffer();
    hide *;
    e1 := ExternalFinds(policy, trace, last, (vin, load));
    var t1 := Play(policy, trace, ExternalSteps(policy, last, (vin, load)));
    e2 := RangeFinds(claim, policy, t1, "input_voltage_v", vin, VinDomain, "input_voltage_v");
    var t2 := Play(policy, t1, RangeSteps(claim, policy, "input_voltage_v", vin, VinDomain, "input_voltage_v"));
    e3 := RangeFinds(claim, policy, t2, "load_resistance_ohm", load, LoadDomain, "load_resistance_ohm");
    var t3 := Play(policy, t2, RangeSteps(claim, policy, "load_resistance_ohm", load, LoadDomain, "load_resistance_ohm"));
    e4 := CcmFinds(claim, policy, t3, vin, load, duty);
    var moved := Moved(policy, last, vin, load);
    StillUnsaid(policy, trace, t1, moved, VIN_KEY);
    StillUnsaid(policy, trace, t2, moved, LOAD_KEY);
    StillUnsaid(policy, trace, t3, moved, CCM_KEY);
    Gather(Found(trace), e1, e2, e3, e4);
  }

  lemma KeysDiffer()
    ensures VIN_KEY == Key(VinDomain, Named("input_voltage_v")) && LOAD_KEY == Key(LoadDomain, Named("load_resistance_ohm"))
    ensures VIN_KEY != LOAD_KEY && LOAD_KEY != CCM_KEY && CCM_KEY != VIN_KEY
  {}

  lemma StillUnsaid(policy: Policy, trace: seq<Event>, after: seq<Event>, moved: bool, key: Key)
    requires key in Seen(after) <==> !moved && key in Seen(trace)
    ensures Unsaid(policy, after, false, key) <==> Unsaid(policy, trace, moved, key)
  {}

  lemma Gather<T>(a: seq<T>, b: seq<T>, c: seq<T>, d: seq<T>, e: seq<T>)
    ensures a + b + c + d + e == a + (b + c + d + e)
  {}

  lemma ObservationStages(claim: Claim, policy: Policy, trace: seq<Event>, last: Option<Signature>,
                          vin: Option<real>, load: Option<real>, duty: Option<real>)
    requires policy.stepChecks && claim.status == Declared
    ensures var t1 := Play(policy, trace, ExternalSteps(policy, last, (vin, load)));
      var t2 := Play(policy, t1, RangeSteps(claim, policy, "input_voltage_v", vin, VinDomain, "input_voltage_v"));
      var t3 := Play(policy, t2, RangeSteps(claim, policy, "load_resistance_ohm", load, LoadDomain, "load_resistance_ohm"));
      Play(policy, trace, ObservationSteps(claim, policy, last, vin, load, duty))
      == Play(policy, t3, CcmSteps(claim, vin, load, duty))
  {
    hide Play; hide RangeSteps; hide ExternalSteps; hide CcmSteps;
    var change := ExternalSteps(policy, last, (vin, load));
    var input := RangeSteps(claim, policy, "input_voltage_v", vin, VinDomain, "input_voltage_v");
    var output := RangeSteps(claim, policy, "load_resistance_ohm", load, LoadDomain, "load_resistance_ohm");
    PlayAppend(policy, trace, change, input);
    PlayAppend(policy, trace, change + input, output);
    PlayAppend(policy, trace, change + input + output, CcmSteps(claim, vin, load, duty));
  }

  lemma BreachedMeans(claim: Claim, policy: Policy, trace: seq<Event>, last: Option<Signature>, vin: Option<real>,
                      load: Option<real>, duty: Option<real>)
    ensures var moved := Moved(policy, last, vin, load);
      Breached(claim, policy, trace, last, vin, load, duty) <==>
      && policy.stepChecks && claim.status == Declared
      && (|| (Stops(policy, Hard) && OutOfRange(claim, policy, "input_voltage_v", vin) && Unsaid(policy, trace, moved, VIN_KEY))
          || (Stops(policy, Hard) && OutOfRange(claim, policy, "load_resistance_ohm", load)
              && Unsaid(policy, trace, moved, LOAD_KEY))
          || (Stops(policy, Advisory) && Discontinues(claim, vin, load, duty) && Unsaid(policy, trace, moved, CCM_KEY))
          || (Stops(policy, Advisory) && moved && Unsaid(policy, trace, false, EXTERNAL_KEY)))
  {
    hide OutOfRange; hide Unsaid; hide Stops; hide Moved; hide Discontinues;
  }

  // ------------------------------------------------ when an action or a preflight fails

  /** How strongly each rule is asked for. */
  function RuleStrength(claim: Claim, policy: Policy, rule: Rule): Strength {
    match rule
    case VinDomain => Hard
    case LoadDomain => Hard
    case DutyDomain => Hard
    case ActuatorSubset => Hard
    case ScheduleInvalid => Hard
    case DeclarationUnknown => Demand(policy.requireEnvelope)
    case DeclarationUnreadable => Demand(policy.requireEnvelope)
    case ProvenanceUnknown => Demand(policy.requireProvenance)
    case ProvenanceUnreadable => Demand(policy.requireProvenance)
    case SwitchingPeriods => LimitStrength(claim, RATIO_LIMIT)
    case SampleResolution => LimitStrength(claim, SAMPLES_LIMIT)
    case TimestepDynamics => LimitStrength(claim, STEP_LIMIT)
    case Substeps => LimitStrength(claim, SUBSTEPS)
    case OffResistance => LimitStrength(claim, LOAD_LIMIT)
    case _ => Advisory
  }

  ghost predicate Ruled(claim: Claim, policy: Policy, steps: seq<Step>) {
    forall k | 0 <= k < |steps| :: steps[k].Do? && steps[k].what.strength == RuleStrength(claim, policy, steps[k].what.rule)
  }

  predicate Asks(steps: seq<Step>, key: Key) {
    exists k | 0 <= k < |steps| :: steps[k].Do? && KeyOf(steps[k].what) == key
  }

  /** A request with a strength that stops the run and a key that is not standing. */
  predicate AsksAnew(policy: Policy, trace: seq<Event>, step: Step) {
    step.Do? && Stops(policy, step.what.strength) && Unsaid(policy, trace, false, KeyOf(step.what))
  }

  predicate StopNew(policy: Policy, trace: seq<Event>, steps: seq<Step>) {
    exists k | 0 <= k < |steps| :: AsksAnew(policy, trace, steps[k])
  }

  /** A row of requests finds something that blocks exactly when one of those that stop
      the run is new. */
  lemma {:induction false} RuledFinds(claim: Claim, policy: Policy, trace: seq<Event>, steps: seq<Step>)
    returns (found: seq<Finding>)
    requires Ruled(claim, policy, steps)
    ensures Found(Play(policy, trace, steps)) == Found(trace) + found
    ensures AnyBlocking(found) <==> StopNew(policy, trace, steps)
    ensures policy.mode != Off ==> Standing(trace, Play(policy, trace, steps), steps)
  {
    found := [];
    if steps != [] {
      var n := |steps| - 1;
      assert forall k | 0 <= k < n :: steps[..n][k] == steps[k];
      assert steps[n].Do?;
      var earlier := RuledFinds(claim, policy, trace, steps[..n]);
      var r, before := steps[n].what, Play(policy, trace, steps[..n]);
      assert IfSo(true, r) == [Do(r)] && steps == steps[..n] + [Do(r)];
      hide *;
      var last := AskFinds(policy, before, true, r);
      PlayAppend(policy, trace, steps[..n], [Do(r)]);
      found := earlier + last;
      Grouped(Found(trace), earlier, last);
      BlockingJoins(earlier, last);
      OneMoreStands(policy, before, r);
      if policy.mode != Off { StandingAfter(trace, before, Play(policy, trace, steps), steps); }
      LastBlocks(claim, policy, trace, steps, before, AnyBlocking(last));
    }
  }

  lemma Grouped<T>(a: seq<T>, b: seq<T>, c: seq<T>)
    ensures a + b + c == a + (b + c)
  {}

  /** After the requests their keys stand, and those that stood before. */
  ghost predicate Standing(trace: seq<Event>, after: seq<Event>, steps: seq<Step>) {
    forall key :: key in Seen(after) <==> key in Seen(trace) || Asks(steps, key)
  }

  lemma OneMoreStands(policy: Policy, trace: seq<Event>, r: Raise)
    ensures policy.mode != Off ==>
      forall key :: key in Seen(Play(policy, trace, [Do(r)])) <==> key in Seen(trace) || key == KeyOf(r)
  {
    if policy.mode != Off { DoFinds(policy, trace, r); }
  }

  /** What stands after one more request. */
  lemma StandingAfter(trace: seq<Event>, before: seq<Event>, after: seq<Event>, steps: seq<Step>)
    requires steps != [] && steps[|steps| - 1].Do?
    requires Standing(trace, before, steps[..|steps| - 1])
    requires forall key :: key in Seen(after) <==> key in Seen(before) || key == KeyOf(steps[|steps| - 1].what)
    ensures Standing(trace, after, steps)
  {
    hide Seen;
    var n := |steps| - 1;
    assert forall k | 0 <= k < n :: steps[..n][k] == steps[k];
    forall key ensures Asks(steps, key) <==> Asks(steps[..n], key) || key == KeyOf(steps[n].what) {
      if Asks(steps[..n], key) {
        var k :| 0 <= k < n && steps[..n][k].Do? && KeyOf(steps[..n][k].what) == key;
        assert steps[k].Do? && KeyOf(steps[k].what) == key;
      }
      if Asks(steps, key) && key != KeyOf(steps[n].what) {
        var k :| 0 <= k < |steps| && steps[k].Do? && KeyOf(steps[k].what) == key;
        assert steps[..n][k].Do? && KeyOf(steps[..n][k].what) == key;
      }
      assert steps[n].Do?;
    }
  }

  /** The last request blocks unless it, or one of the same key before it, had been said. */
  lemma LastBlocks(claim: Claim, policy: Policy, trace: seq<Event>, steps: seq<Step>, before: seq<Event>, blocks: bool)
    requires Ruled(claim, policy, steps) && steps != []
    requires policy.mode != Off ==> Standing(trace, before, steps[..|steps| - 1])
    requires blocks <==> AsksAnew(policy, before, steps[|steps| - 1])
    ensures StopNew(policy, trace, steps) <==> StopNew(policy, trace, steps[..|steps| - 1]) || blocks
  {
    var n, r := |steps| - 1, steps[|steps| - 1].what;
    assert forall k | 0 <= k < n :: steps[..n][k] == steps[k];
    hide Seen; hide RuleStrength;
    if StopNew(policy, trace, steps[..n]) {
      var k :| 0 <= k < n && AsksAnew(policy, trace, steps[..n][k]);
      assert AsksAnew(policy, trace, steps[k]);
    }
    if blocks { assert AsksAnew(policy, trace, steps[n]); }
  }

  lemma StopNewJoins(policy: Policy, trace: seq<Event>, a: seq<Step>, b: seq<Step>)
    ensures StopNew(policy, trace, a + b) <==> StopNew(policy, trace, a) || StopNew(policy, trace, b)
  {
    hide AsksAnew;
    var all := a + b;
    if StopNew(policy, trace, a) {
      var k :| 0 <= k < |a| && AsksAnew(policy, trace, a[k]);
      assert AsksAnew(policy, trace, all[k]);
    }
    if StopNew(policy, trace, b) {
      var k :| 0 <= k < |b| && AsksAnew(policy, trace, b[k]);
      assert AsksAnew(policy, trace, all[|a| + k]);
    }
    if StopNew(policy, trace, all) {
      var k :| 0 <= k < |all| && AsksAnew(policy, trace, all[k]);
      if k < |a| { assert AsksAnew(policy, trace, a[k]); } else { assert AsksAnew(policy, trace, b[k - |a|]); }
    }
  }

  lemma RuledJoins(claim: Claim, policy: Policy, a: seq<Step>, b: seq<Step>)
    requires Ruled(claim, policy, a) && Ruled(claim, policy, b)
    ensures Ruled(claim, policy, a + b)
  {
    hide RuleStrength;
  }

  lemma StopNewOne(policy: Policy, trace: seq<Event>, asked: bool, r: Raise)
    ensures StopNew(policy, trace, IfSo(asked, r)) <==> asked && Stops(policy, r.strength) && Unsaid(policy, trace, false, KeyOf(r))
  {
    hide Unsaid;
    if asked { assert IfSo(asked, r)[0] == Do(r); }
  }

  /** The on-time is shorter than the two edges of a pulse, by more than the slack. */
  predicate PulseLost(claim: Claim, duty: real) {
    && "switching_period_s" in claim.parameters && "pulse_edge_s" in claim.parameters
    && 0.0 < duty < 1.0
    && 2.0 * claim.parameters["pulse_edge_s"] - duty * claim.parameters["switching_period_s"] > 0.000000000000001
  }

  /** What an action fails for. */
  predicate ActionBreached(claim: Claim, policy: Policy, trace: seq<Event>, action: Option<real>) {
    && policy.stepChecks && claim.status == Declared && action.Some?
    && (|| (Stops(policy, Hard) && OutOfRange(claim, policy, "duty", action)
            && Unsaid(policy, trace, false, Key(DutyDomain, Named("duty"))))
        || (Stops(policy, Advisory) && PulseLost(claim, action.value)
            && Unsaid(policy, trace, false, Key(DutyResolution, Named("duty_resolution")))))
  }

  /** Under every policy an action's findings block exactly when it is breached. */
  lemma ActionFailsIff(claim: Claim, policy: Policy, trace: seq<Event>, action: Option<real>) returns (found: seq<Finding>)
    ensures Found(Play(policy, trace, ActionSteps(claim, policy, action))) == Found(trace) + found
    ensures AnyBlocking(found) <==> ActionBreached(claim, policy, trace, action)
  {
    var steps := ActionSteps(claim, policy, action);
    found := RuledFinds(claim, policy, trace, steps);
    hide Play; hide Found; hide Seen;
    if policy.stepChecks && claim.status == Declared && action.Some? {
      StopNewJoins(policy, trace, RangeSteps(claim, policy, "duty", action, DutyDomain, "duty"), ResolutionSteps(claim, action.value));
      RangeAsks(claim, policy, trace, "duty", action, DutyDomain, "duty");
      StopNewOne(policy, trace, PulseTooShort(claim, action.value),
                 Raise(DutyResolution, "pulse_width_below_template_resolution", Named("duty_resolution"), Advisory));
      assert ResolutionSteps(claim, action.value) == IfSo(PulseTooShort(claim, action.value),
        Raise(DutyResolution, "pulse_width_below_template_resolution", Named("duty_resolution"), Advisory));
    }
  }

  lemma RangeAsks(claim: Claim, policy: Policy, trace: seq<Event>, range: string, value: Option<real>, rule: Rule, variable: string)
    ensures StopNew(policy, trace, RangeSteps(claim, policy, range, value, rule, variable))
       <==> Stops(policy, Hard) && OutOfRange(claim, policy, range, value) && Unsaid(policy, trace, false, Key(rule, Named(variable)))
  {
    var r := Raise(rule, "out_of_envelope", Named(variable), Hard);
    RangeIsAsk(claim, policy, range, value, rule, variable);
    hide RangeSteps; hide OutOfRange;
    StopNewOne(policy, trace, OutOfRange(claim, policy, range, value), r);
  }

  /** The controller's range is not inside the declared one. */
  predicate ActuatorOutside(claim: Claim, policy: Policy, bounds: Option<(real, real)>) {
    bounds.Some? && (OutOfRange(claim, policy, "duty", Some(bounds.value.0)) || OutOfRange(claim, policy, "duty", Some(bounds.value.1)))
  }

  /** The controller drives a duty for which no range is declared. */
  predicate ActuatorUnbounded(claim: Claim, bounds: Option<(real, real)>) {
    bounds.Some? && RangeNamed(claim.ranges, "duty").None?
  }

  /** One scheduled value is no number, or out of its range. */
  predicate ValueBreached(claim: Claim, policy: Policy, trace: seq<Event>, index: nat, item: ScheduleItem, key: string,
                          range: string, rule: Rule) {
    Stops(policy, Hard) && key in item &&
    if item[key].None? then Unsaid(policy, trace, false, Key(ScheduleInvalid, Scheduled(index, key)))
    else OutOfRange(claim, policy, range, item[key]) && Unsaid(policy, trace, false, Key(rule, Named(range)))
  }

  predicate ItemBreached(claim: Claim, policy: Policy, trace: seq<Event>, index: nat, item: ScheduleItem) {
    || ValueBreached(claim, policy, trace, index, item, "vin_v", "input_voltage_v", VinDomain)
    || ValueBreached(claim, policy, trace, index, item, "input_voltage_v", "input_voltage_v", VinDomain)
    || ValueBreached(claim, policy, trace, index, item, "load_ohm", "load_resistance_ohm", LoadDomain)
    || ValueBreached(claim, policy, trace, index, item, "load_resistance_ohm", "load_resistance_ohm", LoadDomain)
  }

  /** A limit is missed, with a strength that stops the run, and that has not been said. */
  predicate LimitBreached(claim: Claim, policy: Policy, trace: seq<Event>, missed: bool, limit: string, rule: Rule, variable: string) {
    && missed && LimitNamed(claim.limits, limit).Some? && Stops(policy, LimitNamed(claim.limits, limit).value.strength)
    && Unsaid(policy, trace, false, Key(rule, Named(variable)))
  }

  /** The parameter is below a declared minimum by more than the slack. */
  predicate Misses(claim: Claim, parameter: string, limit: string) {
    && parameter in claim.parameters && LimitNamed(claim.limits, limit).Some?
    && match LimitNamed(claim.limits, limit).value.value
       case None => false
       case Some(minimum) => minimum - claim.parameters[parameter] > 0.000000001
  }

  predicate StepExceeds(claim: Claim, policy: Policy) {
    && "integration_step_s" in claim.parameters && LimitNamed(claim.limits, "integration_step_s.max").Some?
    && match LimitNamed(claim.limits, "integration_step_s.max").value.value
       case None => false
       case Some(maximum) => claim.parameters["integration_step_s"] - maximum > maximum * policy.tolerance
  }

  predicate SubstepsMiss(claim: Claim, control: real) {
    && "integration_step_s" in claim.parameters && claim.parameters["integration_step_s"] != 0.0
    && LimitNamed(claim.limits, "control_period.min_integration_substeps").Some?
    && match LimitNamed(claim.limits, "control_period.min_integration_substeps").value.value
       case None => false
       case Some(minimum) => minimum - control / claim.parameters["integration_step_s"] > 0.000000001
  }

  /** The comparisons before and after the one that can divide by zero. */
  predicate EarlyBreached(claim: Claim, policy: Policy, trace: seq<Event>) {
    || LimitBreached(claim, policy, trace,
                     Misses(claim, "switching_periods_per_control_period", "control_period.min_switching_periods"),
                     "control_period.min_switching_periods", SwitchingPeriods, "control_period")
    || LimitBreached(claim, policy, trace, Misses(claim, "samples_per_switching_period", "samples_per_switching_period.min"),
                     "samples_per_switching_period.min", SampleResolution, "sample_resolution")
    || LimitBreached(claim, policy, trace, StepExceeds(claim, policy), "integration_step_s.max", TimestepDynamics,
                     "integration_step")
  }

  predicate LateBreached(claim: Claim, policy: Policy, trace: seq<Event>, control: real) {
    || LimitBreached(claim, policy, trace, SubstepsMiss(claim, control), "control_period.min_integration_substeps", Substeps,
                     "control_period")
    || LimitBreached(claim, policy, trace, Misses(claim, "load_off_resistance_ratio", "load.min_off_resistance_ratio"),
                     "load.min_off_resistance_ratio", OffResistance, "load_ratio")
  }

  predicate TimebaseBreached(claim: Claim, policy: Policy, trace: seq<Event>, control: real) {
    EarlyBreached(claim, policy, trace) || LateBreached(claim, policy, trace, control)
  }

  predicate ProvenanceBreached(policy: Policy, provenance: Provenance, trace: seq<Event>) {
    match provenance.status
    case Declared =>
      Stops(policy, Advisory) && exists name | name in provenance.unreviewed :: Unsaid(policy, trace, false, Key(Unreviewed, Named(name)))
    case Unknown =>
      && Stops(policy, if policy.requireProvenance then Hard else Advisory)
      && Unsaid(policy, trace, false, Key(ProvenanceUnknown, Named("provenance")))
    case DeclarationInvalid =>
      && Stops(policy, if policy.requireProvenance then Hard else Advisory)
      && Unsaid(policy, trace, false, Key(ProvenanceUnreadable, Named("provenance")))
  }

  predicate ActuatorBreached(claim: Claim, policy: Policy, bounds: Option<(real, real)>, trace: seq<Event>) {
    || (Stops(policy, Hard) && ActuatorOutside(claim, policy, bounds)
        && Unsaid(policy, trace, false, Key(ActuatorSubset, Named("duty"))))
    || (Stops(policy, Advisory) && ActuatorUnbounded(claim, bounds)
        && Unsaid(policy, trace, false, Key(ActuatorUndeclared, Named("duty"))))
  }

  /** What a preflight fails for. */
  predicate PreflightBreached(claim: Claim, policy: Policy, provenance: Provenance, bounds: Option<(real, real)>,
                              schedule: seq<ScheduleItem>, control: Option<real>, trace: seq<Event>) {
    match claim.status
    case Unknown =>
      && Stops(policy, if policy.requireEnvelope then Hard else Advisory)
      && Unsaid(policy, trace, false, Key(DeclarationUnknown, Named("claim")))
    case DeclarationInvalid =>
      && Stops(policy, if policy.requireEnvelope then Hard else Advisory)
      && Unsaid(policy, trace, false, Key(DeclarationUnreadable, Named("claim")))
    case Declared =>
      || ActuatorBreached(claim, policy, bounds, trace)
      || (exists i | 0 <= i < |schedule| :: ItemBreached(claim, policy, trace, i, schedule[i]))
      || (control.Some? && TimebaseBreached(claim, policy, trace, control.value))
      || ProvenanceBreached(policy, provenance, trace)
  }

  lemma MissesMeans(claim: Claim, policy: Policy, parameter: string, limit: string, control: real)
    ensures Short(claim, parameter, limit) <==> Misses(claim, parameter, limit)
    ensures StepTooLong(claim, policy) <==> StepExceeds(claim, policy)
    ensures TooFewSubsteps(claim, control) <==> SubstepsMiss(claim, control)
  {
    if Limited(claim, STEP, STEP_LIMIT) {
      var maximum := LimitNamed(claim.limits, STEP_LIMIT).value.value.value;
      assert maximum * (1.0 + policy.tolerance) == maximum + maximum * policy.tolerance;
    }
    hide LimitNamed;
  }

  lemma ActuatorAsks(claim: Claim, policy: Policy, trace: seq<Event>, bounds: Option<(real, real)>)
    ensures Ruled(claim, policy, ActuatorSteps(claim, policy, bounds))
    ensures StopNew(policy, trace, ActuatorSteps(claim, policy, bounds)) <==> ActuatorBreached(claim, policy, bounds, trace)
  {
    var outside := Raise(ActuatorSubset, "actuator_outside_envelope", Named("duty"), Hard);
    var undeclared := Raise(ActuatorUndeclared, "actuator_undeclared", Named("duty"), Advisory);
    StopNewOne(policy, trace, ActuatorOutside(claim, policy, bounds), outside);
    StopNewOne(policy, trace, ActuatorUnbounded(claim, bounds), undeclared);
    if bounds.Some? && RangeNamed(claim.ranges, "duty").Some? {
      BeyondIffOutside(RangeNamed(claim.ranges, "duty").value, bounds.value.0, policy.tolerance);
      BeyondIffOutside(RangeNamed(claim.ranges, "duty").value, bounds.value.1, policy.tolerance);
    }
    hide Unsaid; hide Contains; hide Beyond; hide RangeNamed; hide Stops; hide StopNew;
    assert ActuatorSteps(claim, policy, bounds)
        == if ActuatorUnbounded(claim, bounds) then IfSo(true, undeclared) else IfSo(ActuatorOutside(claim, policy, bounds), outside);
  }

  lemma ValueAsks(claim: Claim, policy: Policy, trace: seq<Event>, index: nat, item: ScheduleItem, key: string, range: string,
                  rule: Rule, category: string)
    requires rule == VinDomain || rule == LoadDomain
    ensures Ruled(claim, policy, ValueSteps(claim, policy, index, item, key, range, rule, category))
    ensures StopNew(policy, trace, ValueSteps(claim, policy, index, item, key, range, rule, category))
       <==> ValueBreached(claim, policy, trace, index, item, key, range, rule)
  {
    var invalid := Raise(ScheduleInvalid, category, Scheduled(index, key), Hard);
    StopNewOne(policy, trace, true, invalid);
    if key in item { RangeAsks(claim, policy, trace, range, item[key], rule, range); }
    hide Unsaid; hide OutOfRange; hide Stops; hide StopNew;
    NothingAsked(claim, policy, trace);
    if key in item && item[key].None? {
      assert ValueSteps(claim, policy, index, item, key, range, rule, category) == IfSo(true, invalid);
    }
  }

  lemma ItemAsks(claim: Claim, policy: Policy, trace: seq<Event>, index: nat, item: ScheduleItem)
    ensures Ruled(claim, policy, ItemSteps(claim, policy, index, item))
    ensures StopNew(policy, trace, ItemSteps(claim, policy, index, item)) <==> ItemBreached(claim, policy, trace, index, item)
  {
    hide ValueSteps; hide StopNew; hide Ruled; hide ValueBreached;
    var category := "invalid_schedule_value";
    var a := ValueSteps(claim, policy, index, item, "vin_v", "input_voltage_v", VinDomain, category);
    var b := ValueSteps(claim, policy, index, item, "input_voltage_v", "input_voltage_v", VinDomain, category);
    var c := ValueSteps(claim, policy, index, item, "load_ohm", "load_resistance_ohm", LoadDomain, category);
    var d := ValueSteps(claim, policy, index, item, "load_resistance_ohm", "load_resistance_ohm", LoadDomain, category);
    ValueAsks(claim, policy, trace, index, item, "vin_v", "input_voltage_v", VinDomain, category);
    ValueAsks(claim, policy, trace, index, item, "input_voltage_v", "input_voltage_v", VinDomain, category);
    ValueAsks(claim, policy, trace, index, item, "load_ohm", "load_resistance_ohm", LoadDomain, category);
    ValueAsks(claim, policy, trace, index, item, "load_resistance_ohm", "load_resistance_ohm", LoadDomain, category);
    Joined(claim, policy, trace, a, b);
    Joined(claim, policy, trace, a + b, c);
    Joined(claim, policy, trace, a + b + c, d);
  }

  lemma Joined(claim: Claim, policy: Policy, trace: seq<Event>, a: seq<Step>, b: seq<Step>)
    requires Ruled(claim, policy, a) && Ruled(claim, policy, b)
    ensures Ruled(claim, policy, a + b)
    ensures StopNew(policy, trace, a + b) <==> StopNew(policy, trace, a) || StopNew(policy, trace, b)
  {
    RuledJoins(claim, policy, a, b);
    StopNewJoins(policy, trace, a, b);
  }

  lemma {:induction false} ScheduleAsks(claim: Claim, policy: Policy, trace: seq<Event>, schedule: seq<ScheduleItem>)
    ensures Ruled(claim, policy, ScheduleSteps(claim, policy, schedule))
    ensures StopNew(policy, trace, ScheduleSteps(claim, policy, schedule))
       <==> exists i | 0 <= i < |schedule| :: ItemBreached(claim, policy, trace, i, schedule[i])
  {
    hide ItemSteps; hide StopNew; hide ItemBreached; hide Ruled;
    if schedule == [] {
      NothingAsked(claim, policy, trace);
    } else {
      var n := |schedule| - 1;
      ScheduleAsks(claim, policy, trace, schedule[..n]);
      ItemAsks(claim, policy, trace, n, schedule[n]);
      Joined(claim, policy, trace, ScheduleSteps(claim, policy, schedule[..n]), ItemSteps(claim, policy, n, schedule[n]));
      assert forall i | 0 <= i < n :: schedule[..n][i] == schedule[i];
    }
  }

  lemma NothingAsked(claim: Claim, policy: Policy, trace: seq<Event>)
    ensures Ruled(claim, policy, []) && !StopNew(policy, trace, [])
  {}

  lemma LimitAsks(claim: Claim, policy: Policy, trace: seq<Event>, missed: bool, rule: Rule, category: string, variable: string, limit: string)
    requires RuleStrength(claim, policy, rule) == LimitStrength(claim, limit) && (missed ==> LimitNamed(claim.limits, limit).Some?)
    ensures Ruled(claim, policy, IfSo(missed, LimitRaise(claim, rule, category, variable, limit)))
    ensures StopNew(policy, trace, IfSo(missed, LimitRaise(claim, rule, category, variable, limit)))
       <==> LimitBreached(claim, policy, trace, missed, limit, rule, variable)
  {
    StopNewOne(policy, trace, missed, LimitRaise(claim, rule, category, variable, limit));
    hide RuleStrength; hide LimitNamed; hide Unsaid; hide Stops; hide StopNew;
  }

  lemma EarlyAsks(claim: Claim, policy: Policy, trace: seq<Event>)
    ensures Ruled(claim, policy, EarlySteps(claim, policy))
    ensures StopNew(policy, trace, EarlySteps(claim, policy)) <==> EarlyBreached(claim, policy, trace)
  {
    var ratio := Short(claim, "switching_periods_per_control_period", RATIO_LIMIT);
    var samples := Short(claim, "samples_per_switching_period", SAMPLES_LIMIT);
    var long := StepTooLong(claim, policy);
    MissesMeans(claim, policy, "switching_periods_per_control_period", RATIO_LIMIT, 0.0);
    MissesMeans(claim, policy, "samples_per_switching_period", SAMPLES_LIMIT, 0.0);
    hide LimitNamed; hide Short; hide StepTooLong; hide Ruled; hide StopNew;
    LimitAsks(claim, policy, trace, ratio, SwitchingPeriods, "control_period_too_short", "control_period", RATIO_LIMIT);
    LimitAsks(claim, policy, trace, samples, SampleResolution, "insufficient_sample_resolution", "sample_resolution", SAMPLES_LIMIT);
    LimitAsks(claim, policy, trace, long, TimestepDynamics, "integration_step_too_large", "integration_step", STEP_LIMIT);
    var a := IfSo(ratio, LimitRaise(claim, SwitchingPeriods, "control_period_too_short", "control_period", RATIO_LIMIT));
    var b := IfSo(samples, LimitRaise(claim, SampleResolution, "insufficient_sample_resolution", "sample_resolution", SAMPLES_LIMIT));
    var c := IfSo(long, LimitRaise(claim, TimestepDynamics, "integration_step_too_large", "integration_step", STEP_LIMIT));
    assert EarlySteps(claim, policy) == a + b + c;
    assert EarlyBreached(claim, policy, trace) <==> StopNew(policy, trace, a) || StopNew(policy, trace, b) || StopNew(policy, trace, c);
    hide *;
    Joined(claim, policy, trace, a, b);
    Joined(claim, policy, trace, a + b, c);
  }

  lemma LateAsks(claim: Claim, policy: Policy, trace: seq<Event>, control: real)
    ensures Ruled(claim, policy, LateSteps(claim, control))
    ensures StopNew(policy, trace, LateSteps(claim, control)) <==> LateBreached(claim, policy, trace, control)
  {
    var few, load := TooFewSubsteps(claim, control), Short(claim, "load_off_resistance_ratio", LOAD_LIMIT);
    MissesMeans(claim, policy, "load_off_resistance_ratio", LOAD_LIMIT, control);
    hide LimitNamed; hide Short; hide TooFewSubsteps; hide Ruled; hide StopNew;
    LimitAsks(claim, policy, trace, few, Substeps, "insufficient_integration_substeps", "control_period", SUBSTEPS);
    LimitAsks(claim, policy, trace, load, OffResistance, "load_too_close_to_switch_off_resistance", "load_ratio", LOAD_LIMIT);
    var d := IfSo(few, LimitRaise(claim, Substeps, "insufficient_integration_substeps", "control_period", SUBSTEPS));
    var e := IfSo(load, LimitRaise(claim, OffResistance, "load_too_close_to_switch_off_resistance", "load_ratio", LOAD_LIMIT));
    assert LateSteps(claim, control) == d + e;
    assert LateBreached(claim, policy, trace, control) <==> StopNew(policy, trace, d) || StopNew(policy, trace, e);
    hide *;
    Joined(claim, policy, trace, d, e);
  }

  lemma TimebaseAsks(claim: Claim, policy: Policy, trace: seq<Event>, control: Option<real>)
    requires control.Some? ==> !StepZero(claim)
    ensures Ruled(claim, policy, TimebaseSteps(claim, policy, control))
    ensures StopNew(policy, trace, TimebaseSteps(claim, policy, control))
       <==> control.Some? && TimebaseBreached(claim, policy, trace, control.value)
  {
    NothingAsked(claim, policy, trace);
    if control.Some? {
      EarlyAsks(claim, policy, trace);
      LateAsks(claim, policy, trace, control.value);
      assert TimebaseSteps(claim, policy, control) == EarlySteps(claim, policy) + LateSteps(claim, control.value);
      assert TimebaseBreached(claim, policy, trace, control.value)
        <==> EarlyBreached(claim, policy, trace) || LateBreached(claim, policy, trace, control.value);
      hide *;
      Joined(claim, policy, trace, EarlySteps(claim, policy), LateSteps(claim, control.value));
    }
  }

  lemma {:induction false} UnreviewedAsks(claim: Claim, policy: Policy, trace: seq<Event>, names: seq<string>)
    ensures Ruled(claim, policy, UnreviewedSteps(names))
    ensures StopNew(policy, trace, UnreviewedSteps(names))
       <==> Stops(policy, Advisory) && exists name | name in names :: Unsaid(policy, trace, false, Key(Unreviewed, Named(name)))
  {
    NothingAsked(claim, policy, trace);
    if names != [] {
      var n := |names| - 1;
      var r := Raise(Unreviewed, "parameter_unreviewed", Named(names[n]), Advisory);
      UnreviewedAsks(claim, policy, trace, names[..n]);
      StopNewOne(policy, trace, true, r);
      assert Ruled(claim, policy, IfSo(true, r)) && UnreviewedSteps(names) == UnreviewedSteps(names[..n]) + IfSo(true, r);
      hide Ruled; hide StopNew; hide Unsaid; hide Stops; hide UnreviewedSteps;
      Joined(claim, policy, trace, UnreviewedSteps(names[..n]), IfSo(true, r));
      assert forall name :: name in names <==> name in names[..n] || name == names[n] by { assert names == names[..n] + [names[n]]; }
    }
  }

  lemma ProvenanceAsks(claim: Claim, policy: Policy, trace: seq<Event>, provenance: Provenance)
    ensures Ruled(claim, policy, ProvenanceSteps(policy, provenance))
    ensures StopNew(policy, trace, ProvenanceSteps(policy, provenance)) <==> ProvenanceBreached(policy, provenance, trace)
  {
    var strength := Demand(policy.requireProvenance);
    StopNewOne(policy, trace, true, Raise(ProvenanceUnknown, "parameter_provenance_unknown", Named("provenance"), strength));
    StopNewOne(policy, trace, true, Raise(ProvenanceUnreadable, "parameter_provenance_invalid", Named("provenance"), strength));
    UnreviewedAsks(claim, policy, trace, provenance.unreviewed);
    hide Unsaid; hide StopNew; hide UnreviewedSteps; hide Stops;
  }

  lemma PreflightAsks(claim: Claim, policy: Policy, provenance: Provenance, bounds: Option<(real, real)>,
                      schedule: seq<ScheduleItem>, control: Option<real>, trace: seq<Event>)
    requires policy.preflightChecks && !PreflightStops(claim, policy, control)
    ensures var steps := PreflightSteps(claim, policy, provenance, bounds, schedule, control);
      && Ruled(claim, policy, steps)
      && (StopNew(policy, trace, steps) <==> PreflightBreached(claim, policy, provenance, bounds, schedule, control, trace))
  {
    StepZeroMeans(claim);
    var strength := Demand(policy.requireEnvelope);
    match claim.status
    case Unknown =>
      StopNewOne(policy, trace, true, Raise(DeclarationUnknown, "envelope_undeclared", Named("claim"), strength));
    case DeclarationInvalid =>
      StopNewOne(policy, trace, true, Raise(DeclarationUnreadable, "envelope_declaration_invalid", Named("claim"), strength));
    case Declared =>
      ActuatorAsks(claim, policy, trace, bounds);
      ScheduleAsks(claim, policy, trace, schedule);
      TimebaseAsks(claim, policy, trace, control);
      ProvenanceAsks(claim, policy, trace, provenance);
      hide ActuatorSteps; hide ScheduleSteps; hide TimebaseSteps; hide ProvenanceSteps; hide StopNew; hide Ruled;
      hide ItemBreached; hide TimebaseBreached; hide ProvenanceBreached; hide ActuatorBreached; hide Unsaid; hide Stops;
      var a, b, c := ActuatorSteps(claim, policy, bounds), ScheduleSteps(claim, policy, schedule), TimebaseSteps(claim, policy, control);
      Joined(claim, policy, trace, a, b);
      Joined(claim, policy, trace, a + b, c);
      Joined(claim, policy, trace, a + b + c, ProvenanceSteps(policy, provenance));
  }

  /** Under every policy a preflight that makes its report finds something that blocks
      exactly when it is breached: by a declaration or source that is missing, an actuator
      or a scheduled value outside the declared ranges, a limit missed or a parameter
      nobody has reviewed, asked for with a strength that stops the run and not yet said. */
  lemma PreflightFailsIff(claim: Claim, policy: Policy, provenance: Provenance, bounds: Option<(real, real)>,
                          schedule: seq<ScheduleItem>, control: Option<real>, trace: seq<Event>) returns (found: seq<Finding>)
    requires policy.preflightChecks && !PreflightStops(claim, policy, control)
    ensures Found(Play(policy, trace, PreflightSteps(claim, policy, provenance, bounds, schedule, control))) == Found(trace) + found
    ensures AnyBlocking(found) <==> PreflightBreached(claim, policy, provenance, bounds, schedule, control, trace)
  {
    PreflightAsks(claim, policy, provenance, bounds, schedule, control, trace);
    hide *;
    found := RuledFinds(claim, policy, trace, PreflightSteps(claim, policy, provenance, bounds, schedule, control));
  }

  // ------------------------------------------------------------ what a finding is called

  function Title(rule: Rule): string {
    match rule
    case VinDomain => "out_of_envelope"
    case LoadDomain => "out_of_envelope"
    case DutyDomain => "out_of_envelope"
    case CcmBoundary => "ccm_boundary_violated"
    case DutyResolution => "pulse_width_below_template_resolution"
    case ExternalChanged => "external_input_changed"
    case DeclarationUnknown => "envelope_undeclared"
    case DeclarationUnreadable => "envelope_declaration_invalid"
    case ActuatorUndeclared => "actuator_undeclared"
    case ActuatorSubset => "actuator_outside_envelope"
    case ScheduleInvalid => "invalid_schedule_value"
    case SwitchingPeriods => "control_period_too_short"
    case SampleResolution => "insufficient_sample_resolution"
    case TimestepDynamics => "integration_step_too_large"
    case Substeps => "insufficient_integration_substeps"
    case OffResistance => "load_too_close_to_switch_off_resistance"
    case ProvenanceUnreadable => "parameter_provenance_invalid"
    case ProvenanceUnknown => "parameter_provenance_unknown"
    case Unreviewed => "parameter_unreviewed"
  }

  predicate Titled(steps: seq<Step>) {
    forall step | step in steps :: step.Do? ==> step.what.category == Title(step.what.rule)
  }

  /** Whatever is asked for carries the category of its rule. */
  lemma RequestsTitled(claim: Claim, policy: Policy, provenance: Provenance, bounds: Option<(real, real)>,
                       schedule: seq<ScheduleItem>, control: Option<real>, last: Option<Signature>, vin: Option<real>,
                       load: Option<real>, duty: Option<real>)
    ensures Titled(ObservationSteps(claim, policy, last, vin, load, duty))
    ensures Titled(ActionSteps(claim, policy, duty))
    ensures Titled(PreflightSteps(claim, policy, provenance, bounds, schedule, control))
  {
    ObservationTitled(claim, policy, last, vin, load, duty);
    ActionTitled(claim, policy, duty);
    DeclaredTitled(claim, policy, provenance, bounds, schedule, control);
    hide ObservationSteps; hide ActionSteps; hide DeclaredSteps;
  }

  lemma TitledJoins(a: seq<Step>, b: seq<Step>)
    requires Titled(a) && Titled(b)
    ensures Titled(a + b)
  {
    assert forall step :: step in a + b <==> step in a || step in b;
  }

  lemma OneTitled(asked: bool, r: Raise)
    requires r.category == Title(r.rule)
    ensures Titled(IfSo(asked, r))
  {}

  lemma RangeTitled(claim: Claim, policy: Policy, range: string, value: Option<real>, rule: Rule, variable: string)
    requires Title(rule) == "out_of_envelope"
    ensures Titled(RangeSteps(claim, policy, range, value, rule, variable))
  {
    hide Contains; hide RangeNamed;
  }

  lemma ObservationTitled(claim: Claim, policy: Policy, last: Option<Signature>, vin: Option<real>, load: Option<real>,
                          duty: Option<real>)
    ensures Titled(ObservationSteps(claim, policy, last, vin, load, duty))
  {
    var external, ccm := ExternalSteps(policy, last, (vin, load)), CcmSteps(claim, vin, load, duty);
    var input := RangeSteps(claim, policy, "input_voltage_v", vin, VinDomain, "input_voltage_v");
    var output := RangeSteps(claim, policy, "load_resistance_ohm", load, LoadDomain, "load_resistance_ohm");
    hide EstimateCcm; hide RangeSteps;
    assert Titled(external) && Titled(ccm) && Titled([]);
    RangeTitled(claim, policy, "input_voltage_v", vin, VinDomain, "input_voltage_v");
    RangeTitled(claim, policy, "load_resistance_ohm", load, LoadDomain, "load_resistance_ohm");
    hide Titled; hide ExternalSteps; hide CcmSteps;
    TitledJoins(external, input);
    TitledJoins(external + input, output);
    TitledJoins(external + input + output, ccm);
  }

  lemma ActionTitled(claim: Claim, policy: Policy, duty: Option<real>)
    ensures Titled(ActionSteps(claim, policy, duty))
  {
    hide PulseTooShort; hide RangeSteps;
    RangeTitled(claim, policy, "duty", duty, DutyDomain, "duty");
    if duty.Some? { TitledJoins(RangeSteps(claim, policy, "duty", duty, DutyDomain, "duty"), ResolutionSteps(claim, duty.value)); }
  }

  lemma DeclaredTitled(claim: Claim, policy: Policy, provenance: Provenance, bounds: Option<(real, real)>,
                       schedule: seq<ScheduleItem>, control: Option<real>)
    ensures Titled(DeclaredSteps(claim, policy, provenance, bounds, schedule, control))
  {
    ActuatorTitled(claim, policy, bounds);
    ScheduleTitled(claim, policy, schedule);
    TimebaseTitled(claim, policy, control);
    ProvenanceTitled(policy, provenance);
    assert Titled([]);
    hide Titled; hide ActuatorSteps; hide ScheduleSteps; hide ProvenanceSteps; hide TimebaseSteps; hide StepZero;
    var a, b, c := ActuatorSteps(claim, policy, bounds), ScheduleSteps(claim, policy, schedule), TimebaseSteps(claim, policy, control);
    TitledJoins(a, b);
    TitledJoins(a + b, c);
    TitledJoins(a + b + c, if control.Some? && StepZero(claim) then [] else ProvenanceSteps(policy, provenance));
  }

  lemma ActuatorTitled(claim: Claim, policy: Policy, bounds: Option<(real, real)>)
    ensures Titled(ActuatorSteps(claim, policy, bounds))
  {
    hide Contains; hide RangeNamed;
  }

  lemma ProvenanceTitled(policy: Policy, provenance: Provenance)
    ensures Titled(ProvenanceSteps(policy, provenance))
  {
    UnreviewedTitled(provenance.unreviewed);
    hide UnreviewedSteps;
  }

  lemma TimebaseTitled(claim: Claim, policy: Policy, control: Option<real>)
    ensures Titled(TimebaseSteps(claim, policy, control))
  {
    var ratio := LimitRaise(claim, SwitchingPeriods, "control_period_too_short", "control_period", RATIO_LIMIT);
    var samples := LimitRaise(claim, SampleResolution, "insufficient_sample_resolution", "sample_resolution", SAMPLES_LIMIT);
    var long := LimitRaise(claim, TimestepDynamics, "integration_step_too_large", "integration_step", STEP_LIMIT);
    var few := LimitRaise(claim, Substeps, "insufficient_integration_substeps", "control_period", SUBSTEPS);
    var load := LimitRaise(claim, OffResistance, "load_too_close_to_switch_off_resistance", "load_ratio", LOAD_LIMIT);
    hide LimitStrength; hide Short; hide StepTooLong; hide TooFewSubsteps; hide StepZero;
    var a := IfSo(Short(claim, "switching_periods_per_control_period", RATIO_LIMIT), ratio);
    var b := IfSo(Short(claim, "samples_per_switching_period", SAMPLES_LIMIT), samples);
    var c := IfSo(StepTooLong(claim, policy), long);
    assert EarlySteps(claim, policy) == a + b + c && Titled([]);
    OneTitled(Short(claim, "switching_periods_per_control_period", RATIO_LIMIT), ratio);
    OneTitled(Short(claim, "samples_per_switching_period", SAMPLES_LIMIT), samples);
    OneTitled(StepTooLong(claim, policy), long);
    TitledJoins(a, b);
    TitledJoins(a + b, c);
    if control.Some? {
      var d, e := IfSo(TooFewSubsteps(claim, control.value), few), IfSo(Short(claim, "load_off_resistance_ratio", LOAD_LIMIT), load);
      assert LateSteps(claim, control.value) == d + e;
      OneTitled(TooFewSubsteps(claim, control.value), few);
      OneTitled(Short(claim, "load_off_resistance_ratio", LOAD_LIMIT), load);
      hide Titled; hide IfSo; hide LimitRaise; hide EarlySteps; hide LateSteps;
      TitledJoins(d, e);
      TitledJoins(EarlySteps(claim, policy), if StepZero(claim) then [] else LateSteps(claim, control.value));
    }
  }

  lemma {:induction false} ScheduleTitled(claim: Claim, policy: Policy, schedule: seq<ScheduleItem>)
    ensures Titled(ScheduleSteps(claim, policy, schedule))
  {
    if schedule != [] {
      var n := |schedule| - 1;
      ScheduleTitled(claim, policy, schedule[..n]);
      ItemTitled(claim, policy, n, schedule[n]);
      hide Titled; hide ItemSteps;
      TitledJoins(ScheduleSteps(claim, policy, schedule[..n]), ItemSteps(claim, policy, n, schedule[n]));
    }
  }

  lemma ItemTitled(claim: Claim, policy: Policy, index: nat, item: ScheduleItem)
    ensures Titled(ItemSteps(claim, policy, index, item))
  {
    var category := "invalid_schedule_value";
    var a := ValueSteps(claim, policy, index, item, "vin_v", "input_voltage_v", VinDomain, category);
    var b := ValueSteps(claim, policy, index, item, "input_voltage_v", "input_voltage_v", VinDomain, category);
    var c := ValueSteps(claim, policy, index, item, "load_ohm", "load_resistance_ohm", LoadDomain, category);
    var d := ValueSteps(claim, policy, index, item, "load_resistance_ohm", "load_resistance_ohm", LoadDomain, category);
    ValueTitled(claim, policy, index, item, "vin_v", "input_voltage_v", VinDomain);
    ValueTitled(claim, policy, index, item, "input_voltage_v", "input_voltage_v", VinDomain);
    ValueTitled(claim, policy, index, item, "load_ohm", "load_resistance_ohm", LoadDomain);
    ValueTitled(claim, policy, index, item, "load_resistance_ohm", "load_resistance_ohm", LoadDomain);
    hide Titled; hide ValueSteps;
    TitledJoins(a, b);
    TitledJoins(a + b, c);
    TitledJoins(a + b + c, d);
  }

  lemma ValueTitled(claim: Claim, policy: Policy, index: nat, item: ScheduleItem, key: string, range: string, rule: Rule)
    requires Title(rule) == "out_of_envelope"
    ensures Titled(ValueSteps(claim, policy, index, item, key, range, rule, "invalid_schedule_value"))
  {
    if key in item { RangeTitled(claim, policy, range, item[key], rule, range); }
    hide RangeSteps;
  }

  lemma {:induction false} UnreviewedTitled(names: seq<string>)
    ensures Titled(UnreviewedSteps(names))
  {
    if names != [] {
      var n := |names| - 1;
      UnreviewedTitled(names[..n]);
      OneTitled(true, Raise(Unreviewed, "parameter_unreviewed", Named(names[n]), Advisory));
      TitledJoins(UnreviewedSteps(names[..n]), [Do(Raise(Unreviewed, "parameter_unreviewed", Named(names[n]), Advisory))]);
    }
  }

  datatype Overall = Disabled | Invalid | NotDeclared | Violated | Limited | Within

  datatype Summary = Summary(status: Overall, findingCount: nat, violationCount: nat, blocked: bool, limitations: seq<string>)

  /** The categories of the findings that do not block, each once, in order. */
  function Limitations(findings: seq<Finding>): seq<string> {
    if findings == [] then []
    else
      var before, last := Limitations(findings[..|findings| - 1]), findings[|findings| - 1];
      if last.Blocking() || last.category in before then before else before + [last.category]
  }

  /** The monitor's fields are its history: what was found, what stands, how often. */
  ghost predicate Mirrors(policy: Policy, trace: seq<Event>, all: seq<Finding>, seen: set<Key>, counts: Counter) {
    && all == Found(trace) && seen == Seen(trace) && Lawful(policy, trace) && AllGraded(policy, trace)
    && Sum(counts) == AllViolations(trace)
    && forall rule :: (if rule in counts then counts[rule] else 0) == Violations(trace, rule)
  }

  lemma MirrorsViolation(policy: Policy, trace: seq<Event>, all: seq<Finding>, seen: set<Key>, counts: Counter, r: Raise)
    requires Mirrors(policy, trace, all, seen, counts) && policy.mode != Off
    ensures var key := Key(r.rule, r.variable);
      if policy.deduplicate && key in seen then
        Mirrors(policy, After(policy, trace, Do(r)), all, seen, Bump(counts, r.rule))
      else
        Mirrors(policy, After(policy, trace, Do(r)), all + [Judge(policy, r)], seen + {key}, Bump(counts, r.rule))
  {
    var key := Key(r.rule, r.variable);
    var event := Violation(r, if policy.deduplicate && key in seen then None else Some(Judge(policy, r)));
    AfterGraded(policy, trace, Do(r));
    hide Lawful; hide Judge; hide AllGraded;
    SumBump(counts, r.rule);
    Extended(policy, trace, event);
  }

  lemma MirrorsRearmed(policy: Policy, trace: seq<Event>, all: seq<Finding>, seen: set<Key>, counts: Counter)
    requires Mirrors(policy, trace, all, seen, counts)
    ensures Mirrors(policy, trace + [Rearmed], all, seen - REARMED, counts)
  {
    AfterGraded(policy, trace, Rearm);
    hide Lawful; hide AllGraded;
    Extended(policy, trace, Rearmed);
  }

  class Monitor {
    const claim: Claim
    const policy: Policy
    const provenance: Provenance
    const bounds: Option<(real, real)>
    var all: seq<Finding>
    var pending: seq<Finding>
    var seen: set<Key>
    var counts: Counter
    var lastExternal: Option<Signature>
    ghost var trace: seq<Event>
    ghost var reports: seq<Report>

    constructor (claim: Claim, policy: Policy, provenance: Provenance, bounds: Option<(real, real)>)
      ensures Valid() && this.claim == claim && this.policy == policy && this.provenance == provenance && this.bounds == bounds
      ensures trace == [] && reports == [] && pending == [] && lastExternal == None
    {
      this.claim, this.policy, this.provenance, this.bounds := claim, policy, provenance, bounds;
      all, pending, seen, counts, lastExternal := [], [], {}, map[], None;
      trace, reports := [], [];
    }

    ghost predicate Valid()
      reads this
    {
      && Mirrors(policy, trace, all, seen, counts) && Concat(reports) + pending == all
      && forall r | r in reports :: r.passed <==> !AnyBlocking(r.findings)
    }

    method RecordViolation(r: Raise)
      requires Valid()
      modifies this`all, this`pending, this`seen, this`counts, this`trace
      ensures Valid() && trace == After(policy, old(trace), Do(r))
    {
      if policy.mode == Off { return; }
      var key := Key(r.rule, r.variable);
      MirrorsViolation(policy, trace, all, seen, counts, r);
      hide Mirrors; hide Bump; hide Found;
      trace := After(policy, trace, Do(r));
      if policy.deduplicate && key in seen {
        counts := Bump(counts, r.rule);
        return;
      }
      var finding := Judge(policy, r);
      seen := seen + {key};
      counts := Bump(counts, r.rule);
      all := all + [finding];
      pending := pending + [finding];
    }

    method RearmExternal()
      requires Valid()
      modifies this`seen, this`trace
      ensures Valid() && trace == old(trace) + [Rearmed]
    {
      MirrorsRearmed(policy, trace, all, seen, counts);
      hide Mirrors;
      trace := trace + [Rearmed];
      seen := seen - REARMED;
    }

    /** Hands over what has been found since the last report. */
    method MakeReport() returns (report: Report)
      requires Valid()
      modifies this`pending, this`reports
      ensures Valid() && pending == []
      ensures report.findings == old(pending) && (report.passed <==> !AnyBlocking(report.findings))
      ensures ModeObeyed(policy, trace, report.findings) && (policy.mode != Enforce ==> report.passed)
      ensures reports == old(reports) + [report]
    {
      HistoryObeysMode(policy, trace, pending);
      report := Report(!(exists f | f in pending :: f.Blocking()), pending);
      pending := [];
      reports := reports + [report];
    }

    method CheckRange(range: string, value: Option<real>, rule: Rule, variable: string)
      requires Valid()
      modifies this`all, this`pending, this`seen, this`counts, this`trace
      ensures Valid() && trace == Play(policy, old(trace), RangeSteps(claim, policy, range, value, rule, variable))
    {
      if value.None? { return; }
      var declared := RangeNamed(claim.ranges, range);
      if declared.None? || Contains(declared.value, value.value, policy.tolerance) { return; }
      PlayOne(policy, trace, Do(Raise(rule, "out_of_envelope", Named(variable), Hard)));
      RecordViolation(Raise(rule, "out_of_envelope", Named(variable), Hard));
    }

    method CheckExternal(now: Signature)
      requires Valid()
      modifies this`all, this`pending, this`seen, this`counts, this`trace, this`lastExternal
      ensures Valid() && trace == Play(policy, old(trace), ExternalSteps(policy, old(lastExternal), now))
      ensures lastExternal == if policy.checkExternalInputs then Some(now) else old(lastExternal)
    {
      if !policy.checkExternalInputs { return; }
      if lastExternal.Some? && now != lastExternal.value {
        var change := Raise(ExternalChanged, "external_input_changed", Named("external"), Advisory);
        PlayOne(policy, trace, Do(change));
        PlayAppend(policy, trace, [Do(change)], [Rearm]);
        PlayOne(policy, After(policy, trace, Do(change)), Rearm);
        assert [Do(change)] + [Rearm] == [Do(change), Rearm];
        RecordViolation(change);
        RearmExternal();
      }
      lastExternal := Some(now);
    }

    method CheckCcm(vin: Option<real>, load: Option<real>, duty: Option<real>)
      requires Valid()
      modifies this`all, this`pending, this`seen, this`counts, this`trace
      ensures Valid() && trace == Play(policy, old(trace), CcmSteps(claim, vin, load, duty))
    {
      if EstimateCcm(claim, vin, load, duty) == Discontinuous {
        var boundary := Raise(CcmBoundary, "ccm_boundary_violated", Named("duty"), Advisory);
        PlayOne(policy, trace, Do(boundary));
        RecordViolation(boundary);
      }
    }

    /** Checks one observation; a changed operating point re-arms its keys first. */
    method CheckObservation(vin: Option<real>, load: Option<real>, duty: Option<real>) returns (report: Report)
      requires Valid()
      modifies this
      ensures Valid() && pending == [] && reports == old(reports) + [report]
      ensures report.passed <==> !AnyBlocking(report.findings)
      ensures trace == Play(policy, old(trace), ObservationSteps(claim, policy, old(lastExternal), vin, load, duty))
      ensures lastExternal ==
        if policy.stepChecks && claim.status == Declared && policy.checkExternalInputs then Some((vin, load)) else old(lastExternal)
      ensures old(pending) == [] ==> Found(trace) == Found(old(trace)) + report.findings
      ensures old(pending) == [] ==>
        (!report.passed <==> Breached(claim, policy, old(trace), old(lastExternal), vin, load, duty))
      ensures ModeObeyed(policy, trace, report.findings) && (policy.mode != Enforce ==> report.passed)
    {
      ghost var start, last, found := trace, lastExternal, [];
      ghost var before := reports;
      assert pending == [] ==> Concat(before) == Found(start);
      if policy.stepChecks && claim.status == Declared { ObserveDeclared(vin, load, duty); }
      found := ObservationFailsIff(claim, policy, start, last, vin, load, duty);
      PlayNothing(policy, start);
      report := MakeReport();
      assert Concat(reports) == Found(trace) && Concat(reports) == Concat(before) + report.findings;
      hide *;
      Cancel(Found(start), report.findings, found);
    }

    method ObserveDeclared(vin: Option<real>, load: Option<real>, duty: Option<real>)
      requires Valid() && policy.stepChecks && claim.status == Declared
      modifies this`all, this`pending, this`seen, this`counts, this`trace, this`lastExternal
      ensures Valid()
      ensures trace == Play(policy, old(trace), ObservationSteps(claim, policy, old(lastExternal), vin, load, duty))
      ensures lastExternal == if policy.checkExternalInputs then Some((vin, load)) else old(lastExternal)
    {
      ghost var start, last := trace, lastExternal;
      assert ObservationSteps(claim, policy, last, vin, load, duty)
          == ExternalSteps(policy, last, (vin, load))
             + RangeSteps(claim, policy, "input_voltage_v", vin, VinDomain, "input_voltage_v")
             + RangeSteps(claim, policy, "load_resistance_ohm", load, LoadDomain, "load_resistance_ohm")
             + CcmSteps(claim, vin, load, duty);
      hide *;
      CheckExternal((vin, load));
      ghost var steps := ExternalSteps(policy, last, (vin, load));
      var input := RangeSteps(claim, policy, "input_voltage_v", vin, VinDomain, "input_voltage_v");
      PlayAppend(policy, start, steps, input);
      CheckRange("input_voltage_v", vin, VinDomain, "input_voltage_v");
      var output := RangeSteps(claim, policy, "load_resistance_ohm", load, LoadDomain, "load_resistance_ohm");
      PlayAppend(policy, start, steps + input, output);
      CheckRange("load_resistance_ohm", load, LoadDomain, "load_resistance_ohm");
      PlayAppend(policy, start, steps + input + output, CcmSteps(claim, vin, load, duty));
      CheckCcm(vin, load, duty);
    }

    /** Checks one requested duty; `None` stands for an action that is no number. */
    method CheckAction(action: Option<real>) returns (report: Report)
      requires Valid()
      modifies this
      ensures Valid() && pending == [] && reports == old(reports) + [report]
      ensures report.passed <==> !AnyBlocking(report.findings)
      ensures trace == Play(policy, old(trace), ActionSteps(claim, policy, action)) && lastExternal == old(lastExternal)
      ensures old(pending) == [] ==> Found(trace) == Found(old(trace)) + report.findings
      ensures old(pending) == [] ==>
        (!report.passed <==> ActionBreached(claim, policy, old(trace), action))
      ensures ModeObeyed(policy, trace, report.findings) && (policy.mode != Enforce ==> report.passed)
    {
      ghost var start, found, before := trace, [], reports;
      assert pending == [] ==> Concat(before) == Found(start);
      RunAction(action);
      found := ActionFailsIff(claim, policy, start, action);
      report := MakeReport();
      assert Concat(reports) == Found(trace) && Concat(reports) == Concat(before) + report.findings;
      hide *;
      Cancel(Found(start), report.findings, found);
    }

    method RunAction(action: Option<real>)
      requires Valid()
      modifies this`all, this`pending, this`seen, this`counts, this`trace
      ensures Valid() && trace == Play(policy, old(trace), ActionSteps(claim, policy, action))
    {
      ghost var start := trace;
      PlayNothing(policy, start);
      if policy.stepChecks && claim.status == Declared && action.Some? {
        var range := RangeSteps(claim, policy, "duty", action, DutyDomain, "duty");
        var resolution := ResolutionSteps(claim, action.value);
        assert ActionSteps(claim, policy, action) == range + resolution;
        hide *;
        PlayAppend(policy, start, range, resolution);
        CheckRange("duty", action, DutyDomain, "duty");
        CheckDutyResolution(action.value);
      }
    }

    method CheckDutyResolution(duty: real)
      requires Valid()
      modifies this`all, this`pending, this`seen, this`counts, this`trace
      ensures Valid() && trace == Play(policy, old(trace), ResolutionSteps(claim, duty))
    {
      if PulseTooShort(claim, duty) {
        var short := Raise(DutyResolution, "pulse_width_below_template_resolution", Named("duty_resolution"), Advisory);
        PlayOne(policy, trace, Do(short));
        RecordViolation(short);
      }
    }

    /** Checks the declaration before a run; `None` where the check raises an exception. */
    method CheckPreflight(schedule: seq<ScheduleItem>, control: Option<real>) returns (report: Option<Report>)
      requires Valid()
      modifies this
      ensures Valid() && lastExternal == old(lastExternal)
      ensures report.None? <==> PreflightStops(claim, policy, control)
      ensures report.None? ==> reports == old(reports)
      ensures report.Some? ==> pending == [] && reports == old(reports) + [report.value]
      ensures report.Some? ==> (report.value.passed <==> !AnyBlocking(report.value.findings))
      ensures trace == Play(policy, old(trace), PreflightSteps(claim, policy, provenance, bounds, schedule, control))
      ensures report.Some? && old(pending) == [] ==> Found(trace) == Found(old(trace)) + report.value.findings
      ensures report.Some? && old(pending) == [] ==> (!report.value.passed <==>
        policy.preflightChecks && PreflightBreached(claim, policy, provenance, bounds, schedule, control, old(trace)))
      ensures report.Some? ==> ModeObeyed(policy, trace, report.value.findings) && (policy.mode != Enforce ==> report.value.passed)
    {
      ghost var start, found, before := trace, [], reports;
      assert pending == [] ==> Concat(before) == Found(start);
      var stopped := RunPreflight(schedule, control);
      if stopped { return None; }
      PlayNothing(policy, start);
      if policy.preflightChecks {
        found := PreflightFailsIff(claim, policy, provenance, bounds, schedule, control, start);
      }
      var made := MakeReport();
      report := Some(made);
      assert Concat(reports) == Found(trace) && Concat(reports) == Concat(before) + made.findings;
      hide *;
      Cancel(Found(start), made.findings, found);
    }

    method RunPreflight(schedule: seq<ScheduleItem>, control: Option<real>) returns (stopped: bool)
      requires Valid()
      modifies this`all, this`pending, this`seen, this`counts, this`trace
      ensures Valid() && (stopped <==> PreflightStops(claim, policy, control))
      ensures trace == Play(policy, old(trace), PreflightSteps(claim, policy, provenance, bounds, schedule, control))
    {
      stopped := false;
      PlayNothing(policy, trace);
      StepZeroMeans(claim);
      hide Valid; hide Play; hide DeclaredSteps; hide After; hide StepZero; hide DividesByZero;
      if policy.preflightChecks {
        match claim.status
        case Unknown =>
          var unknown := Raise(DeclarationUnknown, "envelope_undeclared", Named("claim"), Demand(policy.requireEnvelope));
          PlayOne(policy, trace, Do(unknown));
          RecordViolation(unknown);
        case DeclarationInvalid =>
          var invalid := Raise(DeclarationUnreadable, "envelope_declaration_invalid", Named("claim"), Demand(policy.requireEnvelope));
          PlayOne(policy, trace, Do(invalid));
          RecordViolation(invalid);
        case Declared =>
          stopped := CheckDeclared(schedule, control);
      }
    }

    method CheckDeclared(schedule: seq<ScheduleItem>, control: Option<real>) returns (stopped: bool)
      requires Valid()
      modifies this`all, this`pending, this`seen, this`counts, this`trace
      ensures Valid() && (stopped <==> control.Some? && StepZero(claim))
      ensures trace == Play(policy, old(trace), DeclaredSteps(claim, policy, provenance, bounds, schedule, control))
    {
      ghost var start := trace;
      ghost var a, b, c := ActuatorSteps(claim, policy, bounds), ScheduleSteps(claim, policy, schedule), TimebaseSteps(claim, policy, control);
      ghost var d := if control.Some? && StepZero(claim) then [] else ProvenanceSteps(policy, provenance);
      assert DeclaredSteps(claim, policy, provenance, bounds, schedule, control) == a + b + c + d;
      PlayNothing(policy, Play(policy, start, a + b + c));
      hide *;
      PlayAppend(policy, start, a, b);
      PlayAppend(policy, start, a + b, c);
      PlayAppend(policy, start, a + b + c, d);
      CheckActuator();
      CheckSchedule(schedule);
      stopped := CheckTimebase(control);
      if !stopped { CheckProvenance(); }
    }

    method Ask(asked: bool, r: Raise)
      requires Valid()
      modifies this`all, this`pending, this`seen, this`counts, this`trace
      ensures Valid() && trace == Play(policy, old(trace), IfSo(asked, r))
    {
      PlayNothing(policy, trace);
      PlayOne(policy, trace, Do(r));
      if asked { RecordViolation(r); }
    }

    /** The five comparisons with declared limits; `stopped` where one divides by zero. */
    method CheckTimebase(control: Option<real>) returns (stopped: bool)
      requires Valid()
      modifies this`all, this`pending, this`seen, this`counts, this`trace
      ensures Valid() && (stopped <==> control.Some? && StepZero(claim))
      ensures trace == Play(policy, old(trace), TimebaseSteps(claim, policy, control))
    {
      ghost var start := trace;
      PlayNothing(policy, start);
      if control.None? { return false; }
      CheckEarly();
      PlayNothing(policy, trace);
      PlayAppend(policy, start, EarlySteps(claim, policy), if StepZero(claim) then [] else LateSteps(claim, control.value));
      stopped := StepZero(claim);
      if !stopped { CheckLate(control.value); }
    }

    method CheckEarly()
      requires Valid()
      modifies this`all, this`pending, this`seen, this`counts, this`trace
      ensures Valid() && trace == Play(policy, old(trace), EarlySteps(claim, policy))
    {
      ghost var start := trace;
      var ratio := Short(claim, "switching_periods_per_control_period", RATIO_LIMIT);
      var ratioRaise := LimitRaise(claim, SwitchingPeriods, "control_period_too_short", "control_period", RATIO_LIMIT);
      var samples := Short(claim, "samples_per_switching_period", SAMPLES_LIMIT);
      var samplesRaise := LimitRaise(claim, SampleResolution, "insufficient_sample_resolution", "sample_resolution", SAMPLES_LIMIT);
      var long := StepTooLong(claim, policy);
      var longRaise := LimitRaise(claim, TimestepDynamics, "integration_step_too_large", "integration_step", STEP_LIMIT);
      assert EarlySteps(claim, policy) == IfSo(ratio, ratioRaise) + IfSo(samples, samplesRaise) + IfSo(long, longRaise);
      hide *;
      Ask(ratio, ratioRaise);
      PlayAppend(policy, start, IfSo(ratio, ratioRaise), IfSo(samples, samplesRaise));
      Ask(samples, samplesRaise);
      PlayAppend(policy, start, IfSo(ratio, ratioRaise) + IfSo(samples, samplesRaise), IfSo(long, longRaise));
      Ask(long, longRaise);
    }

    method CheckLate(control: real)
      requires Valid()
      modifies this`all, this`pending, this`seen, this`counts, this`trace
      ensures Valid() && trace == Play(policy, old(trace), LateSteps(claim, control))
    {
      ghost var start := trace;
      var few := TooFewSubsteps(claim, control);
      var fewRaise := LimitRaise(claim, Substeps, "insufficient_integration_substeps", "control_period", SUBSTEPS);
      var load := Short(claim, "load_off_resistance_ratio", LOAD_LIMIT);
      var loadRaise := LimitRaise(claim, OffResistance, "load_too_close_to_switch_off_resistance", "load_ratio", LOAD_LIMIT);
      assert LateSteps(claim, control) == IfSo(few, fewRaise) + IfSo(load, loadRaise);
      hide *;
      Ask(few, fewRaise);
      PlayAppend(policy, start, IfSo(few, fewRaise), IfSo(load, loadRaise));
      Ask(load, loadRaise);
    }

    method CheckProvenance()
      requires Valid()
      modifies this`all, this`pending, this`seen, this`counts, this`trace
      ensures Valid() && trace == Play(policy, old(trace), ProvenanceSteps(policy, provenance))
    {
      match provenance.status
      case DeclarationInvalid =>
        var invalid := Raise(ProvenanceUnreadable, "parameter_provenance_invalid", Named("provenance"), Demand(policy.requireProvenance));
        PlayOne(policy, trace, Do(invalid));
        RecordViolation(invalid);
      case Unknown =>
        var unknown := Raise(ProvenanceUnknown, "parameter_provenance_unknown", Named("provenance"), Demand(policy.requireProvenance));
        PlayOne(policy, trace, Do(unknown));
        RecordViolation(unknown);
      case Declared =>
        RecordUnreviewed(provenance.unreviewed);
    }

    method RecordUnreviewed(names: seq<string>)
      requires Valid()
      modifies this`all, this`pending, this`seen, this`counts, this`trace
      ensures Valid() && trace == Play(policy, old(trace), UnreviewedSteps(names))
    {
      hide After;
      for k := 0 to |names|
        invariant Valid() && trace == Play(policy, old(trace), UnreviewedSteps(names[..k]))
      {
        assert names[..k + 1][..k] == names[..k];
        var r := Raise(Unreviewed, "parameter_unreviewed", Named(names[k]), Advisory);
        PlayAppend(policy, old(trace), UnreviewedSteps(names[..k]), [Do(r)]);
        PlayOne(policy, trace, Do(r));
        RecordViolation(r);
      }
      assert names[..|names|] == names;
    }

    method CheckActuator()
      requires Valid()
      modifies this`all, this`pending, this`seen, this`counts, this`trace
      ensures Valid() && trace == Play(policy, old(trace), ActuatorSteps(claim, policy, bounds))
    {
      if bounds.None? { return; }
      var declared := RangeNamed(claim.ranges, "duty");
      var (low, high) := bounds.value;
      if declared.None? {
        var undeclared := Raise(ActuatorUndeclared, "actuator_undeclared", Named("duty"), Advisory);
        PlayOne(policy, trace, Do(undeclared));
        RecordViolation(undeclared);
      } else if !Contains(declared.value, low, policy.tolerance) || !Contains(declared.value, high, policy.tolerance) {
        var outside := Raise(ActuatorSubset, "actuator_outside_envelope", Named("duty"), Hard);
        PlayOne(policy, trace, Do(outside));
        RecordViolation(outside);
      }
    }

    method CheckSchedule(schedule: seq<ScheduleItem>)
      requires Valid()
      modifies this`all, this`pending, this`seen, this`counts, this`trace
      ensures Valid() && trace == Play(policy, old(trace), ScheduleSteps(claim, policy, schedule))
    {
      hide ItemSteps; hide After;
      for k := 0 to |schedule|
        invariant Valid() && trace == Play(policy, old(trace), ScheduleSteps(claim, policy, schedule[..k]))
      {
        assert schedule[..k + 1][..k] == schedule[..k];
        PlayAppend(policy, old(trace), ScheduleSteps(claim, policy, schedule[..k]), ItemSteps(claim, policy, k, schedule[k]));
        CheckItem(k, schedule[k]);
      }
      assert schedule[..|schedule|] == schedule;
    }

    method CheckItem(index: nat, item: ScheduleItem)
      requires Valid()
      modifies this`all, this`pending, this`seen, this`counts, this`trace
      ensures Valid() && trace == Play(policy, old(trace), ItemSteps(claim, policy, index, item))
    {
      hide ValueSteps; hide After;
      var category := "invalid_schedule_value";
      var a := ValueSteps(claim, policy, index, item, "vin_v", "input_voltage_v", VinDomain, category);
      var b := ValueSteps(claim, policy, index, item, "input_voltage_v", "input_voltage_v", VinDomain, category);
      var c := ValueSteps(claim, policy, index, item, "load_ohm", "load_resistance_ohm", LoadDomain, category);
      var d := ValueSteps(claim, policy, index, item, "load_resistance_ohm", "load_resistance_ohm", LoadDomain, category);
      PlayAppend(policy, trace, a, b);
      PlayAppend(policy, trace, a + b, c);
      PlayAppend(policy, trace, a + b + c, d);
      CheckValue(index, item, "vin_v", "input_voltage_v", VinDomain, category);
      CheckValue(index, item, "input_voltage_v", "input_voltage_v", VinDomain, category);
      CheckValue(index, item, "load_ohm", "load_resistance_ohm", LoadDomain, category);
      CheckValue(index, item, "load_resistance_ohm", "load_resistance_ohm", LoadDomain, category);
    }

    method CheckValue(index: nat, item: ScheduleItem, key: string, range: string, rule: Rule, category: string)
      requires Valid()
      modifies this`all, this`pending, this`seen, this`counts, this`trace
      ensures Valid() && trace == Play(policy, old(trace), ValueSteps(claim, policy, index, item, key, range, rule, category))
    {
      if key !in item { return; }
      if item[key].None? {
        var invalid := Raise(ScheduleInvalid, category, Scheduled(index, key), Hard);
        PlayOne(policy, trace, Do(invalid));
        RecordViolation(invalid);
      } else {
        CheckRange(range, item[key], rule, range);
      }
    }

    /** The run's verdict: blocked exactly when some report so far failed. */
    method Summarise() returns (summary: Summary)
      requires Valid() && pending == []
      ensures summary.blocked <==> exists r | r in reports :: !r.passed
      ensures policy.mode != Enforce ==> !summary.blocked && forall r | r in reports :: r.passed
      ensures ModeObeyed(policy, trace, Concat(reports))
      ensures summary.blocked <==> AnyBlocking(Concat(reports))
      ensures summary.findingCount == |Concat(reports)| && summary.violationCount == AllViolations(trace)
      ensures summary.limitations == Limitations(Concat(reports))
      ensures policy.mode != Off && claim.status == Declared ==>
        && (summary.status == Violated <==> summary.blocked)
        && (summary.status == Within <==> all == [])
        && (summary.status == Limited <==> all != [] && !summary.blocked)
      ensures policy.mode == Off ==> summary.status == Disabled
      ensures policy.mode != Off && claim.status == DeclarationInvalid ==> summary.status == Invalid
      ensures policy.mode != Off && claim.status == Unknown ==> summary.status == NotDeclared
    {
      HistoryObeysMode(policy, trace, all);
      SomeReportFailedIff(reports);
      assert Concat(reports) == all;
      var blocked := exists f | f in all :: f.Blocking();
      var status := if policy.mode == Off then Disabled
        else if claim.status == DeclarationInvalid then Invalid
        else if claim.status == Unknown then NotDeclared
        else if blocked then Violated
        else if all != [] then Limited
        else Within;
      var total := Total(counts);
      var limitations := CollectLimitations(all);
      summary := Summary(status, |all|, total, blocked, limitations);
    }
  }

  method Total(counts: Counter) returns (total: nat)
    ensures total == Sum(counts)
  {
    total := 0;
    var left := counts;
    while left != map[]
      invariant total + Sum(left) == Sum(counts)
      decreases |left|
    {
      var rule :| rule in left;
      SumTakesAny(left, rule);
      total := total + left[rule];
      left := left - {rule};
    }
  }

  method CollectLimitations(findings: seq<Finding>) returns (limitations: seq<string>)
    ensures limitations == Limitations(findings)
  {
    limitations := [];
    for k := 0 to |findings|
      invariant limitations == Limitations(findings[..k])
    {
      assert findings[..k + 1][..k] == findings[..k];
      if !findings[k].Blocking() && findings[k].category !in limitations {
        limitations := limitations + [findings[k].category];
      }
    }
    assert findings[..|findings|] == findings;
  }

  /** Each category that did not block is listed once, in the order first found. */
  lemma {:induction false} LimitationsMean(findings: seq<Finding>)
    ensures forall c :: c in Limitations(findings) <==> exists f | f in findings :: !f.Blocking() && f.category == c
    ensures forall i, j | 0 <= i < j < |Limitations(findings)| :: Limitations(findings)[i] != Limitations(findings)[j]
  {
    if findings != [] {
      var n := |findings| - 1;
      LimitationsMean(findings[..n]);
      assert forall f :: f in findings <==> f in findings[..n] || f == findings[n];
    }
  }

  /** Later findings come after: what the list says of the first findings stands first. */
  lemma {:induction false} LimitationsGrow(findings: seq<Finding>, more: seq<Finding>)
    ensures Limitations(findings) <= Limitations(findings + more)
  {
    if more == [] {
      assert findings + more == findings;
    } else {
      var n := |more| - 1;
      assert (findings + more)[..|findings| + n] == findings + more[..n];
      LimitationsGrow(findings, more[..n]);
    }
  }

  lemma PlayNothing(policy: Policy, trace: seq<Event>)
    ensures Play(policy, trace, []) == trace
  {}

  lemma PlayOne(policy: Policy, trace: seq<Event>, step: Step)
    ensures Play(policy, trace, [step]) == After(policy, trace, step)
  {
    assert [step][..0] == [];
  }

  lemma Extended(policy: Policy, trace: seq<Event>, event: Event)
    requires Lawful(policy, trace)
    requires event.Violation? ==> (event.finding.None? <==> policy.deduplicate && KeyOf(event.what) in Seen(trace))
    ensures Lawful(policy, trace + [event])
    ensures (trace + [event])[..|trace|] == trace
  {
    hide Seen;
    var after := trace + [event];
    forall i | 0 <= i < |after| && after[i].Violation?
      ensures after[i].finding.None? <==> policy.deduplicate && KeyOf(after[i].what) in Seen(after[..i])
    {
      if i < |trace| { assert after[..i] == trace[..i]; } else { assert after[..i] == trace; }
    }
  }
}
