# Verified model of the simulator's hard cores

`pe_sim` compiles a switching-converter descriptor into timed gate sources, runs digital
compensators, reads loop margins off sampled responses, publishes run directories as
evidence and monitors a declared validity envelope. This project models the parts of it
where one wrong branch changes a physical or evidential claim, and proves what those parts
are for. `dafny verify dfyconfig.toml` checks everything.

| file | what it holds |
|---|---|
| `Wrappers.dfy`, `RealMod.dfy`, `WhiteSpace.dfy` | options and results; the floor-based `%` on exact reals; stripping |
| `GateControl.dfy` | one duty, a control declaration and the carriers become per-gate on-windows, in all four modes, with every refusal |
| `Refusals.dfy` | what a control declaration that does not fit is refused with |
| `GateSignal.dfy` | the periodic gate indicator, the PULSE-plus-tail rendering of it, solve windows, dead time |
| `DutyStep.dfy` | a duty that changes at any time, and the dead time across the change |
| `Interleaving.dfy` | how many interleaved phases are on at once |
| `Cards.dfy` | the cards that drive gate nets and what they make of node potentials |
| `Netlist.dfy` | nets and ports, the component loop with its names and synthetic nodes, one compiled window |
| `CompiledRuns.dfy` | what the switches sense over whole runs of compiled windows |
| `Complexes.dfy`, `Polynomials.dfy`, `Tustin.dfy` | compensator coefficients, and the frequency axis they are read back on |
| `Compensator.dfy` | the difference equation with saturation, reset, snapshot and restore |
| `Frequency.dfy`, `Margins.dfy` | phase unwrapping, swept axis, crossover search, margins |
| `MarkerText.dfy`, `MarkerExpr.dfy`, `MarkerMeaning.dfy`, `MarkerExtras.dfy`, `MarkerRecord.dfy` | the environment-marker flattener, its grammar, and what flattening and recording do to a marker's meaning |
| `Artifacts.dfy` | derived digests of a run package and their verification |
| `Publication.dfy` | the writer's write/validate/rename/publish protocol with a crash after any step |
| `AnchorLog.dfy` | the append-only anchor log |
| `Envelope.dfy` | the deduplicating envelope monitor |

## How it is modelled

- Time, phases, gains and voltages are exact reals. The compiler's snap of `1e-12` is a
  parameter `eps`, zero allowed; statements without an `eps` are about `eps = 0`. Source
  edges are instantaneous.
- Nodes carry potentials against ground. A source card relates its node to its reference
  node, a sum card adds two potentials, and a statement about a netlist is about every
  assignment of potentials its source cards agree with.
- `pi`, `log10` and its inverse are parameters with the properties a caller can rely on.
- SHA-256, canonical JSON, its reader and the path order are parameters. A hash is assumed
  collision free only where a statement says so, and never together with being 64 hex digits
  long, which would contradict it; there, only the two texts compared must not collide.
- Exceptions become `Result` values. A file-system step that cannot be seen half done (an
  atomic write, a rename, a file deletion) is one step of a ghost history, and a crash is any
  entry of that history.

## Where the code and its own words part

Each of these is a lemma, with the exact condition where there is one.

- A gate phase just past the window start has its first rise pulled to zero while its tail is
  still rendered, and a very short tail is dropped: `GateSignal.RenderingExactIff`.
- The dead time is kept for any duty that changes between cycles; a change inside a cycle
  loses it at exactly two places of the cycle, one when the duty drops and one when it
  rises: `DutyStep.ChangeKeepsDeadTimeIff`. The two on-times add up
  to the cycle less two dead times exactly while the duty leaves the low side a window:
  `GateSignal.OnTimesFillCycleIff`.
- A gate that straddles a window start is written as a sum of two nodes read against ground,
  each of which already stands on the carrier's negative node. With a carrier that floats the
  switch senses twice that node's potential on top of its gate, so a high-side drive can stay
  on after its gate is off (`Cards.FloatingBuckStaysOn`). What a switch senses is its gate
  exactly when the carrier is written against ground or the gate does not straddle:
  `CompiledRuns.CompiledNetCarriesRunGateIff`, `CompiledRuns.SwitchFollowsGateIff`; a floating
  carrier is safe in every window only when its gate is never on:
  `CompiledRuns.SteadyEverywhereIff`.
- The reference net is written `0` whatever it is called, so another declared net called `0`
  is silently the same node: `Netlist.NodesApartIff`.
- The phase offset is announced in `(-180, 180]` and computed in `[-180, 180)`:
  `Margins.AnnouncedOffsetRangeIff`. Its jump at multiples of 360 invents phase crossovers:
  `Margins.PhaseCrossoverGenuineIff` for any phases, `Margins.UnwrappedCrossoverGenuineIff`
  for unwrapped ones.
- `restore` refuses foreign coefficients but accepts foreign limits
  (`Compensator.ForeignLimitsAccepted`), and then departs from the saved law for some input
  unless the limits agree: `Compensator.ForeignLimitsIff`.
- Flattening a marker drops its brackets and can only widen it; which markers survive:
  `MarkerMeaning.FlatteningKeepsMeaningIff` where every leaf has a value of its own,
  `MarkerRecord.FlatteningInEnvironments` where equal comparisons agree. The recorded pair of
  marker and extra means the declared marker exactly when no extra is named, or one that is
  reached through `and` and brackets only, and flattening keeps what is left without it:
  `MarkerRecord.RecordMeansDeclaredMarkerIff`. So `(a or b) and x` with an extra `x` is
  recorded right, while `a or x`, or two different extras, never are.
- The package digest is said to cover the complete package but skips any file *named*
  `manifest.json` or `.run-state.json` at any depth: `Artifacts.ChangeDetectedIff`. A manifest
  with a hash summary of its own cannot be filled with its digests and still verify:
  `Artifacts.FilledManifestPassesIff`.
- A caller may write the state marker like any artifact and so hide an unfinished run:
  `Publication.ForgedMarkerHidesRun`; `Publication.TemporaryReportedIff` says when a run is
  reported.
- A record whose text holds U+0085, U+2028 or U+2029 is appended but not read back, unless a
  line it breaks into happens to be it: `AnchorLog.AppendedIsReadIff`. It is then appended
  again each time: `AnchorLog.AppendedEachTimeIff`.
- The reader collects unreadable lines as problems, but a line whose `record_sha256` is an
  array or an object raises and so stops every later read and append: `AnchorLog.ReadAnchorIndex`.
  No run of appends of one-line records makes such a line or cures one
  (`AnchorLog.RunKeepsRecords`); any other record makes one exactly when its own text breaks
  into one (`AnchorLog.AppendedIsReadIff`).
- Unwrapping marker brackets does not see quotes: `MarkerExpr.BracketsComeOffIff`. Markers whose
  quoted brackets pair up are safe: `MarkerExpr.BalancedIsOk`.
- A declared integration step of zero with a limit on substeps ends the preflight in a division
  by zero instead of a report: `Envelope.Monitor.CheckPreflight`.
- A positive tolerance lets an exclusive bound in: `Envelope.ExclusiveBoundInsideIff`; what
  else it adds: `Envelope.ToleranceAddsRims`.
- The stale-directory check of a run also stops at directories of longer run ids, so `a` is
  refused beside `.a.b.xyz`: `Publication.BlockedIff`. It does not see a run whose id is the
  name it is about to give its own directory, such as `.b.abc` for run `b`:
  `Publication.WritersApartIff`, `Publication.SecondWriterKeepsIff`.

## Model

| member | source | states |
|---|---|---|
| RealMod.ModMeans | src/pe_sim/circuit_compile.py:1513 | the floor remainder is exactly the number in `[0, period)` that differs from its argument by whole periods |
| RealMod.CongruentIffModEqual | src/pe_sim/circuit_compile.py:1528 | two times a whole number of periods apart are exactly those with equal remainders |
| GateControl.ReadPairs | src/pe_sim/circuit_compile.py:472-529 | a pair list is accepted exactly when it is not empty and names no switch twice, and is then kept as written |
| GateControl.PairedGates | src/pe_sim/circuit_compile.py:660-852 | a paired set is refused exactly for its first fault, in the order the checks run, and otherwise every leg gets its complementary windows and its own share of the shift |
| GateControl.PairedAcceptedIff | src/pe_sim/circuit_compile.py:660-838 | there is no fault exactly when the pairs cover all switches, each pair is a half bridge with one switch at the reference net, all gates have nets and usable carriers of their own, at one frequency, with no other dead time, the dead time is under half a period and the shift under one |
| GateControl.PairsPlanned | src/pe_sim/circuit_compile.py:842-852 | of every accepted pair, the switch at the reference net gets the late window and the other one the early window, both delayed by the pair's place times the shift |
| GateControl.ClassifyLegs | src/pe_sim/circuit_compile.py:710-775 | which switch of each pair is high and low, and the first leg that is no half bridge, reuses a gate net or lacks a carrier |
| GateControl.LegsUpToReady | src/pe_sim/circuit_compile.py:710-775 | no two classified legs, and no two gates of one leg, share a control net, and each net has a usable carrier |
| GateControl.TimingAcceptedIff | src/pe_sim/circuit_compile.py:777-838 | the timing of classified legs is accepted exactly when every gate runs at one frequency and declares no other dead time, the dead time leaves half a period and the shift a whole one |
| GateControl.RenderLegs | src/pe_sim/circuit_compile.py:840-852 | exactly the legs' nets get windows and delays, leg `k` delayed by `k` shifts |
| GateControl.ComplementaryGates | src/pe_sim/circuit_compile.py:1383-1478 | an accepted pair gives the net of the switch at the reference net the late window, that of the other one the window at the start of the cycle, and no delays; a refused one is refused for its first fault |
| GateControl.ComplementaryAcceptedIff | src/pe_sim/circuit_compile.py:1383-1469 | it is accepted exactly when there are two switches, one of them at the reference net, with two nets and two usable carriers whose timing agrees |
| GateControl.InterleavedGates | src/pe_sim/circuit_compile.py:855-964 | the phase order is the declared one, or else the bound nets in ascending order; every phase has the common width and starts `k*T/N` late; or the first fault |
| GateControl.InterleavedAcceptedIff | src/pe_sim/circuit_compile.py:886-954 | there is no fault exactly when as many nets are bound as there are phases, a written order lists exactly those, the carriers are theirs, and all run like the first one |
| GateControl.ResolveOrder | src/pe_sim/circuit_compile.py:886-954 | an accepted order is the declared one, or else the ascending one; it lists exactly the bound nets, each once, all with one usable frequency |
| GateControl.SortedAscends | src/pe_sim/circuit_compile.py:913-914 | the default order is the bound nets, none lost, in ascending order |
| GateControl.SingleGate | src/pe_sim/circuit_compile.py:1321-1382 | without a declaration exactly one switch and one carrier on the same net are accepted |
| GateControl.CompileControl | src/pe_sim/circuit_compile.py:1291-1501 | a compilation is accepted exactly when the duty lies in `[0, 1]`, no net has two carriers and the graph meets what the declared mode asks of it; the plan then says of every switch, by where it is connected, which window and delay its net gets, and every gate in it has a pulse source |
| GateControl.CarriersMean | src/pe_sim/circuit_compile.py:1304-1318 | each net gets the carrier of its own pulse source |
| GateControl.ByIdMeans | src/pe_sim/circuit_compile.py:686 | the switches are found by their ids, the last one of an id counting |
| GateControl.PlannedWindowsFit | src/pe_sim/circuit_compile.py:1470-1477 | every window of every accepted plan lies inside the switching cycle |
| Refusals.ComplementaryRefusal | src/pe_sim/circuit_compile.py:1383-1469 | a refused pair is ambiguous unless its two switches, nets and carriers are those of one half bridge; then the high carrier's fault comes before the low one's, and a timing fault last |
| Refusals.PairedRefusal | src/pe_sim/circuit_compile.py:660-838 | a refused set names the wrong switches, or has a first pair that is ambiguous or lacks a carrier, the high one first, or has a timing fault |
| Refusals.InterleavedRefusal | src/pe_sim/circuit_compile.py:886-954 | a refused set has the wrong nets, then a net without a carrier, then a stray carrier, then an unusable frequency, then a frequency of its own |
| GateSignal.RenderingExactIff | src/pe_sim/circuit_compile.py:993-1024 | pulse plus tail carries the gate indicator at every instant of the window exactly when neither snap fires |
| GateSignal.UnsnappedExact | src/pe_sim/circuit_compile.py:995-1014 | with no snap the level is the indicator, so never above one amplitude, and the tail ends before the first rise |
| GateSignal.SnapWitness | src/pe_sim/circuit_compile.py:996-1001 | a snapped rendering is wrong at a named instant |
| GateSignal.FirstRiseIsLeast | src/pe_sim/circuit_compile.py:1540-1547 | the recorded first rise is the least non-negative time at which the carrier reaches the gate's start |
| GateSignal.NormalPhaseMeans | src/pe_sim/circuit_compile.py:1518-1531 | a phase is reduced into one period, and counts as zero when it falls short of a whole one by at most the tolerance or that part of a period |
| GateSignal.LevelNeedsGate | src/pe_sim/circuit_compile.py:993-1024 | whenever a source is high the gate was on no more than a tolerance earlier |
| GateSignal.WindowGateIsRunGate | src/pe_sim/circuit_compile.py:1503-1531 | a window compiled at its own start shows the run's gate, advanced by at most two tolerances |
| GateSignal.SolvedIsRunGate | src/pe_sim/circuit_compile.py:1503-1531 | with no snap the sources of one window carry the unbroken run's gate |
| GateSignal.OpenWindowOpened | src/pe_sim/circuit_compile.py:1503-1531 | the window solved at a time is the last one that has begun |
| GateSignal.WindowSplittingPreservesGate | src/pe_sim/circuit_compile.py:1503-1531 | for every partition of a run into windows the concatenated signal is that of the run solved as one window |
| GateSignal.DeadTimeSeparation | src/pe_sim/circuit_compile.py:842-852 | over all time, high-on and low-on instants of a leg are at least the dead time apart, for any delay and a duty that changes between cycles |
| GateSignal.RenderedDeadTime | src/pe_sim/circuit_compile.py:1470-1477 | the same for the rendered sources of any windows, less one tolerance inside a window and three across |
| DutyStep.ChangeKeepsDeadTimeIff | src/pe_sim/circuit_compile.py:1470-1477 | for any duties before and after, any delay and any time of change, the gates keep the dead time over the whole run exactly when the change falls on neither of two places in the cycle |
| GateSignal.OnTimesFillCycleIff | src/pe_sim/circuit_compile.py:1470-1477 | the two on-times add up to the period less two dead times exactly when the duty leaves the low window room |
| Interleaving.FullRotation | src/pe_sim/circuit_compile.py:956-964 | over one rotation of `N` equally shifted phases each cell of the cycle is met once |
| Interleaving.InterleavingBalanced | src/pe_sim/circuit_compile.py:956-964 | at every instant `N*D` phases are on, rounded down or up, and the count repeats after `T/N` |
| Interleaving.RenderedPhasesCounted | src/pe_sim/circuit_compile.py:956-964 | the rendered sources of the phases add up to that count in every window |
| Netlist.SyntheticNode | src/pe_sim/circuit_compile.py:331-342 | the loop ends, with the shortest padding of the base that no node uses |
| Netlist.Compilation.RenderGate | src/pe_sim/circuit_compile.py:967-1024 | the cards one gate adds against its carrier's negative node, the names and nodes it takes, and that the netlist stays well formed |
| Netlist.Compilation.NextName | src/pe_sim/circuit_compile.py:1577-1578 | a letter's counter goes up by one and names the element |
| Cards.GateCardsSense | src/pe_sim/circuit_compile.py:993-1024 | in every solution a switch that measures against the gate's reference senses the gate's level, plus twice the reference's potential when the gate is summed |
| Cards.GateCardsCarry | src/pe_sim/circuit_compile.py:993-1024 | in whichever form a gate is written, its net has one driver and that is what is sensed |
| Cards.SensesLevelIff | src/pe_sim/circuit_compile.py:1015-1024 | what is sensed is the level, whatever the potentials, exactly when the reference is ground or the gate does not straddle |
| Cards.FloatingBuckStaysOn | src/pe_sim/circuit_compile.py:1015-1024 | a floating high-side drive senses 24 V after its gate is off, with 12 V on the switch node |
| Cards.Settles | src/pe_sim/circuit_compile.py:1571-1628 | any potentials of the undriven nodes extend to a solution of the source cards |
| Cards.GateAppended | src/pe_sim/circuit_compile.py:1594-1618 | written after cards that stay off its net, a gate is carried |
| Cards.OtherGateKept | src/pe_sim/circuit_compile.py:1571-1628 | cards that stay off a net leave its gate as it was |
| Cards.WellFormedAppend | src/pe_sim/circuit_compile.py:1556-1580 | element names stay distinct within their counters, synthetic nodes stay apart from declared nets, and only a gate's own cards stand on its two |
| Cards.HiddenNodesApart | src/pe_sim/circuit_compile.py:1009-1013 | over the whole netlist no two gates share a synthetic node, and the two of one gate differ |
| Netlist.NodesApartIff | src/pe_sim/circuit_compile.py:327-328 | declared nets keep nodes of their own exactly when no other net is called `0` |
| Netlist.CheckNets | src/pe_sim/circuit_compile.py:1148-1228 | the nets are accepted exactly with one reference net, none without an electrical meaning, and every port on a kind it accepts |
| Netlist.CompileNetlist | src/pe_sim/circuit_compile.py:1556-1660 | the loop refuses exactly a pulse source on an undeclared gate net; otherwise names are distinct, every net with a pulse source has exactly one driver that carries its gate, and no other element is on it |
| Netlist.CompileTopology | src/pe_sim/circuit_compile.py:1122-1660 | nets, plan and netlist of the same components: every switch's net has the window its own connections ask for, every gate net of the plan has exactly one driver, which carries its gate; every switch is written against its carrier's negative node, and every other device on its nets; refused only for duty, nets, carriers, graph or a stray pulse source |
| CompiledRuns.FirstRisesMean | src/pe_sim/circuit_compile.py:1533-1547 | the recorded first rises name exactly the gates that turn on in the window, each with the least time its carrier reaches its start |
| CompiledRuns.CompiledNetSenses | src/pe_sim/circuit_compile.py:1503-1660 | under any accepted declaration, in any window and any solution, a switch senses the unbroken run's gate, plus twice its reference's potential when the gate straddles the window start |
| CompiledRuns.CompiledNetCarriesRunGateIff | src/pe_sim/circuit_compile.py:1503-1660 | it senses the run's gate at every instant and in every solution exactly when its carrier is written against ground or the gate does not straddle |
| CompiledRuns.SwitchFollowsGateIff | src/pe_sim/circuit_compile.py:1644-1672 | for any threshold below the amplitude it is closed just while the gate is on, under exactly that condition |
| CompiledRuns.SteadyEverywhereIff | src/pe_sim/circuit_compile.py:1002-1003 | that holds in every window exactly for a grounded carrier or a gate that is never on |
| CompiledRuns.CompiledLegsKeepDeadTime | src/pe_sim/circuit_compile.py:842-852 | where both gates of a leg are so, its two switches keep the dead time over the whole run, in any two windows and solutions |
| CompiledRuns.CompiledPhasesBalanced | src/pe_sim/circuit_compile.py:956-964 | where all phases are so, `N*D` phase switches are closed at every instant, rounded down or up |
| Polynomials.Multiply | src/pe_sim/controllers.py:91-98 | the nested accumulation is the product polynomial |
| Polynomials.ValueOfProduct | src/pe_sim/controllers.py:91-98 | the value of a product is the product of the values, at every complex point |
| Polynomials.PolyvalDesc | src/pe_sim/ac_analysis.py:359-363 | the loop evaluates the polynomial |
| Polynomials.LeadingOfProduct | src/pe_sim/controllers.py:91-98 | the leading coefficient of a product is the product of the leading coefficients |
| Polynomials.ValueAtOne | src/pe_sim/ac_analysis.py:359-363 | at one the value is the sum of the coefficients |
| Tustin.NormalisedTustin | src/pe_sim/controllers.py:101-123 | refused exactly when the leading coefficient is zero, else both lists divided by it |
| Tustin.Type2Coefficients | src/pe_sim/controllers.py:341-348 | positive parameters give the coefficients of the one-zero one-pole integrating design, any other is refused |
| Tustin.Type3Coefficients | src/pe_sim/controllers.py:416-430 | the same for two zeros and two poles |
| Tustin.LeadingPositive | src/pe_sim/controllers.py:101-123 | with positive corners the leading coefficient is always positive, so normalising never refuses a valid design |
| Tustin.ControllerValue | src/pe_sim/ac_analysis.py:366-384 | the ratio of the two polynomials at the bilinear point, refused exactly where the denominator vanishes |
| Tustin.SingularOnlyAtDc | src/pe_sim/ac_analysis.py:374-378 | for these designs that is at zero frequency and nowhere else |
| Tustin.TustinRoundTrip | src/pe_sim/ac_analysis.py:366-384 | reading the discrete coefficients back at `j*omega` gives `K*prod(1+s/wz)/(s*prod(1+s/wp))` |
| Tustin.ExactIntegrator | src/pe_sim/controllers.py:341-348 | the recursive coefficients add up to minus one |
| Compensator.MakeLaw | src/pe_sim/controllers.py:134-183 | which coefficients and limits a compensator accepts, and that it keeps them as given |
| Compensator.DelayLineIsFullHistory | src/pe_sim/controllers.py:211-236 | from reset the shifted lists hold the last errors and outputs, so every request is the law over the whole past |
| Compensator.AppliedIsNearest | src/pe_sim/controllers.py:222-224 | the applied output is the request without limits and otherwise the point of the actuator range nearest to it |
| Compensator.RunObeys | src/pe_sim/controllers.py:188-236 | for runs of any length from any delay line, every applied output is the nearest one to the weighted sum of the errors so far less that of the outputs so far |
| Compensator.SaturatedMemory | src/pe_sim/controllers.py:222-230 | with limits every stored and returned output is zero or inside them, for runs of any length |
| Compensator.RequestBounded | src/pe_sim/controllers.py:214-230 | an unclamped request is bounded by the coefficient sums, the error bound and the larger limit |
| Compensator.SavedHistoryLoads | src/pe_sim/controllers.py:274-310 | a snapshot and a state update both load back as the very history they were taken from |
| Compensator.UpdateLoads | src/pe_sim/controllers.py:284-310 | a saved state loads by its entries' names, a missing one as zero |
| Compensator.RunSplits | src/pe_sim/controllers.py:188-236 | a run is its first part followed by the rest from the state in between |
| Compensator.CheckpointContinues | src/pe_sim/controllers.py:238-310 | stopping anywhere, saving either way and loading gives the outputs of the run that never stopped |
| Compensator.ForeignLimitsAccepted | src/pe_sim/controllers.py:258-272 | a snapshot of a law with other limits is accepted as it is |
| Compensator.ForeignLimitsIff | src/pe_sim/controllers.py:258-272 | with some coefficient of the input not zero, it continues the saved law on every input exactly when the limits agree |
| Compensator.ZeroNumeratorIff | src/pe_sim/controllers.py:211-236 | with all of them zero no input is felt, and only the input-free runs have to agree |
| Compensator.DiscreteCompensator.Observe | src/pe_sim/controllers.py:188-236 | one sample applies the output nearest to the weighted sums, puts error and output in front of the two lists and reports them under their names; a missing input changes nothing |
| Compensator.DiscreteCompensator.Reset | src/pe_sim/controllers.py:238-245 | loads a saved state or zeros, or refuses and changes nothing |
| Compensator.DiscreteCompensator.TakeSnapshot | src/pe_sim/controllers.py:247-256 | the snapshot of the present state |
| Compensator.DiscreteCompensator.RestoreFrom | src/pe_sim/controllers.py:258-272 | restores a snapshot with the same coefficients, or refuses and changes nothing |
| Frequency.UnwrapAngles | src/pe_sim/frequency_domain.py:107-119 | each angle is congruent to its raw value and within half a turn of the one before, the raw value itself when it can be |
| Frequency.CorrectAngle | src/pe_sim/frequency_domain.py:115-118 | both correction loops end, by the whole turns left |
| Frequency.NextAngleUnique | src/pe_sim/frequency_domain.py:115-118 | that determines the angle |
| Frequency.UnwrapInvertsWrap | src/pe_sim/frequency_domain.py:107-119 | phases that move less than half a turn a sample come back up to one constant whole number of turns |
| Frequency.UnwrapNeedsSmallSteps | src/pe_sim/frequency_domain.py:107-119 | only phases that move at most half a turn a sample can come back |
| Frequency.UnwrapInvertsIff | src/pe_sim/frequency_domain.py:107-119 | the true phases come back up to one constant exactly when every step is under half a turn, or half a turn in the direction the raw angle already lies |
| Frequency.HalfTurnStepIsAmbiguous | src/pe_sim/frequency_domain.py:115-118 | a step of exactly half a turn can come back wrong |
| Frequency.UnwrappedStepsInDegrees | src/pe_sim/frequency_domain.py:120 | the reported degrees are 180 for every pi and never move more than 180 between samples |
| Frequency.LogFrequencies | src/pe_sim/frequency_domain.py:63-75 | the swept axis has the declared endpoints, even logarithms and strictly increasing positive values |
| Margins.FirstCrossing | src/pe_sim/ac_analysis.py:508-521 | the least crossing index with its fraction and frequency, or none exactly when no sample crosses |
| Margins.CountCrossings | src/pe_sim/ac_analysis.py:524-535 | how many samples are on the target or step over it |
| Margins.CountIsSize | src/pe_sim/ac_analysis.py:524-535 | the count is the number of places at which the response meets the target |
| Margins.NoCrossingIffOneSide | src/pe_sim/ac_analysis.py:508-535 | nothing found, nothing counted and all samples strictly on one side are the same thing |
| Margins.OddIffEndsOpposite | src/pe_sim/ac_analysis.py:524-535 | with no sample on the target the count is odd exactly when the ends lie on opposite sides |
| Margins.CrossingHitsTarget | src/pe_sim/ac_analysis.py:482-485 | interpolating at a reported crossing gives exactly the target |
| Margins.CrossoverInsideStep | src/pe_sim/ac_analysis.py:475-479 | the reported frequency lies in the sweep step of the first crossing |
| Margins.CrossingOnLine | src/pe_sim/ac_analysis.py:475-521 | at the reported frequency the line over the logarithm meets the target, strictly inside its step or on its sample, and the other response is read off its own line at that very place |
| Margins.PhaseOffsetMeans | src/pe_sim/ac_analysis.py:488-494 | the offset is the phase from 180 degrees, in `[-180, 180)`, zero exactly at 180 degrees |
| Margins.AnnouncedOffsetRangeIff | src/pe_sim/ac_analysis.py:488-494 | the announced range holds exactly off the whole turns |
| Margins.NormalizePhaseMeans | src/pe_sim/ac_analysis.py:497-505 | a congruent angle in `(-180, 180]` |
| Margins.PhaseCrossoverGenuineIff | src/pe_sim/ac_analysis.py:661-691 | for any phases, an offset crossing has a phase of 180 degrees there exactly when its sample is on it or the sheets climbed up to it are a whole number |
| Margins.SameSheetCrossoverGenuine | src/pe_sim/ac_analysis.py:661-691 | so it has whenever the two samples lie between the same multiples of 360 |
| Margins.UnwrappedCrossoverGenuineIff | src/pe_sim/ac_analysis.py:661-691 | and only then, when the phase moves at most half a turn a sample |
| Margins.Search | src/pe_sim/ac_analysis.py:639-652 | the first meeting with the target, its frequency, and the other response read off there |
| Margins.StabilityMargins | src/pe_sim/ac_analysis.py:548-699 | which sweeps are refused and why; both crossovers lie where the straight lines over the logarithm of the frequency first meet 0 dB and 180 degrees, and both margins are what the other line says there; their sign, and every note |
| Margins.PhaseMarginMeans | src/pe_sim/ac_analysis.py:639-652 | a reported phase margin is 180 plus the phase at the first gain crossover, brought into `(-180, 180]` |
| Margins.OneSheetCrossoverIff | src/pe_sim/ac_analysis.py:661-691 | on one sheet a phase crossover is reported exactly when the phase meets 180 degrees |
| MarkerText.SplitTopLevel | scripts/distribution_inventory.py:198-233 | the scan with its depth, quote and index variables is the top-level split |
| MarkerText.StripOuterParens | scripts/distribution_inventory.py:177-195 | the loop removes exactly the brackets that enclose the whole text |
| MarkerText.SplitShrinks | scripts/distribution_inventory.py:236-249 | every piece that is split again is strictly shorter, on every string |
| MarkerText.FlattenClauses | scripts/distribution_inventory.py:236-249 | flattening ends on every string with the clauses of its pieces in order |
| MarkerExpr.SplitPrinted | scripts/distribution_inventory.py:198-233 | splitting a printed expression gives its top-level operands with their connectors |
| MarkerExpr.QuotedComparisonIsOne | scripts/distribution_inventory.py:198-233 | a comparison with a quoted value is one operand whatever stands inside the quotes, connectors and brackets included |
| MarkerExpr.StripOuterItem | scripts/distribution_inventory.py:177-195 | stripping a printed operand gives its core, however often it is bracketed |
| MarkerExpr.FlattenPrinted | scripts/distribution_inventory.py:236-249 | flattening the printed form of any expression whose groups unwrap gives its leaves in order, each behind its infix connector |
| MarkerExpr.BalancedIsOk | scripts/distribution_inventory.py:177-195 | that is every expression whose atoms hold no brackets or quoted ones that pair up |
| MarkerExpr.BracketsComeOffIff | scripts/distribution_inventory.py:177-195 | brackets around an expression come off exactly when nothing inside, quoted or not, closes more than it opened |
| MarkerMeaning.RejoinedMarkerIsFlat | scripts/distribution_inventory.py:267-278 | writing the clauses back gives the bracket-free expression, and flattening that changes nothing |
| MarkerMeaning.FlatteningOnlyWidens | scripts/distribution_inventory.py:236-249 | whatever the marker admits, the flattened one admits |
| MarkerMeaning.FlatteningKeepsMeaningIff | scripts/distribution_inventory.py:236-249 | flattening keeps the meaning under every valuation exactly when no group with an `or` is an operand of an `and` |
| MarkerMeaning.AllAndKeepsMeaning | scripts/distribution_inventory.py:236-249 | a marker of `and` alone meets that condition |
| MarkerMeaning.AllOrKeepsMeaning | scripts/distribution_inventory.py:236-249 | so does a marker of `or` alone |
| MarkerExtras.ParseMarker | scripts/distribution_inventory.py:259-278 | the recorded marker is the kept clauses rejoined, the recorded extra the first one named |
| MarkerExtras.RecordedMarkerReadsBack | scripts/distribution_inventory.py:273-278 | reading the recorded marker again gives the kept clauses |
| MarkerExtras.RecordMeansMarkerIff | scripts/distribution_inventory.py:259-278 | marker and extra together mean the clauses exactly when no clause names an extra, or one does and there is no `or` |
| MarkerExtras.ParsedMarkerMeansIff | scripts/distribution_inventory.py:259-278 | against the flattened form of a whole marker: exactly with no extra, or one and no `or` |
| MarkerRecord.FlatteningInEnvironments | scripts/distribution_inventory.py:236-249 | flattening keeps every marker without an `or` group under an `and` in all environments, and where no comparison stands twice only those |
| MarkerRecord.FactorsOut | scripts/distribution_inventory.py:259-272 | an extra reached through `and` and brackets only is a condition in front of the rest of the marker |
| MarkerRecord.RecordFactors | scripts/distribution_inventory.py:259-278 | the record of such a marker asks for the extra and for the rest read without its brackets |
| MarkerRecord.RecordedTextMeans | scripts/distribution_inventory.py:259-278 | the recorded text prints a bracket-free expression that, with the first extra asked for, is the record's meaning |
| MarkerRecord.RecordMeansDeclaredMarkerIff | scripts/distribution_inventory.py:259-278 | the recorded pair means the declared marker exactly when no extra is named and no `or` group is under an `and`, or one extra is reached through `and` and brackets only and the rest has no such group |
| MarkerRecord.RecordInEnvironments | scripts/distribution_inventory.py:259-278 | the same in environments where equal comparisons agree; where no comparison stands twice, exactly then |
| Artifacts.ViewIdempotent | src/pe_sim/artifacts.py:24-52 | taking the derived hashes out twice is taking them out once |
| Artifacts.CanonicalIff | src/pe_sim/artifacts.py:16-17 | canonical JSON holds exactly the values with no NaN or infinity anywhere inside |
| Artifacts.ViewSeesEvidenceOnly | src/pe_sim/artifacts.py:24-52 | two views agree exactly when the manifests differ in derived fields only |
| Artifacts.ManifestDigestCovers | src/pe_sim/artifacts.py:55-58 | with a collision-free hash equal manifest digests mean the same |
| Artifacts.ExcludedMeans | src/pe_sim/artifacts.py:273-283 | left out is exactly a file whose path is, or ends in a component that is, one of the two names |
| Artifacts.ArtifactIndex | src/pe_sim/artifacts.py:273-283 | every file is listed under its path with its hash, except those called by one of the two names |
| Artifacts.ComputePackageDigest | src/pe_sim/artifacts.py:286-306 | the digest of the manifest view and the evidence files in path order |
| Artifacts.PackageDigestMeans | src/pe_sim/artifacts.py:286-306 | the hash of the manifest view beside one entry of path and hash a file, in path order |
| Artifacts.PackageDigestCovers | src/pe_sim/artifacts.py:286-306 | with a collision-free hash equal package digests mean equal non-derived manifests and equal evidence files, and the other way round |
| Artifacts.ChangeDetectedIff | src/pe_sim/artifacts.py:286-306 | changing, adding or removing a file shows exactly when its own name is not one of the two excluded |
| Artifacts.ExcludedUnseen | src/pe_sim/artifacts.py:276-282 | rewriting an excluded file changes neither index nor digest, whatever the hash |
| Artifacts.NestedManifestExcluded | src/pe_sim/artifacts.py:300-301 | a manifest one directory down is such a file |
| Artifacts.VerifyPackage | src/pe_sim/artifacts.py:312-359 | exactly the problems present, once each and in a fixed order; none exactly when the package carries both its own digests twice |
| Artifacts.FilledManifestPassesIff | src/pe_sim/runtime.py:1244-1251 | a manifest filled with its own digests verifies exactly when it had no hash summary besides derived fields |
| Artifacts.ValidateRuntimeManifest | src/pe_sim/artifacts.py:362-389 | accepted exactly when the manifest is an object and, if it holds one of the five fields of a runtime one, index and digests are right; otherwise what it is refused for first |
| Artifacts.MarkerWriteKeepsValid | src/pe_sim/artifacts.py:276-282 | a state marker write leaves that verdict as it was |
| Publication.TempNameReadsBack | src/pe_sim/artifacts.py:213-215 | the scan's pattern reads a temporary name back as its exact run id, dots included |
| Publication.ValidRunIdIff | src/pe_sim/artifacts.py:61-100 | a run id is valid exactly when it is not empty, holds allowed characters only and no two dots in a row, names no device up to its first dot in any case, and does not end in a dot |
| Publication.ReadRunIdIff | src/pe_sim/artifacts.py:213-215 | the pattern reads a name as a run id exactly when the name is that id between a dot and a dot with a dotless suffix |
| Publication.ScanAbandonedRuns | src/pe_sim/artifacts.py:218-259 | lists, in name order, exactly the directories named like a writer's whose marker does not say published, each under the run id its marker or else its name gives, with exactly the required artifacts it lacks, in their order |
| Publication.TemporaryReportedIff | src/pe_sim/artifacts.py:234-257 | a writer's directory is reported under its run id exactly when its marker is neither published nor another run's |
| Publication.ForgedMarkerHidesRun | src/pe_sim/artifacts.py:142-145 | a caller-written published marker hides an unfinished directory |
| Publication.OpenWriter | src/pe_sim/artifacts.py:72-128 | a writer opens exactly for a run id that is not bad, with neither a target nor a directory whose name begins as its temporary ones do; a refusal changes nothing |
| Publication.BlockedIff | src/pe_sim/artifacts.py:113-115 | of writers' directories those are its own and those of every run id that continues this one after a dot |
| Publication.ArtifactWriter.constructor | src/pe_sim/artifacts.py:121-130 | leaves one new directory with a keep file and the running marker, safe to crash after each step |
| Publication.ArtifactWriter.WriteState | src/pe_sim/artifacts.py:132-140 | rewrites the marker and nothing else |
| Publication.ArtifactWriter.WriteJson | src/pe_sim/artifacts.py:142-145 | writes one artifact or refuses a value JSON cannot hold; the marker stays the writer's own unless it is the file written |
| Publication.ArtifactWriter.Finalize | src/pe_sim/artifacts.py:147-172 | publishes exactly when there is no target, every required artifact is there and the manifest validates; otherwise names the first fault and changes nothing |
| Publication.ArtifactWriter.Publish | src/pe_sim/artifacts.py:159-170 | ready marker, rename and published marker, the package valid after each |
| Publication.ArtifactWriter.Abort | src/pe_sim/artifacts.py:174-177 | marks and deletes the directory file by file in any order, keeping what cannot be deleted |
| Publication.CrashAnywhere | src/pe_sim/artifacts.py:118-177 | after any step: a target is complete and, if a runtime package, verifies; a temporary directory is reported under its exact run id and is not marked published |
| Publication.OtherWritersKeep | src/pe_sim/artifacts.py:118-177 | whatever other writers do under other names cannot spoil that |
| Publication.WritersApartIff | src/pe_sim/artifacts.py:111-126 | a run opened beside an open one has names of its own exactly when the first run's id is not the second's temporary name |
| Publication.SecondWriterKeepsIff | src/pe_sim/artifacts.py:118-177 | and exactly then the first one keeps its guarantee through whatever the second one does |
| AnchorLog.DigestIgnores | src/pe_sim/attestation.py:190-197 | a record's identity depends on neither its time nor its own digest |
| AnchorLog.BuildAnchorRecord | src/pe_sim/attestation.py:200-218 | a built record is the draft with its own digest |
| WhiteSpace.StripMeans | src/pe_sim/attestation.py:463 | stripping leaves out white space on both sides and nothing else |
| AnchorLog.SplitMeans | src/pe_sim/attestation.py:459 | the lines, each followed by one of the ten ends or a carriage return and line feed, are the text |
| AnchorLog.ReadAnchorIndex | src/pe_sim/attestation.py:452-492 | the records are what the trusted lines say, each once and in order: those whose stored digest is absent, null or the digest of the other fields; every other line that is not blank is a problem of its own kind under its own number; nothing at all exactly when some line's digest is an array or an object |
| AnchorLog.ForgedLineCaught | src/pe_sim/attestation.py:472-475 | under a hash without collisions, a hashed field changed under the old stored digest takes the line's record away, leaves the others and adds exactly that line's problem |
| AnchorLog.SplitAfterTerminated | src/pe_sim/attestation.py:459 | after a finished line, later text is split on its own |
| AnchorLog.TerminatingKeepsRecords | src/pe_sim/attestation.py:507-510 | closing a torn last line changes no record and stops no reader |
| AnchorLog.Log.Append | src/pe_sim/attestation.py:495-512 | appends unless the digest is there, however much of the write a crash let through; a log that cannot be read is left as it was |
| AnchorLog.AppendKeepsRecords | src/pe_sim/attestation.py:495-512 | all earlier records stay a prefix and the new one follows exactly once, when the log could be read and its text was written in full; a readable log stays readable |
| AnchorLog.ReappendIsNoOp | src/pe_sim/attestation.py:190-197 | appending the record again under another time changes nothing |
| AnchorLog.RunKeepsRecords | src/pe_sim/attestation.py:495-512 | over any run of whole and torn appends of one-line records the records only grow, no digest appears twice, and the log can be read after it exactly when it could before |
| AnchorLog.WrittenStays | src/pe_sim/attestation.py:495-512 | a record written in full stays for good |
| AnchorLog.AppendedIsReadIff | src/pe_sim/attestation.py:500-511 | a complete append is read back exactly when the record's text holds no line break or one of its lines reads as a record with its digest, and leaves the log readable exactly when its own lines are |
| AnchorLog.AppendedEachTimeIff | src/pe_sim/attestation.py:495-512 | every further append of a record makes the log longer exactly when it is not read back and stops no reader; otherwise nothing changes after the first |
| Envelope.FoundAgainOnlyAfterRearm | src/pe_sim/applicability.py:242-274 | with deduplication a key is found twice only if it depends on the operating point and was re-armed in between |
| Envelope.SilentOnlyIfSeen | src/pe_sim/applicability.py:385-388 | a repeat is silent only if its key was found before and not re-armed since |
| Envelope.PlayLawful | src/pe_sim/applicability.py:373-404 | every history the requests can produce obeys that rule |
| Envelope.HistoryObeysMode | src/pe_sim/applicability.py:373-404 | over any history: outside enforcement no finding blocks, warnings are warnings and records information; in enforcement a finding blocks exactly when it was asked for with a blocking strength, for every set of those |
| Envelope.SumBump | src/pe_sim/applicability.py:386-387 | one violation raises the total of the counters by one |
| Envelope.PlayCounts | src/pe_sim/applicability.py:383-402 | every request raises the counts by one, found anew or not, unless the monitor is off |
| Envelope.SomeReportFailedIff | src/pe_sim/applicability.py:406-414 | some report failed exactly when some finding of all reports blocks |
| Envelope.ExclusiveBoundInsideIff | src/pe_sim/model_claim.py:115-134 | an exclusive bound is inside its own range exactly when the tolerance is positive |
| Envelope.ToleranceAddsRims | src/pe_sim/model_claim.py:115-134 | a tolerance takes no value away and adds exactly those within its slack beyond a bound, or on an exclusive one |
| Envelope.BeyondIffOutside | src/pe_sim/model_claim.py:115-134 | outside means past a bound by more than the tolerance's share of it, or by exactly that where the bound is exclusive |
| Envelope.BuckBoundary | src/pe_sim/applicability.py:648-660 | the buck estimate is continuous exactly when `2*L*f >= (1-D)*R` |
| Envelope.BoostBoundary | src/pe_sim/applicability.py:653-660 | the boost estimate is continuous exactly when `2*L*f >= D*(1-D)^2*R` |
| Envelope.EstimateMeans | src/pe_sim/applicability.py:633-660 | the estimate is discontinuous exactly when the average is below half the ripple by the topology's own formula, without division and for any input voltage; another topology is never judged |
| Envelope.LimitationsMean | src/pe_sim/applicability.py:347-353 | each category that did not block, once, in the order found |
| Envelope.LimitationsGrow | src/pe_sim/applicability.py:347-353 | what the list says of the first findings stands first |
| Envelope.RequestsTitled | src/pe_sim/applicability.py:201-296 | whatever the three checks ask for carries its rule's category |
| Envelope.Monitor.RecordViolation | src/pe_sim/applicability.py:373-404 | one event of the history, graded by mode and strength; findings, seen keys and counters stay its image |
| Envelope.Monitor.MakeReport | src/pe_sim/applicability.py:406-414 | hands over what is pending; all reports together are all findings, and outside enforcement every report passes |
| Envelope.Monitor.CheckObservation | src/pe_sim/applicability.py:233-280 | the history grows by the change notice and re-arming, the two range checks and the conduction check, in that order; the report fails exactly when one of the four is breached with a strength that stops the run, and newly so |
| Envelope.ObservationFailsIff | src/pe_sim/applicability.py:233-280 | that condition under every policy, on the findings the four checks add |
| Envelope.Monitor.CheckAction | src/pe_sim/applicability.py:282-296 | the duty range and the pulse resolution; the report fails exactly when one of them is breached with a strength that stops the run, and newly so |
| Envelope.ActionFailsIff | src/pe_sim/applicability.py:282-296 | that condition under every policy |
| Envelope.PreflightFailsIff | src/pe_sim/applicability.py:201-231 | under every policy a preflight fails exactly for a declaration or source that is missing, an actuator or scheduled value outside or without a declared range, a limit missed or a parameter nobody reviewed, asked for with a strength that stops the run, and newly so |
| Envelope.Monitor.CheckPreflight | src/pe_sim/applicability.py:201-231 | the declaration's own fault, or the actuator, schedule, timebase and provenance checks in order; no report exactly when counting substeps divides by zero; and when the report fails |
| Envelope.Monitor.Summarise | src/pe_sim/applicability.py:334-368 | blocked exactly when some report failed, and never outside enforcement; the counts are the recorded violations; the status follows |

## Left out

- SPICE execution, netlist text, option tokens, saved signals, initial conditions and edge shapes: a card is data, an edge is instantaneous.
- Floating-point rounding, overflow, infinities and NaN: reals are exact; canonical JSON alone knows a non-finite value.
- Descriptor lookups, port bindings, parameter overrides and the readers of single declaration fields: switches and carriers arrive with their nets and numbers.
- CompiledRuns.CompiledNetCarriesRunGateIff: stated where no control net is called `0`; such a net is the ground node itself, and only `CompiledRuns.CompiledNetSenses` speaks of it.
- Node names are compared as written; a simulator's own aliases of ground and its folding of letter case are not represented.
- What elements other than gate sources ask of the potentials: a solution is one of the source cards.
- MarkerExpr.BracketsComeOffIff: for several items that do not look enclosed themselves; items that do, such as `(a == "(") and (b)`, lose the wrong pair when they are bracketed, which is not characterised further.
- CompiledRuns.CompiledNetSenses: stated at `eps = 0`; with a tolerance `GateSignal.WindowGateIsRunGate` bounds the slip and `GateSignal.RenderingExactIff` says when the level is exact.
- Interleaving.InterleavingBalanced: stated at `eps = 0` for the same reason.
- Compensator.ZeroNumeratorIff: when two input-free runs agree is not read off the limits.
- MarkerRecord.RecordInEnvironments: with a comparison that stands twice only the sufficient half; such a marker can be kept all the same, as `MarkerRecord.RepeatedLeafKeepsMeaning` shows.
- GateControl.CompileControl: which of two faults in different steps is reported first is stated per mode, not for the whole compilation.
- Envelope.BuckBoundary: stated for a positive input voltage and duty; `Envelope.EstimateMeans` covers the others.
- Evidence payloads and messages of findings, claim digests and policy serialisation.
- AnchorLog.AppendKeepsRecords: demands of a record's JSON text that it is one line, reads back, and has no unfinished beginning that is JSON.
- The log is text; that a torn write can cut a UTF-8 sequence, that a log file may be unreadable, and JSON no hash can be taken of (lone surrogates, too deep nesting) are not represented.
- Git anchoring, signatures and attestation verification.
- Publication.ArtifactWriter.WriteJson: a name is a path inside the directory; names that climb out of it are not represented.
- Writers interleave between calls, not inside one; the temporary files of an atomic write and directory flushing are not represented.
- Files that disappear or cannot be read while a package is hashed.
- MarkerExtras.ParseMarker: starts from text with blanks collapsed and quotes normalised; the clause pattern for an extra is a parameter.
- Requirement names, version specifiers and archive reading in the inventory.
- The controller coefficient reader, response validation, provenance and payload dictionaries of the frequency analysis; the biquad, whose coefficients are given rather than designed.
- Command line, launcher, demos, registries, capability and error-code tables, report merging and release approval: plumbing or one-branch checks.
