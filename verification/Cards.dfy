/** The cards that drive gate nets, and what they make of node potentials.

    A potential is measured against the ground node.  A source card relates its node to
    its reference node; a sum card adds two potentials, each against ground. */
module Cards {
  import opened Wrappers
  import opened RealMod
  import opened GateControl
  import opened GateSignal

  /** The node every simulator calls ground; the reference net is written so. */
  const GROUND := "0"

  datatype Name = Name(letter: char, index: nat)

  /** What a gate is written against: its carrier's negative node and amplitude. */
  datatype Driver = Driver(reference: string, amplitude: real)

  datatype Card =
    | Pulse(name: Name, node: string, reference: string, amplitude: real, delay: real, width: real, period: real)
    | Zero(name: Name, node: string, reference: string)
    | Tail(name: Name, node: string, reference: string, amplitude: real, until: real)
    | Sum(name: Name, node: string, reference: string, left: string, right: string)
    | Sense(name: Name, input: string, output: string, control: string, against: string)
    | Element(name: Name, nodes: seq<string>)

  /** A card that sets the voltage of a node. */
  predicate IsSource(card: Card) { card.Pulse? || card.Zero? || card.Tail? || card.Sum? }

  predicate Drives(card: Card, node: string) {
    IsSource(card) && card.node == node
  }

  /** Every node a card names. */
  function NodesOf(card: Card): set<string> {
    match card
    case Pulse(_, node, reference, _, _, _, _) => {node, reference}
    case Zero(_, node, reference) => {node, reference}
    case Tail(_, node, reference, _, _) => {node, reference}
    case Sum(_, node, reference, left, right) => {node, reference, left, right}
    case Sense(_, input, output, control, against) => {input, output, control, against}
    case Element(_, nodes) => set node | node in nodes
  }

  predicate PeriodsPositive(cards: seq<Card>) {
    forall i | 0 <= i < |cards| && cards[i].Pulse? :: cards[i].period > 0.0
  }

  // ------------------------------------------------------------------- potentials

  type Potentials = string -> real

  function High(amplitude: real, on: bool): real { if on then amplitude else 0.0 }

  /** What a source puts between its reference and its node. */
  function Raised(card: Card, v: Potentials, t: real): real
    requires IsSource(card) && (card.Pulse? ==> card.period > 0.0)
  {
    match card
    case Pulse(_, _, _, amplitude, delay, width, period) => High(amplitude, PulseOn(delay, width, period, t))
    case Zero(_, _, _) => 0.0
    case Tail(_, _, _, amplitude, until) => High(amplitude, TailOn(until, t))
    case Sum(_, _, _, left, right) => v(left) + v(right)
  }

  predicate CardHolds(card: Card, v: Potentials, t: real)
    requires card.Pulse? ==> card.period > 0.0
  {
    IsSource(card) ==> v(card.node) == v(card.reference) + Raised(card, v, t)
  }

  /** Potentials every source card agrees with at time `t`; the other elements may ask
      for more. */
  ghost predicate Solves(cards: seq<Card>, v: Potentials, t: real)
    requires PeriodsPositive(cards)
  {
    v(GROUND) == 0.0 && forall i | 0 <= i < |cards| :: CardHolds(cards[i], v, t)
  }

  /** What a switch on `net` measures when its control reference is `against`. */
  function Sensed(v: Potentials, net: string, against: string): real { v(net) - v(against) }

  lemma PeriodsSplit(a: seq<Card>, b: seq<Card>)
    ensures PeriodsPositive(a + b) <==> PeriodsPositive(a) && PeriodsPositive(b)
  {
    forall i | 0 <= i < |b| ensures (a + b)[|a| + i] == b[i] {}
    if PeriodsPositive(a + b) {
      forall i | 0 <= i < |a| && a[i].Pulse? ensures a[i].period > 0.0 { assert (a + b)[i] == a[i]; }
      forall i | 0 <= i < |b| && b[i].Pulse? ensures b[i].period > 0.0 { assert (a + b)[|a| + i] == b[i]; }
    }
  }

  lemma SolvesParts(a: seq<Card>, b: seq<Card>, v: Potentials, t: real)
    requires PeriodsPositive(a + b)
    ensures PeriodsPositive(a) && PeriodsPositive(b)
    ensures Solves(a + b, v, t) <==> Solves(a, v, t) && Solves(b, v, t)
  {
    PeriodsSplit(a, b);
    hide CardHolds;
    forall i | 0 <= i < |a| ensures (a + b)[i] == a[i] {}
    forall i | 0 <= i < |b| ensures (a + b)[|a| + i] == b[i] {}
    if Solves(a + b, v, t) {
      forall i | 0 <= i < |a| ensures CardHolds(a[i], v, t) { assert CardHolds((a + b)[i], v, t); }
      forall i | 0 <= i < |b| ensures CardHolds(b[i], v, t) { assert CardHolds((a + b)[|a| + i], v, t); }
    }
  }

  // ------------------------------------------------------------ settling the potentials

  /** Each node is set once, no source's reference is set, ground is not set, and a sum
      reads nodes set before it. */
  ghost predicate Laid(cards: seq<Card>) {
    && (forall i, j | 0 <= i < |cards| && 0 <= j < |cards| && IsSource(cards[i]) && IsSource(cards[j]) ::
          cards[i].node != cards[j].reference)
    && (forall i, j | 0 <= i < j < |cards| && IsSource(cards[i]) && IsSource(cards[j]) :: cards[i].node != cards[j].node)
    && (forall i | 0 <= i < |cards| && IsSource(cards[i]) :: cards[i].node != GROUND)
    && (forall i, j | 0 <= i <= j < |cards| && cards[i].Sum? && IsSource(cards[j]) ::
          cards[j].node != cards[i].left && cards[j].node != cards[i].right)
  }

  function Put(v: Potentials, node: string, x: real): Potentials {
    other => if other == node then x else v(other)
  }

  /** Potentials `u`, with every driven node set in the order of the cards. */
  function Settle(cards: seq<Card>, u: Potentials, t: real): Potentials
    requires PeriodsPositive(cards)
  {
    if cards == [] then u
    else
      var last, v := cards[|cards| - 1], Settle(cards[..|cards| - 1], u, t);
      if IsSource(last) then Put(v, last.node, v(last.reference) + Raised(last, v, t)) else v
  }

  /** Any potentials of the undriven nodes extend to a solution: the source cards never
      contradict each other. */
  lemma {:induction false} Settles(cards: seq<Card>, u: Potentials, t: real)
    requires PeriodsPositive(cards) && Laid(cards) && u(GROUND) == 0.0
    ensures Solves(cards, Settle(cards, u, t), t)
    ensures forall node :: Undriven(cards, node) ==> Settle(cards, u, t)(node) == u(node)
  {
    if cards != [] {
      var n := |cards| - 1;
      LaidPrefix(cards, n);
      Settles(cards[..n], u, t);
      SettleLast(cards, u, t, Settle(cards[..n], u, t));
    }
  }

  lemma LaidPrefix(cards: seq<Card>, n: nat)
    requires n <= |cards| && PeriodsPositive(cards) && Laid(cards)
    ensures PeriodsPositive(cards[..n]) && Laid(cards[..n])
  {
    assert forall i | 0 <= i < n :: cards[..n][i] == cards[i];
  }

  /** Setting one more node breaks nothing that held. */
  lemma SettleLast(cards: seq<Card>, u: Potentials, t: real, v: Potentials)
    requires cards != [] && PeriodsPositive(cards) && Laid(cards)
    requires PeriodsPositive(cards[..|cards| - 1]) && v == Settle(cards[..|cards| - 1], u, t) && Solves(cards[..|cards| - 1], v, t)
    requires forall node :: Undriven(cards[..|cards| - 1], node) ==> v(node) == u(node)
    ensures Solves(cards, Settle(cards, u, t), t)
    ensures forall node :: Undriven(cards, node) ==> Settle(cards, u, t)(node) == u(node)
  {
    var n := |cards| - 1;
    var last, settled := cards[n], Settle(cards, u, t);
    assert settled == if IsSource(last) then Put(v, last.node, v(last.reference) + Raised(last, v, t)) else v;
    hide Settle;
    LastHolds(cards, v, settled, t);
    hide CardHolds; hide Laid; hide Put; hide Raised;
    forall node | Undriven(cards, node) ensures settled(node) == u(node) {
      assert !Drives(last, node);
      UndrivenPrefix(cards, n, node);
    }
    forall i | 0 <= i < n ensures CardHolds(cards[i], settled, t) {
      assert CardHolds(cards[..n][i], v, t);
      EarlierStillHolds(cards, i, v, settled, t);
    }
  }

  lemma UndrivenPrefix(cards: seq<Card>, n: nat, node: string)
    requires n <= |cards| && Undriven(cards, node)
    ensures Undriven(cards[..n], node)
  {
    forall i | 0 <= i < n ensures !Drives(cards[..n][i], node) { assert !Drives(cards[i], node); }
  }

  lemma LastHolds(cards: seq<Card>, v: Potentials, settled: Potentials, t: real)
    requires cards != [] && PeriodsPositive(cards) && Laid(cards) && v(GROUND) == 0.0
    requires var last := cards[|cards| - 1];
      settled == if IsSource(last) then Put(v, last.node, v(last.reference) + Raised(last, v, t)) else v
    ensures CardHolds(cards[|cards| - 1], settled, t) && settled(GROUND) == 0.0
    ensures forall node :: settled(node) == v(node) || Drives(cards[|cards| - 1], node)
  {
    hide PulseOn; hide TailOn;
  }

  lemma EarlierStillHolds(cards: seq<Card>, i: nat, v: Potentials, settled: Potentials, t: real)
    requires i < |cards| - 1 && PeriodsPositive(cards) && Laid(cards) && CardHolds(cards[i], v, t)
    requires forall node :: settled(node) == v(node) || Drives(cards[|cards| - 1], node)
    ensures CardHolds(cards[i], settled, t)
  {
    hide PulseOn; hide TailOn;
    var last := cards[|cards| - 1];
    if IsSource(cards[i]) {
      assert !Drives(last, cards[i].node) && !Drives(last, cards[i].reference);
      if cards[i].Sum? { assert !Drives(last, cards[i].left) && !Drives(last, cards[i].right); }
    }
  }

  ghost predicate Undriven(cards: seq<Card>, net: string) {
    forall c | 0 <= c < |cards| :: !Drives(cards[c], net)
  }

  // ---------------------------------------------------------------- one gate's cards

  /** A pulse is already running when the window opens. */
  predicate Straddles(w: Window, phase: real, eps: real) {
    w.start < w.stop && TailUntil(w, phase, eps) > 0.0
  }

  /** The two ways one gate is written: one source on the net, or a pulse and a tail
      on nodes of their own and their sum on the net, all against the same node. */
  function GateCards(name: Name, net: string, d: Driver, w: Window, phase: real, period: real, eps: real,
                     pulseNode: string, tailNode: string, tailName: Name, sumName: Name): seq<Card>
    requires period > 0.0
  {
    if w.stop <= w.start then [Zero(name, net, d.reference)]
    else
      var rise, width, tail := FirstRise(w, phase, period, eps), w.stop - w.start, TailUntil(w, phase, eps);
      if tail <= 0.0 then [Pulse(name, net, d.reference, d.amplitude, rise, width, period)]
      else
        [Pulse(name, pulseNode, d.reference, d.amplitude, rise, width, period),
         Tail(tailName, tailNode, d.reference, d.amplitude, tail),
         Sum(sumName, net, d.reference, pulseNode, tailNode)]
  }

  /** `level` amplitudes. */
  function Amplitudes(amplitude: real, level: nat): real { amplitude * level as real }

  /** What a switch senses besides the gate: a summed gate reads its two hidden nodes
      against ground, and each of them already stands on the reference. */
  function Lift(w: Window, phase: real, eps: real, reference: real): real {
    if Straddles(w, phase, eps) then reference + reference else 0.0
  }

  /** Whichever way a gate is written, a switch on its net that measures against the
      gate's own reference senses the level, lifted by twice that reference's potential
      when the gate straddles the window start. */
  lemma GateCardsSense(name: Name, net: string, d: Driver, w: Window, phase: real, period: real, eps: real,
                       p: string, q: string, tailName: Name, sumName: Name, v: Potentials, t: real)
    requires period > 0.0
    ensures var cards := GateCards(name, net, d, w, phase, period, eps, p, q, tailName, sumName);
      && PeriodsPositive(cards)
      && (Solves(cards, v, t) ==>
           Sensed(v, net, d.reference)
           == Amplitudes(d.amplitude, Level(w, phase, period, eps, t)) + Lift(w, phase, eps, v(d.reference)))
  {
    var cards := GateCards(name, net, d, w, phase, period, eps, p, q, tailName, sumName);
    var rising := w.start < w.stop && PulseOn(FirstRise(w, phase, period, eps), w.stop - w.start, period, t);
    var tailing := w.start < w.stop && TailOn(TailUntil(w, phase, eps), t);
    assert Level(w, phase, period, eps, t) == Bit(rising) + Bit(tailing);
    HighsAdd(d.amplitude, rising, tailing);
    hide PulseOn; hide TailUntil; hide FirstRise; hide Level; hide Amplitudes;
    if Solves(cards, v, t) {
      assert CardHolds(cards[0], v, t);
      if |cards| == 3 { assert CardHolds(cards[1], v, t) && CardHolds(cards[2], v, t); }
    }
  }

  lemma HighsAdd(amplitude: real, a: bool, b: bool)
    ensures Amplitudes(amplitude, Bit(a) + Bit(b)) == High(amplitude, a) + High(amplitude, b)
  {}

  /** A gate's cards sit on its own net and its own two nodes and nowhere else. */
  lemma GateCardsElsewhere(name: Name, net: string, d: Driver, w: Window, phase: real, period: real, eps: real,
                           p: string, q: string, tailName: Name, sumName: Name, other: string)
    requires period > 0.0 && other != net && (Straddles(w, phase, eps) ==> other != p && other != q)
    ensures Undriven(GateCards(name, net, d, w, phase, period, eps, p, q, tailName, sumName), other)
  {}

  // -------------------------------------------------------------- drivers of a net

  function DriverCount(cards: seq<Card>, node: string): nat {
    if cards == [] then 0
    else DriverCount(cards[..|cards| - 1], node) + Bit(Drives(cards[|cards| - 1], node))
  }

  lemma {:induction false} DriversAppend(a: seq<Card>, b: seq<Card>, node: string)
    ensures DriverCount(a + b, node) == DriverCount(a, node) + DriverCount(b, node)
  {
    if b == [] {
      assert a + b == a;
    } else {
      assert (a + b)[..|a + b| - 1] == a + b[..|b| - 1];
      DriversAppend(a, b[..|b| - 1], node);
    }
  }

  lemma {:induction false} NoDrivers(cards: seq<Card>, node: string)
    requires Undriven(cards, node)
    ensures DriverCount(cards, node) == 0
  {
    if cards != [] { NoDrivers(cards[..|cards| - 1], node); }
  }

  lemma GateHasOneDriver(name: Name, net: string, d: Driver, w: Window, phase: real, period: real, eps: real,
                         p: string, q: string, tailName: Name, sumName: Name)
    requires period > 0.0 && (Straddles(w, phase, eps) ==> p != net && q != net)
    ensures DriverCount(GateCards(name, net, d, w, phase, period, eps, p, q, tailName, sumName), net) == 1
  {
    var cards := GateCards(name, net, d, w, phase, period, eps, p, q, tailName, sumName);
    var n := |cards| - 1;
    hide FirstRise; hide TailUntil;
    assert cards == cards[..n] + [cards[n]] && [cards[n]][..0] == [];
    DriversAppend(cards[..n], [cards[n]], net);
    NoDrivers(cards[..n], net);
  }

  // ------------------------------------------------------------------ well-formed

  ghost predicate NamesUsed(cards: seq<Card>, counters: map<char, nat>) {
    && (forall i | 0 <= i < |cards| ::
         cards[i].name.letter in counters && 1 <= cards[i].name.index <= counters[cards[i].name.letter])
    && (forall i, j | 0 <= i < j < |cards| :: cards[i].name != cards[j].name)
  }

  /** The nodes behind a sum are its own: only the pulse and the tail written just
      before it, and the sum itself, name them. */
  ghost predicate OwnNodes(cards: seq<Card>, i: nat)
    requires i < |cards| && cards[i].Sum?
  {
    && i >= 2 && cards[i - 2].Pulse? && cards[i - 2].node == cards[i].left
    && cards[i - 1].Tail? && cards[i - 1].node == cards[i].right
    && (forall k | 0 <= k < |cards| && cards[i].left in NodesOf(cards[k]) :: k == i - 2 || k == i)
    && (forall k | 0 <= k < |cards| && cards[i].right in NodesOf(cards[k]) :: k == i - 1 || k == i)
  }

  /** A node the compiler made up. */
  ghost predicate Hidden(node: string, nets: set<string>, taken: set<string>) {
    node in taken && node !in nets && node != GROUND
  }

  ghost predicate SumsHidden(cards: seq<Card>, nets: set<string>, taken: set<string>) {
    forall i | 0 <= i < |cards| && cards[i].Sum? ::
      Hidden(cards[i].left, nets, taken) && Hidden(cards[i].right, nets, taken)
  }

  ghost predicate NodesKnown(cards: seq<Card>, taken: set<string>) {
    forall i, node | 0 <= i < |cards| && node in NodesOf(cards[i]) :: node in taken || node == GROUND
  }

  ghost predicate WellFormed(cards: seq<Card>, counters: map<char, nat>, nets: set<string>, taken: set<string>) {
    && nets <= taken && PeriodsPositive(cards) && NamesUsed(cards, counters)
    && SumsHidden(cards, nets, taken) && NodesKnown(cards, taken)
    && (forall i | 0 <= i < |cards| && cards[i].Sum? :: OwnNodes(cards, i))
  }

  /** No two sums share a node, and the two nodes of one differ. */
  lemma HiddenNodesApart(cards: seq<Card>, counters: map<char, nat>, nets: set<string>, taken: set<string>, i: nat, j: nat)
    requires WellFormed(cards, counters, nets, taken) && i < |cards| && j < |cards| && cards[i].Sum? && cards[j].Sum?
    ensures cards[i].left != cards[i].right
    ensures i != j ==> {cards[i].left, cards[i].right} !! {cards[j].left, cards[j].right}
  {
    assert OwnNodes(cards, i) && OwnNodes(cards, j);
    assert cards[i].right in NodesOf(cards[i - 1]) && cards[i].left in NodesOf(cards[i - 2]);
    assert cards[j].right in NodesOf(cards[j]) && cards[j].left in NodesOf(cards[j]);
    assert cards[j].right in NodesOf(cards[j - 1]) && cards[j].left in NodesOf(cards[j - 2]);
  }

  ghost predicate Grown(before: map<char, nat>, after: map<char, nat>) {
    forall letter | letter in before :: letter in after && before[letter] <= after[letter]
  }

  /** The nodes of new cards are declared or new. */
  ghost predicate NodesNew(cards: seq<Card>, nets: set<string>, taken: set<string>) {
    forall j, node | 0 <= j < |cards| && node in NodesOf(cards[j]) :: node in nets || node == GROUND || node !in taken
  }

  lemma WellFormedAppend(a: seq<Card>, b: seq<Card>, before: map<char, nat>, after: map<char, nat>,
                         nets: set<string>, taken: set<string>, taken': set<string>)
    requires WellFormed(a, before, nets, taken) && WellFormed(b, after, nets, taken')
    requires taken <= taken' && Grown(before, after) && NodesNew(b, nets, taken)
    requires forall i, j | 0 <= i < |a| && 0 <= j < |b| :: a[i].name != b[j].name
    ensures WellFormed(a + b, after, nets, taken')
  {
    PeriodsSplit(a, b);
    var all := a + b;
    assert forall j | 0 <= j < |b| :: all[|a| + j] == b[j];
    hide NodesOf; hide OwnNodes; hide NamesUsed; hide SumsHidden; hide NodesKnown; hide NodesNew; hide Grown; hide PeriodsPositive;
    NamesAppend(a, b, before, after);
    NodesAppend(a, b, nets, taken, taken');
    forall i | 0 <= i < |all| && all[i].Sum? ensures OwnNodes(all, i) {
      if i < |a| { EarlierOwnNodes(a, b, nets, taken, i); } else { LaterOwnNodes(a, b, nets, taken, taken', i - |a|); }
    }
  }

  lemma NamesAppend(a: seq<Card>, b: seq<Card>, before: map<char, nat>, after: map<char, nat>)
    requires NamesUsed(a, before) && NamesUsed(b, after) && Grown(before, after)
    requires forall i, j | 0 <= i < |a| && 0 <= j < |b| :: a[i].name != b[j].name
    ensures NamesUsed(a + b, after)
  {
    var all := a + b;
    assert forall i | 0 <= i < |a| :: all[i] == a[i];
    assert forall j | |a| <= j < |all| :: all[j] == b[j - |a|];
  }

  lemma NodesAppend(a: seq<Card>, b: seq<Card>, nets: set<string>, taken: set<string>, taken': set<string>)
    requires SumsHidden(a, nets, taken) && SumsHidden(b, nets, taken') && taken <= taken'
    requires NodesKnown(a, taken) && NodesKnown(b, taken')
    ensures SumsHidden(a + b, nets, taken') && NodesKnown(a + b, taken')
  {
    hide NodesOf;
    var all := a + b;
    assert forall i | 0 <= i < |a| :: all[i] == a[i];
    assert forall j | |a| <= j < |all| :: all[j] == b[j - |a|];
  }

  lemma EarlierOwnNodes(a: seq<Card>, b: seq<Card>, nets: set<string>, taken: set<string>, i: nat)
    requires i < |a| && a[i].Sum? && OwnNodes(a, i) && SumsHidden(a, nets, taken) && NodesNew(b, nets, taken)
    ensures OwnNodes(a + b, i)
  {
    hide NodesOf;
    var all := a + b;
    assert forall k | 0 <= k < |a| :: all[k] == a[k];
    assert forall k | 0 <= k < |b| :: all[|a| + k] == b[k];
    forall k, node | |a| <= k < |all| && node in NodesOf(all[k]) ensures !Hidden(node, nets, taken) {
      assert node in NodesOf(b[k - |a|]);
    }
  }

  lemma LaterOwnNodes(a: seq<Card>, b: seq<Card>, nets: set<string>, taken: set<string>, taken': set<string>, i: nat)
    requires i < |b| && b[i].Sum? && OwnNodes(b, i) && SumsHidden(b, nets, taken') && NodesNew(b, nets, taken)
    requires NodesKnown(a, taken)
    ensures OwnNodes(a + b, |a| + i)
  {
    var all := a + b;
    assert b[i].left in NodesOf(b[i]) && b[i].right in NodesOf(b[i]);
    hide NodesOf;
    assert forall k | 0 <= k < |a| :: all[k] == a[k];
    assert forall k | 0 <= k < |b| :: all[|a| + k] == b[k];
    assert b[i].left !in taken && b[i].right !in taken;
    forall k, node | 0 <= k < |a| && node in NodesOf(all[k]) ensures node in taken || node == GROUND {
      assert node in NodesOf(a[k]);
    }
    forall k, node | |a| <= k < |all| && node in NodesOf(all[k]) ensures node in NodesOf(b[k - |a|]) {}
  }

  ghost predicate Counted(counters: map<char, nat>, name: Name) {
    name.letter in counters && 1 <= name.index <= counters[name.letter]
  }

  lemma NewNameUnused(cards: seq<Card>, counters: map<char, nat>, nets: set<string>, taken: set<string>, name: Name)
    requires WellFormed(cards, counters, nets, taken)
    requires name.letter in counters ==> counters[name.letter] < name.index
    ensures forall i | 0 <= i < |cards| :: cards[i].name != name
  {}

  lemma GateCardsWellFormed(name: Name, net: string, d: Driver, w: Window, phase: real, period: real, eps: real,
                            p: string, q: string, tailName: Name, sumName: Name,
                            counters: map<char, nat>, nets: set<string>, taken: set<string>)
    requires period > 0.0 && nets <= taken && net in nets && (d.reference in nets || d.reference == GROUND)
    requires Counted(counters, name)
    requires Straddles(w, phase, eps) ==>
      && Counted(counters, tailName) && Counted(counters, sumName)
      && name != tailName && name != sumName && tailName != sumName
      && p != q && Hidden(p, nets, taken) && Hidden(q, nets, taken)
    ensures WellFormed(GateCards(name, net, d, w, phase, period, eps, p, q, tailName, sumName), counters, nets, taken)
  {
    hide FirstRise; hide TailUntil;
  }

  // --------------------------------------------------- what a finished netlist carries

  /** One driver on the net, and in every solution a switch that measures against the
      gate's reference senses the level and the lift. */
  ghost predicate GateCarried(cards: seq<Card>, net: string, d: Driver, w: Window, phase: real, period: real, eps: real)
    requires PeriodsPositive(cards) && period > 0.0
  {
    && DriverCount(cards, net) == 1
    && forall t: real, v: Potentials | Solves(cards, v, t) ::
         Sensed(v, net, d.reference)
         == Amplitudes(d.amplitude, Level(w, phase, period, eps, t)) + Lift(w, phase, eps, v(d.reference))
  }

  /** A gate's own cards carry it. */
  lemma GateCardsCarry(name: Name, net: string, d: Driver, w: Window, phase: real, period: real, eps: real,
                       p: string, q: string, tailName: Name, sumName: Name)
    requires period > 0.0 && (Straddles(w, phase, eps) ==> p != net && q != net)
    ensures var cards := GateCards(name, net, d, w, phase, period, eps, p, q, tailName, sumName);
      PeriodsPositive(cards) && GateCarried(cards, net, d, w, phase, period, eps)
  {
    GateHasOneDriver(name, net, d, w, phase, period, eps, p, q, tailName, sumName);
    hide GateCards; hide Level; hide Amplitudes; hide Lift; hide Solves; hide Straddles;
    var cards := GateCards(name, net, d, w, phase, period, eps, p, q, tailName, sumName);
    GateCardsSense(name, net, d, w, phase, period, eps, p, q, tailName, sumName, Only(net, 0.0), 0.0);
    forall t: real, v: Potentials | Solves(cards, v, t)
      ensures Sensed(v, net, d.reference)
           == Amplitudes(d.amplitude, Level(w, phase, period, eps, t)) + Lift(w, phase, eps, v(d.reference))
    {
      GateCardsSense(name, net, d, w, phase, period, eps, p, q, tailName, sumName, v, t);
    }
  }

  /** Written after cards that stay off the net, a gate is still carried. */
  lemma GateAppended(earlier: seq<Card>, added: seq<Card>, net: string, d: Driver, w: Window, phase: real, period: real, eps: real)
    requires PeriodsPositive(added) && PeriodsPositive(earlier + added) && period > 0.0
    requires GateCarried(added, net, d, w, phase, period, eps) && Undriven(earlier, net)
    ensures GateCarried(earlier + added, net, d, w, phase, period, eps)
  {
    DriversAppend(earlier, added, net);
    NoDrivers(earlier, net);
    hide Solves; hide Level; hide Amplitudes; hide Lift;
    forall t: real, v: Potentials | Solves(earlier + added, v, t)
      ensures Sensed(v, net, d.reference)
           == Amplitudes(d.amplitude, Level(w, phase, period, eps, t)) + Lift(w, phase, eps, v(d.reference))
    {
      SolvesParts(earlier, added, v, t);
    }
  }

  /** Cards that stay off a net leave its gate as it was. */
  lemma OtherGateKept(earlier: seq<Card>, added: seq<Card>, net: string, d: Driver, w: Window, phase: real, period: real, eps: real)
    requires PeriodsPositive(earlier) && PeriodsPositive(earlier + added) && period > 0.0
    requires GateCarried(earlier, net, d, w, phase, period, eps) && Undriven(added, net)
    ensures GateCarried(earlier + added, net, d, w, phase, period, eps)
  {
    DriversAppend(earlier, added, net);
    NoDrivers(added, net);
    hide Solves; hide Level; hide Amplitudes; hide Lift;
    forall t: real, v: Potentials | Solves(earlier + added, v, t)
      ensures Sensed(v, net, d.reference)
           == Amplitudes(d.amplitude, Level(w, phase, period, eps, t)) + Lift(w, phase, eps, v(d.reference))
    {
      SolvesParts(earlier, added, v, t);
    }
  }

  /** The reference of a gate may stand at any potential. */
  lemma ReferenceAt(cards: seq<Card>, net: string, d: Driver, w: Window, phase: real, period: real, eps: real,
                    x: real, t: real) returns (v: Potentials)
    requires PeriodsPositive(cards) && period > 0.0 && GateCarried(cards, net, d, w, phase, period, eps)
    requires Laid(cards) && Undriven(cards, d.reference) && d.reference != GROUND
    ensures Solves(cards, v, t) && v(d.reference) == x
    ensures Sensed(v, net, d.reference)
         == Amplitudes(d.amplitude, Level(w, phase, period, eps, t)) + if Straddles(w, phase, eps) then x + x else 0.0
  {
    hide *;
    var u: Potentials := Only(d.reference, x);
    OnlyAt(d.reference, x);
    Settles(cards, u, t);
    v := Settle(cards, u, t);
    Carried(cards, net, d, w, phase, period, eps, v, t);
  }

  function Only(node: string, x: real): Potentials { other => if other == node then x else 0.0 }

  lemma OnlyAt(node: string, x: real)
    ensures Only(node, x)(node) == x && (node != GROUND ==> Only(node, x)(GROUND) == 0.0)
  {}

  lemma Carried(cards: seq<Card>, net: string, d: Driver, w: Window, phase: real, period: real, eps: real, v: Potentials, t: real)
    requires PeriodsPositive(cards) && period > 0.0 && GateCarried(cards, net, d, w, phase, period, eps) && Solves(cards, v, t)
    ensures Sensed(v, net, d.reference) == Amplitudes(d.amplitude, Level(w, phase, period, eps, t))
                                           + if Straddles(w, phase, eps) then v(d.reference) + v(d.reference) else 0.0
  {
    hide Solves; hide Level; hide Amplitudes; hide Straddles; hide Sensed;
  }

  /** What the switch senses is the gate's level at every instant and whatever the
      potentials are exactly when the gate's reference is ground or the gate does not
      straddle the window start. */
  lemma SensesLevelIff(cards: seq<Card>, net: string, d: Driver, w: Window, phase: real, period: real, eps: real)
    requires PeriodsPositive(cards) && period > 0.0 && GateCarried(cards, net, d, w, phase, period, eps)
    requires Laid(cards) && Undriven(cards, d.reference)
    ensures (forall t: real, v: Potentials | Solves(cards, v, t) ::
              Sensed(v, net, d.reference) == Amplitudes(d.amplitude, Level(w, phase, period, eps, t)))
       <==> d.reference == GROUND || !Straddles(w, phase, eps)
  {
    if d.reference == GROUND || !Straddles(w, phase, eps) {
      forall t: real, v: Potentials | Solves(cards, v, t)
        ensures Sensed(v, net, d.reference) == Amplitudes(d.amplitude, Level(w, phase, period, eps, t))
      {
        assert v(GROUND) == 0.0;
        Carried(cards, net, d, w, phase, period, eps, v, t);
      }
    } else {
      hide *;
      var v := ReferenceAt(cards, net, d, w, phase, period, eps, 1.0, 0.0);
    }
  }

  /** A buck whose high-side drive floats on its switch node: the window opens inside the
      on-time, the gate has been off for a while, and at 12 V on the switch node the
      switch still senses 24 V. */
  lemma FloatingBuckStaysOn(v: Potentials)
    requires v(GROUND) == 0.0 && v("sw") == 12.0 && v("pwm_pulse") == 12.0 && v("pwm_tail") == 12.0 && v("pwm") == 36.0
    ensures var w := Window(0.0, 5.0);
      var cards := GateCards(Name('V', 1), "pwm", Driver("sw", 1.0), w, 2.0, 10.0, 0.0,
                             "pwm_pulse", "pwm_tail", Name('V', 2), Name('B', 1));
      && !GateOn(w, 2.0, 10.0, 4.0)
      && PeriodsPositive(cards) && Solves(cards, v, 4.0)
      && Sensed(v, "pwm", "sw") == 24.0
  {
    var w := Window(0.0, 5.0);
    ModUnique(4.0 + 2.0, 10.0, 0, 6.0);
    assert Whole(-1, 10.0) == -10.0;
    ModUnique(0.0 - 2.0, 10.0, -1, 8.0);
    assert FirstRise(w, 2.0, 10.0, 0.0) == 8.0 && TailUntil(w, 2.0, 0.0) == 3.0;
  }
}
