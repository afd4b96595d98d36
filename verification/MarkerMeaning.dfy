/** What a marker means, and when flattening keeps it.

    Every leaf is its own variable; a valuation lists their values from left to
    right.  `and` binds tighter than `or`, as PEP 508 reads a marker. */
module MarkerMeaning {
  import opened Wrappers
  import opened MarkerText
  import opened MarkerExpr

  type Values = seq<bool>

  // ----------------------------------------------------------------- evaluation

  function Leaves(e: Expr): (n: nat)
    ensures n > 0
  {
    match e case Last(i) => LeavesItem(i) case More(i, _, t) => LeavesItem(i) + Leaves(t)
  }

  function LeavesItem(i: Item): (n: nat)
    ensures n > 0
  {
    match i case Atom(_) => 1 case Group(e) => Leaves(e)
  }

  /** The value of the expression when `so_far` stands and-ed in front of it. */
  predicate EvalFrom(e: Expr, v: Values, soFar: bool)
    requires |v| == Leaves(e)
  {
    match e
    case Last(i) => soFar && EvalItem(i, v)
    case More(i, c, t) =>
      var n := LeavesItem(i);
      var term := soFar && EvalItem(i, v[..n]);
      if c.And? then EvalFrom(t, v[n..], term) else term || EvalFrom(t, v[n..], true)
  }

  predicate EvalItem(i: Item, v: Values)
    requires |v| == LeavesItem(i)
  {
    match i case Atom(_) => v[0] case Group(e) => EvalFrom(e, v, true)
  }

  predicate Eval(e: Expr, v: Values)
    requires |v| == Leaves(e)
  {
    EvalFrom(e, v, true)
  }

  // ------------------------------------------------------------- the flat expression

  function Append(a: Expr, c: Connector, b: Expr): Expr {
    match a case Last(i) => More(i, c, b) case More(i, d, t) => More(i, d, Append(t, c, b))
  }

  /** The expression with all its brackets dropped. */
  function Flat(e: Expr): Expr {
    match e case Last(i) => FlatItem(i) case More(i, c, t) => Append(FlatItem(i), c, Flat(t))
  }

  function FlatItem(i: Item): Expr {
    match i case Atom(_) => Last(i) case Group(e) => Flat(e)
  }

  lemma {:induction false} AppendFacts(a: Expr, c: Connector, b: Expr, connector: Option<Connector>)
    ensures Leaves(Append(a, c, b)) == Leaves(a) + Leaves(b)
    ensures Infix(Append(a, c, b), connector) == Infix(a, connector) + Infix(b, Some(c))
    ensures ExprOk(Append(a, c, b)) <==> ExprOk(a) && ExprOk(b)
  {
    if a.More? { AppendFacts(a.tail, c, b, Some(a.connector)); }
  }

  /** The flat expression has the same leaves behind the same connectors: it is what
      rejoining the flattened clauses writes. */
  lemma {:induction false} FlatKeepsInfix(e: Expr, connector: Option<Connector>)
    ensures Leaves(Flat(e)) == Leaves(e) && Infix(Flat(e), connector) == Infix(e, connector)
    ensures ExprOk(e) ==> ExprOk(Flat(e))
    decreases e
  {
    match e
    case Last(i) => FlatItemKeeps(i, connector);
    case More(i, c, t) =>
      FlatItemKeeps(i, connector);
      FlatKeepsInfix(t, Some(c));
      AppendFacts(FlatItem(i), c, Flat(t), connector);
  }

  lemma {:induction false} FlatItemKeeps(i: Item, connector: Option<Connector>)
    ensures Leaves(FlatItem(i)) == LeavesItem(i) && Infix(FlatItem(i), connector) == InfixItem(i, connector)
    ensures ItemOk(i) ==> ExprOk(FlatItem(i))
    decreases i
  {
    if i.Group? { FlatKeepsInfix(i.inner, connector); }
  }

  /** The marker text the inventory records when nothing is filtered out. */
  function Rejoin(clauses: seq<Clause>): string {
    if clauses == [] then "" else clauses[0].1 + RejoinTail(clauses[1..])
  }

  function RejoinTail(clauses: seq<Clause>): string {
    if clauses == [] then ""
    else Word(clauses[0].0.GetOr(And)) + clauses[0].1 + RejoinTail(clauses[1..])
  }

  predicate AllAtoms(e: Expr) {
    match e case Last(i) => i.Atom? case More(i, _, t) => i.Atom? && AllAtoms(t)
  }

  lemma {:induction false} FlatAllAtoms(e: Expr)
    ensures AllAtoms(Flat(e))
    decreases e
  {
    match e
    case Last(i) => if i.Group? { FlatAllAtoms(i.inner); }
    case More(i, c, t) =>
      if i.Group? { FlatAllAtoms(i.inner); }
      FlatAllAtoms(t);
      AppendAtoms(FlatItem(i), c, Flat(t));
  }

  lemma {:induction false} AppendAtoms(a: Expr, c: Connector, b: Expr)
    requires AllAtoms(a) && AllAtoms(b)
    ensures AllAtoms(Append(a, c, b))
  {
    if a.More? { AppendAtoms(a.tail, c, b); }
  }

  lemma {:induction false} RejoinPrints(e: Expr, connector: Option<Connector>)
    requires AllAtoms(e)
    ensures Rejoin(Infix(e, connector)) == Print(e)
    decreases e
  {
    match e
    case Last(i) =>
      assert Infix(e, connector)[1..] == [];
    case More(i, c, t) =>
      RejoinPrints(t, Some(c));
      InfixFirst(t, Some(c));
      RejoinSnoc((connector, i.text), Infix(t, Some(c)), c);
  }

  lemma RejoinSnoc(first: Clause, rest: seq<Clause>, c: Connector)
    requires rest != [] && rest[0].0 == Some(c)
    ensures Rejoin([first] + rest) == first.1 + (Word(c) + Rejoin(rest))
  {
    assert ([first] + rest)[1..] == rest;
  }

  lemma {:induction false} InfixFirst(e: Expr, connector: Option<Connector>)
    ensures Infix(e, connector)[0].0 == connector
    decreases e
  {
    if e.item.Group? { InfixFirst(e.item.inner, connector); }
  }

  /** Flattening a marker, writing the clauses back with their connectors and reading
      them again gives the bracket-free expression; doing it twice changes nothing. */
  lemma RejoinedMarkerIsFlat(e: Expr)
    requires ExprOk(e)
    ensures Rejoin(Flatten(Print(e))) == Print(Flat(e))
    ensures Flatten(Rejoin(Flatten(Print(e)))) == Flatten(Print(e))
  {
    FlattenPrinted(e);
    FlatKeepsInfix(e, None);
    FlatAllAtoms(e);
    RejoinPrints(Flat(e), None);
    FlattenPrinted(Flat(e));
  }

  // -------------------------------------------------------------------- and-runs

  /** A row of leaves seen as and-runs separated by `or`: one run, or a first, a last,
      and whether some run in between is true. */
  datatype Runs = One(b: bool) | Many(first: bool, mid: bool, last: bool)

  predicate Truth(r: Runs) {
    match r case One(b) => b case Many(f, m, l) => f || m || l
  }

  function Join(c: Connector, a: Runs, b: Runs): Runs {
    match (c, a, b)
    case (And, One(p), One(q)) => One(p && q)
    case (And, One(p), Many(f, m, l)) => Many(p && f, m, l)
    case (And, Many(f, m, l), One(q)) => Many(f, m, l && q)
    case (And, Many(f, m, l), Many(f', m', l')) => Many(f, m || m' || (l && f'), l')
    case (Or, One(p), One(q)) => Many(p, false, q)
    case (Or, One(p), Many(f, m, l)) => Many(p, f || m, l)
    case (Or, Many(f, m, l), One(q)) => Many(f, m || l, q)
    case (Or, Many(f, m, l), Many(f', m', l')) => Many(f, m || l || f' || m', l')
  }

  lemma JoinAssoc(c: Connector, d: Connector, p: Runs, q: Runs, r: Runs)
    ensures Join(d, Join(c, p, q), r) == Join(c, p, Join(d, q, r))
  {}

  lemma JoinTruth(p: Runs, q: Runs)
    ensures Truth(Join(Or, p, q)) <==> Truth(p) || Truth(q)
    ensures Truth(p) && Truth(q) ==> Truth(Join(And, p, q))
    ensures Join(And, One(true), p) == p
  {}

  /** The runs of the bracket-free reading. */
  function RunsOf(e: Expr, v: Values): Runs
    requires |v| == Leaves(e)
  {
    match e
    case Last(i) => RunsItem(i, v)
    case More(i, c, t) => Join(c, RunsItem(i, v[..LeavesItem(i)]), RunsOf(t, v[LeavesItem(i)..]))
  }

  function RunsItem(i: Item, v: Values): Runs
    requires |v| == LeavesItem(i)
  {
    match i case Atom(_) => One(v[0]) case Group(e) => RunsOf(e, v)
  }

  lemma {:induction false} AppendRuns(a: Expr, c: Connector, b: Expr, v: Values)
    requires |v| == Leaves(a) + Leaves(b) && Leaves(Append(a, c, b)) == |v|
    ensures RunsOf(Append(a, c, b), v) == Join(c, RunsOf(a, v[..Leaves(a)]), RunsOf(b, v[Leaves(a)..]))
    decreases a
  {
    match a
    case Last(i) =>
    case More(i, d, t) =>
      var n := LeavesItem(i);
      AppendFacts(t, c, b, None);
      AppendRuns(t, c, b, v[n..]);
      assert v[n..][..Leaves(t)] == v[..Leaves(a)][n..] && v[n..][Leaves(t)..] == v[Leaves(a)..];
      assert v[..Leaves(a)][..n] == v[..n];
      JoinAssoc(d, c, RunsItem(i, v[..n]), RunsOf(t, v[n..][..Leaves(t)]), RunsOf(b, v[Leaves(a)..]));
  }

  lemma {:induction false} FlatRuns(e: Expr, v: Values)
    requires |v| == Leaves(e) == Leaves(Flat(e))
    ensures RunsOf(Flat(e), v) == RunsOf(e, v)
    decreases e
  {
    match e
    case Last(i) => FlatItemRuns(i, v);
    case More(i, c, t) =>
      var n := LeavesItem(i);
      FlatItemKeeps(i, None);
      FlatKeepsInfix(t, None);
      FlatItemRuns(i, v[..n]);
      FlatRuns(t, v[n..]);
      AppendRuns(FlatItem(i), c, Flat(t), v);
  }

  lemma {:induction false} FlatItemRuns(i: Item, v: Values)
    requires |v| == LeavesItem(i) == Leaves(FlatItem(i))
    ensures RunsOf(FlatItem(i), v) == RunsItem(i, v)
    decreases i
  {
    if i.Group? { FlatRuns(i.inner, v); }
  }

  /** A bracket-free expression means what its runs say. */
  lemma {:induction false} AtomsMeanRuns(e: Expr, v: Values, soFar: bool)
    requires AllAtoms(e) && |v| == Leaves(e)
    ensures EvalFrom(e, v, soFar) <==> Truth(Join(And, One(soFar), RunsOf(e, v)))
    decreases e
  {
    match e
    case Last(i) =>
    case More(i, c, t) =>
      var term := soFar && v[0];
      if c.And? { AtomsMeanRuns(t, v[1..], term); } else { AtomsMeanRuns(t, v[1..], true); }
      JoinAssoc(And, c, One(soFar), One(v[0]), RunsOf(t, v[1..]));
      JoinTruth(One(term), RunsOf(t, v[1..]));
  }

  lemma FlatMeansRuns(e: Expr, v: Values)
    requires |v| == Leaves(e)
    ensures |v| == Leaves(Flat(e)) && (Eval(Flat(e), v) <==> Truth(RunsOf(e, v)))
  {
    FlatKeepsInfix(e, None);
    FlatAllAtoms(e);
    AtomsMeanRuns(Flat(e), v, true);
    FlatRuns(e, v);
    JoinTruth(RunsOf(e, v), RunsOf(e, v));
  }

  // ------------------------------------------------- flattening never loses a case

  /** Whatever the original marker admits, the flattened one admits too. */
  lemma FlatteningOnlyWidens(e: Expr, v: Values)
    requires |v| == Leaves(e)
    ensures Leaves(Flat(e)) == |v| && (Eval(e, v) ==> Eval(Flat(e), v))
  {
    FlatMeansRuns(e, v);
    EvalImpliesRuns(e, v, One(true), true);
    JoinTruth(RunsOf(e, v), RunsOf(e, v));
  }

  lemma {:induction false} EvalImpliesRuns(e: Expr, v: Values, before: Runs, soFar: bool)
    requires |v| == Leaves(e) && (soFar ==> Truth(before))
    ensures EvalFrom(e, v, soFar) ==> Truth(Join(And, before, RunsOf(e, v)))
    decreases e
  {
    match e
    case Last(i) =>
      ItemImpliesRuns(i, v);
      JoinTruth(before, RunsItem(i, v));
    case More(i, c, t) =>
      var n := LeavesItem(i);
      var runs := RunsItem(i, v[..n]);
      ItemImpliesRuns(i, v[..n]);
      JoinTruth(before, runs);
      JoinAssoc(And, c, before, runs, RunsOf(t, v[n..]));
      if c.And? {
        EvalImpliesRuns(t, v[n..], Join(And, before, runs), soFar && EvalItem(i, v[..n]));
      } else {
        EvalImpliesRuns(t, v[n..], One(true), true);
        JoinTruth(RunsOf(t, v[n..]), runs);
        JoinTruth(Join(And, before, runs), RunsOf(t, v[n..]));
      }
  }

  lemma {:induction false} ItemImpliesRuns(i: Item, v: Values)
    requires |v| == LeavesItem(i)
    ensures EvalItem(i, v) ==> Truth(RunsItem(i, v))
    decreases i
  {
    if i.Group? {
      EvalImpliesRuns(i.inner, v, One(true), true);
      JoinTruth(RunsOf(i.inner, v), RunsOf(i.inner, v));
    }
  }

  // ----------------------------------------------------------- when it keeps meaning

  /** No `or` anywhere among the leaves. */
  predicate OrFree(e: Expr) {
    match e case Last(i) => OrFreeItem(i) case More(i, c, t) => c.And? && OrFreeItem(i) && OrFree(t)
  }

  predicate OrFreeItem(i: Item) {
    match i case Atom(_) => true case Group(e) => OrFree(e)
  }

  /** No bracketed group that contains an `or` is an operand of an `and`. */
  predicate NoOrUnderAnd(e: Expr) {
    NiceFrom(e, false)
  }

  predicate NiceFrom(e: Expr, afterAnd: bool) {
    match e
    case Last(i) => NiceItem(i) && (afterAnd ==> OrFreeItem(i))
    case More(i, c, t) => NiceItem(i) && (afterAnd || c.And? ==> OrFreeItem(i)) && NiceFrom(t, c.And?)
  }

  predicate NiceItem(i: Item) {
    match i case Atom(_) => true case Group(e) => NiceFrom(e, false)
  }

  lemma {:induction false} OrFreeIsOneRun(e: Expr, v: Values)
    requires |v| == Leaves(e)
    ensures RunsOf(e, v).One? <==> OrFree(e)
    decreases e
  {
    match e
    case Last(i) => OrFreeItemIsOneRun(i, v);
    case More(i, c, t) =>
      OrFreeItemIsOneRun(i, v[..LeavesItem(i)]);
      OrFreeIsOneRun(t, v[LeavesItem(i)..]);
  }

  lemma {:induction false} OrFreeItemIsOneRun(i: Item, v: Values)
    requires |v| == LeavesItem(i)
    ensures RunsItem(i, v).One? <==> OrFreeItem(i)
    decreases i
  {
    if i.Group? { OrFreeIsOneRun(i.inner, v); }
  }

  lemma {:induction false} NiceMeansRuns(e: Expr, v: Values, soFar: bool, afterAnd: bool)
    requires |v| == Leaves(e) && NiceFrom(e, afterAnd) && (!afterAnd ==> soFar)
    ensures EvalFrom(e, v, soFar) <==> Truth(Join(And, One(soFar), RunsOf(e, v)))
    decreases e
  {
    match e
    case Last(i) =>
      NiceItemMeansRuns(i, v);
      OrFreeItemIsOneRun(i, v);
      JoinTruth(RunsItem(i, v), RunsItem(i, v));
    case More(i, c, t) =>
      var n := LeavesItem(i);
      var runs := RunsItem(i, v[..n]);
      NiceItemMeansRuns(i, v[..n]);
      OrFreeItemIsOneRun(i, v[..n]);
      JoinTruth(runs, RunsOf(t, v[n..]));
      JoinTruth(RunsOf(t, v[n..]), runs);
      JoinAssoc(And, c, One(soFar), runs, RunsOf(t, v[n..]));
      if c.And? {
        NiceMeansRuns(t, v[n..], soFar && EvalItem(i, v[..n]), true);
      } else {
        NiceMeansRuns(t, v[n..], true, false);
        JoinTruth(Join(And, One(soFar), runs), RunsOf(t, v[n..]));
      }
  }

  lemma {:induction false} NiceItemMeansRuns(i: Item, v: Values)
    requires |v| == LeavesItem(i) && NiceItem(i)
    ensures EvalItem(i, v) <==> Truth(RunsItem(i, v))
    decreases i
  {
    if i.Group? {
      NiceMeansRuns(i.inner, v, true, false);
      JoinTruth(RunsOf(i.inner, v), RunsOf(i.inner, v));
    }
  }

  // ------------------------------------------------------- and when it does not

  function Constant(n: nat, b: bool): Values { seq(n, _ => b) }

  /** All leaves alike: the expression has that value, and so do its outer runs. */
  ghost predicate Uniform(r: Runs, b: bool) {
    match r case One(p) => p == b case Many(f, m, l) => f == b && l == b && (m ==> b)
  }

  lemma {:induction false} ConstantValue(e: Expr, b: bool, soFar: bool)
    ensures EvalFrom(e, Constant(Leaves(e), b), soFar) ==> b
    ensures b && soFar ==> EvalFrom(e, Constant(Leaves(e), b), soFar)
    ensures Uniform(RunsOf(e, Constant(Leaves(e), b)), b)
    decreases e
  {
    match e
    case Last(i) => ConstantItem(i, b);
    case More(i, c, t) =>
      var n := LeavesItem(i);
      var v := Constant(Leaves(e), b);
      assert v[..n] == Constant(n, b) && v[n..] == Constant(Leaves(t), b);
      ConstantItem(i, b);
      ConstantValue(t, b, soFar && EvalItem(i, v[..n]));
      ConstantValue(t, b, true);
  }

  lemma {:induction false} ConstantItem(i: Item, b: bool)
    ensures EvalItem(i, Constant(LeavesItem(i), b)) == b
    ensures Uniform(RunsItem(i, Constant(LeavesItem(i), b)), b)
    decreases i
  {
    if i.Group? { ConstantValue(i.inner, b, true); }
  }

  /** The rest of the current and-term true, everything after it false. */
  function TermTrue(e: Expr): (v: Values)
    ensures |v| == Leaves(e)
  {
    match e
    case Last(i) => Constant(LeavesItem(i), true)
    case More(i, c, t) =>
      Constant(LeavesItem(i), true) + if c.And? then TermTrue(t) else Constant(Leaves(t), false)
  }

  ghost predicate StartsTrue(r: Runs) {
    match r case One(b) => b case Many(f, _, _) => f
  }

  lemma {:induction false} TermTrueValue(e: Expr)
    ensures !EvalFrom(e, TermTrue(e), false)
    ensures StartsTrue(RunsOf(e, TermTrue(e)))
    decreases e
  {
    match e
    case Last(i) => ConstantItem(i, true);
    case More(i, c, t) =>
      var n := LeavesItem(i);
      var v := TermTrue(e);
      assert v[..n] == Constant(n, true);
      ConstantItem(i, true);
      if c.And? {
        assert v[n..] == TermTrue(t);
        TermTrueValue(t);
      } else {
        assert v[n..] == Constant(Leaves(t), false);
        ConstantValue(t, false, true);
      }
  }

  lemma JoinStartsTrue(p: Runs, q: Runs)
    requires Truth(p) && StartsTrue(q)
    ensures Truth(Join(And, p, q))
  {}

  lemma UniformBefore(p: Runs, b: bool, r: Runs)
    requires Uniform(p, b) && Truth(Join(And, One(b), r))
    ensures Truth(Join(And, p, r))
  {}

  /** A valuation the flattened marker admits and the original does not.  After an
      `and`, `need` is the value all leaves in front must have. */
  ghost predicate Separates(e: Expr, v: Values, need: bool) {
    |v| == Leaves(e) && !EvalFrom(e, v, need) && Truth(Join(And, One(need), RunsOf(e, v)))
  }

  lemma {:induction false} Separating(e: Expr, afterAnd: bool) returns (v: Values, need: bool)
    requires !NiceFrom(e, afterAnd)
    ensures Separates(e, v, need) && (!afterAnd ==> need)
    decreases e
  {
    var i := e.item;
    if !NiceItem(i) {
      var inner := SeparatingItem(i);
      v, need := WithRest(e, inner), true;
      RestKeepsBroken(e, inner);
    } else if afterAnd && !OrFreeItem(i) {
      v, need := WithRest(e, Constant(LeavesItem(i), true)), false;
      GroupAfterFalse(e);
    } else if e.More? && e.connector.And? && !OrFreeItem(i) {
      v, need := Constant(LeavesItem(i), true) + Constant(Leaves(e.tail), false), true;
      GroupBeforeFalse(i, e.tail);
    } else {
      var t := e.tail;
      var rest, needed := Separating(t, e.connector.And?);
      if e.connector.And? {
        v, need := Constant(LeavesItem(i), needed) + rest, if afterAnd then needed else true;
        BrokenLater(i, t, rest, needed, need);
      } else {
        v, need := Constant(LeavesItem(i), false) + rest, true;
        BrokenAfterOr(i, t, rest);
      }
    }
  }

  lemma {:induction false} SeparatingItem(i: Item) returns (v: Values)
    requires !NiceItem(i)
    ensures |v| == LeavesItem(i) && !EvalItem(i, v) && Truth(RunsItem(i, v))
    decreases i
  {
    var need;
    v, need := Separating(i.inner, false);
    JoinTruth(RunsOf(i.inner, v), RunsOf(i.inner, v));
  }

  /** A value for the first item, the rest of its and-term true, the other terms false. */
  function WithRest(e: Expr, first: Values): Values {
    match e
    case Last(_) => first
    case More(_, c, t) => first + if c.And? then TermTrue(t) else Constant(Leaves(t), false)
  }

  lemma RestKeepsBroken(e: Expr, inner: Values)
    requires |inner| == LeavesItem(e.item) && !EvalItem(e.item, inner) && Truth(RunsItem(e.item, inner))
    ensures Separates(e, WithRest(e, inner), true)
  {
    FirstOf(e, inner, true, One(true));
  }

  /** The first item alone decides when the rest only completes its and-term. */
  lemma FirstOf(e: Expr, inner: Values, soFar: bool, before: Runs)
    requires |inner| == LeavesItem(e.item) && !(soFar && EvalItem(e.item, inner))
    requires Truth(Join(And, before, RunsItem(e.item, inner)))
    ensures |WithRest(e, inner)| == Leaves(e) && !EvalFrom(e, WithRest(e, inner), soFar)
    ensures Truth(Join(And, before, RunsOf(e, WithRest(e, inner))))
  {
    if e.More? {
      var n := LeavesItem(e.item);
      var v, t := WithRest(e, inner), e.tail;
      assert v[..n] == inner;
      JoinAssoc(And, e.connector, before, RunsItem(e.item, inner), RunsOf(t, v[n..]));
      if e.connector.And? {
        assert v[n..] == TermTrue(t);
        TermTrueValue(t);
        JoinStartsTrue(Join(And, before, RunsItem(e.item, inner)), RunsOf(t, v[n..]));
      } else {
        assert v[n..] == Constant(Leaves(t), false);
        ConstantValue(t, false, true);
        JoinTruth(Join(And, before, RunsItem(e.item, inner)), RunsOf(t, v[n..]));
      }
    }
  }

  lemma GroupAfterFalse(e: Expr)
    requires !OrFreeItem(e.item)
    ensures Separates(e, WithRest(e, Constant(LeavesItem(e.item), true)), false)
  {
    ConstantItem(e.item, true);
    OrFreeItemIsOneRun(e.item, Constant(LeavesItem(e.item), true));
    FirstOf(e, Constant(LeavesItem(e.item), true), false, One(false));
  }

  lemma GroupBeforeFalse(i: Item, t: Expr)
    requires !OrFreeItem(i)
    ensures Separates(More(i, And, t), Constant(LeavesItem(i), true) + Constant(Leaves(t), false), true)
  {
    var n := LeavesItem(i);
    var v := Constant(n, true) + Constant(Leaves(t), false);
    assert v[..n] == Constant(n, true) && v[n..] == Constant(Leaves(t), false);
    ConstantItem(i, true);
    ConstantValue(t, false, true);
    OrFreeItemIsOneRun(i, Constant(n, true));
  }

  lemma BrokenLater(i: Item, t: Expr, rest: Values, needed: bool, need: bool)
    requires Separates(t, rest, needed) && (need || !needed)
    ensures Separates(More(i, And, t), Constant(LeavesItem(i), needed) + rest, need)
  {
    var n := LeavesItem(i);
    var v := Constant(n, needed) + rest;
    assert v[..n] == Constant(n, needed) && v[n..] == rest;
    ConstantItem(i, needed);
    var runs := RunsItem(i, Constant(n, needed));
    JoinAssoc(And, And, One(need), runs, RunsOf(t, rest));
    assert Uniform(Join(And, One(need), runs), needed);
    UniformBefore(Join(And, One(need), runs), needed, RunsOf(t, rest));
  }

  lemma BrokenAfterOr(i: Item, t: Expr, rest: Values)
    requires Separates(t, rest, true)
    ensures Separates(More(i, Or, t), Constant(LeavesItem(i), false) + rest, true)
  {
    var n := LeavesItem(i);
    var v := Constant(n, false) + rest;
    assert v[..n] == Constant(n, false) && v[n..] == rest;
    ConstantItem(i, false);
    JoinTruth(RunsOf(t, rest), RunsOf(t, rest));
    JoinTruth(RunsItem(i, Constant(n, false)), RunsOf(t, rest));
  }

  /** Main result: dropping the brackets keeps the marker's meaning under every
      valuation of its leaves exactly when no group with an `or` in it is an operand of
      an `and`. */
  lemma FlatteningKeepsMeaningIff(e: Expr)
    ensures Leaves(Flat(e)) == Leaves(e)
    ensures (forall v: Values | |v| == Leaves(e) :: Eval(Flat(e), v) == Eval(e, v)) <==> NoOrUnderAnd(e)
  {
    FlatKeepsInfix(e, None);
    if NoOrUnderAnd(e) {
      forall v: Values | |v| == Leaves(e) ensures Eval(Flat(e), v) == Eval(e, v) {
        FlatMeansRuns(e, v);
        NiceMeansRuns(e, v, true, false);
        JoinTruth(RunsOf(e, v), RunsOf(e, v));
      }
    } else {
      var v, need := Separating(e, false);
      FlatMeansRuns(e, v);
      JoinTruth(RunsOf(e, v), RunsOf(e, v));
      assert Eval(Flat(e), v) != Eval(e, v);
    }
  }

  /** The single-connector case: nothing to lose. */
  lemma {:induction false} AllAndKeepsMeaning(e: Expr)
    requires OrFree(e)
    ensures NiceFrom(e, true) && NiceFrom(e, false)
    decreases e
  {
    match e
    case Last(i) => if i.Group? { AllAndKeepsMeaning(i.inner); }
    case More(i, c, t) =>
      if i.Group? { AllAndKeepsMeaning(i.inner); }
      AllAndKeepsMeaning(t);
  }

  predicate AndFree(e: Expr) {
    match e
    case Last(i) => i.Group? ==> AndFree(i.inner)
    case More(i, c, t) => c.Or? && (i.Group? ==> AndFree(i.inner)) && AndFree(t)
  }

  lemma {:induction false} AllOrKeepsMeaning(e: Expr)
    requires AndFree(e)
    ensures NiceFrom(e, false)
    decreases e
  {
    if e.item.Group? { AllOrKeepsMeaning(e.item.inner); }
    if e.More? { AllOrKeepsMeaning(e.tail); }
  }
}
