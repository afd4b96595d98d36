/** What the inventory records for a marker: its clauses without the `extra` ones, and
    the name of the first extra.  Which clause names an extra is a parameter. */
module MarkerExtras {
  import opened Wrappers
  import opened MarkerText
  import opened MarkerExpr
  import opened MarkerMeaning

  type Extras = string -> Option<string>

  function Kept(clauses: seq<Clause>, extras: Extras): seq<Clause> {
    if clauses == [] then []
    else
      var last := clauses[|clauses| - 1];
      Kept(clauses[..|clauses| - 1], extras) + if extras(last.1).None? then [last] else []
  }

  function FirstExtra(clauses: seq<Clause>, extras: Extras): Option<string> {
    if clauses == [] then None
    else
      var before := FirstExtra(clauses[..|clauses| - 1], extras);
      if before.Some? then before else extras(clauses[|clauses| - 1].1)
  }

  /** Reads a marker whose blanks and quotes are already normal. */
  method ParseMarker(text: string, extras: Extras) returns (marker: Option<string>, extra: Option<string>)
    ensures extra == if text == [] then None else FirstExtra(Flatten(text), extras)
    ensures var written := if text == [] then [] else Rejoin(Kept(Flatten(text), extras));
      marker == if written == [] then None else Some(written)
  {
    if text == [] { return None, None; }
    var clauses := FlattenClauses(text);
    var kept;
    kept, extra := SetExtrasApart(clauses, extras);
    if kept == [] { return None, extra; }
    var written := JoinClauses(kept);
    marker := if written == [] then None else Some(written);
  }

  /** The first loop. */
  method SetExtrasApart(clauses: seq<Clause>, extras: Extras) returns (kept: seq<Clause>, extra: Option<string>)
    ensures kept == Kept(clauses, extras) && extra == FirstExtra(clauses, extras)
  {
    kept, extra := [], None;
    for k := 0 to |clauses|
      invariant kept == Kept(clauses[..k], extras) && extra == FirstExtra(clauses[..k], extras)
    {
      assert clauses[..k + 1][..k] == clauses[..k];
      var name := extras(clauses[k].1);
      if name.None? {
        kept := kept + [clauses[k]];
      } else if extra.None? {
        extra := name;
      }
    }
    assert clauses[..|clauses|] == clauses;
  }

  /** The second loop. */
  method JoinClauses(kept: seq<Clause>) returns (written: string)
    requires kept != []
    ensures written == Rejoin(kept)
  {
    written := kept[0].1;
    assert Rejoin(kept[..1]) == kept[0].1 by { assert kept[..1][1..] == []; }
    hide *;
    for k := 1 to |kept|
      invariant written == Rejoin(kept[..k])
    {
      assert kept[..k + 1] == kept[..k] + [kept[k]];
      RejoinLast(kept[..k], kept[k]);
      written := written + (Word(kept[k].0.GetOr(And)) + kept[k].1);
    }
    assert kept[..|kept|] == kept;
  }

  lemma {:induction false} RejoinLast(clauses: seq<Clause>, last: Clause)
    requires clauses != []
    ensures Rejoin(clauses + [last]) == Rejoin(clauses) + (Word(last.0.GetOr(And)) + last.1)
  {
    assert (clauses + [last])[1..] == clauses[1..] + [last];
    TailLast(clauses[1..], last);
  }

  lemma {:induction false} TailLast(clauses: seq<Clause>, last: Clause)
    ensures RejoinTail(clauses + [last]) == RejoinTail(clauses) + (Word(last.0.GetOr(And)) + last.1)
  {
    if clauses == [] {
      assert (clauses + [last])[1..] == [];
    } else {
      assert (clauses + [last])[1..] == clauses[1..] + [last];
      TailLast(clauses[1..], last);
    }
  }

  // --------------------------------------------------------------- what clauses mean

  /** The value of a row of clauses when `run` stands and-ed in front of the first. */
  predicate Holds(clauses: seq<Clause>, v: Values, run: bool)
    requires |v| == |clauses| > 0
  {
    var term := run && v[0];
    if |clauses| == 1 then term
    else if clauses[1].0 == Some(Or) then term || Holds(clauses[1..], v[1..], true)
    else Holds(clauses[1..], v[1..], term)
  }

  /** A bracket-free expression means its clauses. */
  lemma {:induction false} AtomsMeanClauses(e: Expr, connector: Option<Connector>, v: Values, run: bool)
    requires AllAtoms(e) && |v| == Leaves(e)
    ensures |Infix(e, connector)| == |v| && (EvalFrom(e, v, run) <==> Holds(Infix(e, connector), v, run))
    decreases e
  {
    match e
    case Last(i) =>
    case More(i, c, t) =>
      var rest := Infix(t, Some(c));
      assert Infix(e, connector)[1..] == rest;
      InfixFirst(t, Some(c));
      AtomsMeanClauses(t, Some(c), v[1..], run && v[0]);
      AtomsMeanClauses(t, Some(c), v[1..], true);
  }

  ghost predicate HasOr(clauses: seq<Clause>) {
    exists i | 0 < i < |clauses| :: clauses[i].0 == Some(Or)
  }

  lemma HasOrTail(clauses: seq<Clause>)
    requires |clauses| > 1
    ensures HasOr(clauses) <==> clauses[1].0 == Some(Or) || HasOr(clauses[1..])
  {
    var tail := clauses[1..];
    forall i | 0 < i < |tail| ensures tail[i] == clauses[i + 1] {}
    if HasOr(clauses) {
      var i :| 0 < i < |clauses| && clauses[i].0 == Some(Or);
      if i > 1 { assert tail[i - 1] == clauses[i]; }
    }
  }

  /** Clauses joined by `and` alone hold when they all do. */
  lemma {:induction false} AndHolds(clauses: seq<Clause>, v: Values, run: bool)
    requires |v| == |clauses| > 0 && !HasOr(clauses)
    ensures Holds(clauses, v, run) <==> run && forall i | 0 <= i < |v| :: v[i]
  {
    if |clauses| > 1 {
      HasOrTail(clauses);
      AndHolds(clauses[1..], v[1..], run && v[0]);
      assert forall i | 0 <= i < |v| - 1 :: v[1..][i] == v[i + 1];
      assert (forall i | 0 <= i < |v| :: v[i]) <==> v[0] && forall i | 0 <= i < |v| - 1 :: v[1..][i];
    }
  }

  function AllBut(n: nat, x: int): Values { seq(n, i => i != x) }

  lemma {:induction false} RestHolds(clauses: seq<Clause>, run: bool)
    requires clauses != []
    ensures Holds(clauses, AllBut(|clauses|, -1), run) <==> run || HasOr(clauses)
  {
    var n := |clauses|;
    if n > 1 {
      HasOrTail(clauses);
      assert AllBut(n, -1)[1..] == AllBut(n - 1, -1);
      RestHolds(clauses[1..], run);
      RestHolds(clauses[1..], true);
    }
  }

  /** With an `or` somewhere, one false clause does not make the row false. */
  lemma {:induction false} OneFalseHolds(clauses: seq<Clause>, x: nat)
    requires x < |clauses| && HasOr(clauses)
    ensures Holds(clauses, AllBut(|clauses|, x), true)
  {
    var n := |clauses|;
    HasOrTail(clauses);
    if x == 0 {
      assert AllBut(n, 0)[1..] == AllBut(n - 1, -1);
      RestHolds(clauses[1..], false);
      RestHolds(clauses[1..], true);
    } else if clauses[1].0 != Some(Or) {
      assert AllBut(n, x)[1..] == AllBut(n - 1, x - 1);
      OneFalseHolds(clauses[1..], x - 1);
    }
  }

  // --------------------------------------------------------- what the record means

  predicate IsExtra(clauses: seq<Clause>, extras: Extras, i: nat)
    requires i < |clauses|
  {
    extras(clauses[i].1).Some?
  }

  function ExtraCount(clauses: seq<Clause>, extras: Extras): nat {
    if clauses == [] then 0
    else ExtraCount(clauses[..|clauses| - 1], extras) + if IsExtra(clauses, extras, |clauses| - 1) then 1 else 0
  }

  /** Where the first extra stands; past the end when there is none. */
  function ExtraAt(clauses: seq<Clause>, extras: Extras): (at: nat)
    ensures at <= |clauses|
  {
    if clauses == [] then 0
    else
      var n := |clauses| - 1;
      var before := ExtraAt(clauses[..n], extras);
      if before < n then before else if IsExtra(clauses, extras, n) then n else n + 1
  }

  function KeptValues(clauses: seq<Clause>, extras: Extras, v: Values): (r: Values)
    requires |v| == |clauses|
    ensures |r| == |Kept(clauses, extras)|
  {
    if clauses == [] then []
    else
      var n := |clauses| - 1;
      KeptValues(clauses[..n], extras, v[..n]) + if IsExtra(clauses, extras, n) then [] else [v[n]]
  }

  /** The recorded pair: the first extra is asked for, and the kept marker holds. */
  predicate RecordHolds(clauses: seq<Clause>, extras: Extras, v: Values)
    requires |v| == |clauses|
  {
    && (ExtraAt(clauses, extras) < |clauses| ==> v[ExtraAt(clauses, extras)])
    && (Kept(clauses, extras) != [] ==> Holds(Kept(clauses, extras), KeptValues(clauses, extras, v), true))
  }

  lemma {:induction false} ExtraFacts(clauses: seq<Clause>, extras: Extras)
    ensures FirstExtra(clauses, extras).Some? <==> ExtraAt(clauses, extras) < |clauses|
    ensures ExtraCount(clauses, extras) == 0 <==> ExtraAt(clauses, extras) == |clauses|
    ensures ExtraAt(clauses, extras) < |clauses| ==>
      && IsExtra(clauses, extras, ExtraAt(clauses, extras))
      && FirstExtra(clauses, extras) == extras(clauses[ExtraAt(clauses, extras)].1)
    ensures ExtraCount(clauses, extras) == 0 ==> forall i | 0 <= i < |clauses| :: !IsExtra(clauses, extras, i)
    ensures ExtraCount(clauses, extras) == 1 ==>
      forall i | 0 <= i < |clauses| :: IsExtra(clauses, extras, i) ==> i == ExtraAt(clauses, extras)
  {
    if clauses != [] {
      var n := |clauses| - 1;
      ExtraFacts(clauses[..n], extras);
      assert forall i | 0 <= i < n :: IsExtra(clauses, extras, i) == IsExtra(clauses[..n], extras, i);
    }
  }

  lemma {:induction false} AnotherExtra(clauses: seq<Clause>, extras: Extras) returns (y: nat)
    requires ExtraCount(clauses, extras) > 1
    ensures y < |clauses| && IsExtra(clauses, extras, y) && y != ExtraAt(clauses, extras)
  {
    var n := |clauses| - 1;
    ExtraFacts(clauses[..n], extras);
    if IsExtra(clauses, extras, n) {
      y := n;
    } else {
      y := AnotherExtra(clauses[..n], extras);
      assert clauses[..n][y] == clauses[y];
    }
  }

  predicate AllTrue(v: Values) {
    forall i | 0 <= i < |v| :: v[i]
  }

  /** Every clause that is kept is true. */
  predicate PlainTrue(clauses: seq<Clause>, extras: Extras, v: Values)
    requires |v| == |clauses|
  {
    forall i | 0 <= i < |clauses| :: !IsExtra(clauses, extras, i) ==> v[i]
  }

  lemma {:induction false} KeptValuesAllTrue(clauses: seq<Clause>, extras: Extras, v: Values)
    requires |v| == |clauses|
    ensures AllTrue(KeptValues(clauses, extras, v)) <==> PlainTrue(clauses, extras, v)
  {
    if clauses != [] {
      var n := |clauses| - 1;
      KeptValuesAllTrue(clauses[..n], extras, v[..n]);
      var values := KeptValues(clauses[..n], extras, v[..n]);
      assert PlainTrue(clauses, extras, v) <==> PlainTrue(clauses[..n], extras, v[..n]) && (IsExtra(clauses, extras, n) || v[n]) by {
        assert forall i | 0 <= i < n :: IsExtra(clauses, extras, i) == IsExtra(clauses[..n], extras, i) && v[..n][i] == v[i];
      }
      AllTrueLast(values, v[n]);
      assert KeptValues(clauses, extras, v) == if IsExtra(clauses, extras, n) then values else values + [v[n]];
    }
  }

  lemma AllTrueLast(v: Values, last: bool)
    ensures AllTrue(v + [last]) <==> AllTrue(v) && last
  {
    assert (v + [last])[|v|] == last;
    assert forall i | 0 <= i < |v| :: (v + [last])[i] == v[i];
  }

  lemma {:induction false} KeptOrFree(clauses: seq<Clause>, extras: Extras)
    requires !HasOr(clauses)
    ensures !HasOr(Kept(clauses, extras)) && |Kept(clauses, extras)| <= |clauses|
  {
    if clauses != [] {
      var n := |clauses| - 1;
      assert !HasOr(clauses[..n]) by { assert forall i | 0 <= i < n :: clauses[..n][i] == clauses[i]; }
      KeptOrFree(clauses[..n], extras);
    }
  }

  lemma {:induction false} NothingDropped(clauses: seq<Clause>, extras: Extras, v: Values)
    requires |v| == |clauses| && ExtraCount(clauses, extras) == 0
    ensures Kept(clauses, extras) == clauses && KeptValues(clauses, extras, v) == v
  {
    if clauses != [] {
      var n := |clauses| - 1;
      assert ExtraCount(clauses[..n], extras) == 0 && !IsExtra(clauses, extras, n);
      NothingDropped(clauses[..n], extras, v[..n]);
      assert clauses[..n] + [clauses[n]] == clauses && v[..n] + [v[n]] == v;
    }
  }

  /** What the record means when only `and` joins the clauses. */
  lemma AndRecord(clauses: seq<Clause>, extras: Extras, v: Values)
    requires |v| == |clauses| > 0 && !HasOr(clauses)
    ensures Holds(clauses, v, true) <==> AllTrue(v)
    ensures RecordHolds(clauses, extras, v) <==>
      (ExtraAt(clauses, extras) < |clauses| ==> v[ExtraAt(clauses, extras)]) && PlainTrue(clauses, extras, v)
  {
    hide HasOr; hide Kept; hide KeptValues; hide Holds; hide ExtraAt;
    AndHolds(clauses, v, true);
    KeptOrFree(clauses, extras);
    KeptValuesAllTrue(clauses, extras, v);
    if Kept(clauses, extras) != [] { AndHolds(Kept(clauses, extras), KeptValues(clauses, extras, v), true); }
  }

  /** Main result: reading the record back as "the extra is asked for and the marker
      holds" gives the flattened marker's meaning under every valuation exactly when no
      clause names an extra, or one does and there is no `or`. */
  lemma RecordMeansMarkerIff(clauses: seq<Clause>, extras: Extras)
    requires clauses != []
    ensures (forall v: Values | |v| == |clauses| :: Holds(clauses, v, true) == RecordHolds(clauses, extras, v))
       <==> ExtraCount(clauses, extras) == 0 || (ExtraCount(clauses, extras) == 1 && !HasOr(clauses))
  {
    var n, x := |clauses|, ExtraAt(clauses, extras);
    ExtraFacts(clauses, extras);
    if ExtraCount(clauses, extras) == 0 {
      forall v: Values | |v| == n ensures Holds(clauses, v, true) == RecordHolds(clauses, extras, v) {
        NothingDropped(clauses, extras, v);
      }
    } else if HasOr(clauses) {
      OneFalseHolds(clauses, x);
      var v := AllBut(n, x);
      assert |v| == n && Holds(clauses, v, true) != RecordHolds(clauses, extras, v);
    } else if ExtraCount(clauses, extras) > 1 {
      var y := AnotherExtra(clauses, extras);
      var v := AllBut(n, y);
      AndRecord(clauses, extras, v);
      assert !v[y] && PlainTrue(clauses, extras, v);
      assert |v| == n && Holds(clauses, v, true) != RecordHolds(clauses, extras, v);
    } else {
      forall v: Values | |v| == n ensures Holds(clauses, v, true) == RecordHolds(clauses, extras, v) {
        OneExtraMeans(clauses, extras, v);
      }
    }
  }

  lemma OneExtraMeans(clauses: seq<Clause>, extras: Extras, v: Values)
    requires |v| == |clauses| > 0 && ExtraCount(clauses, extras) == 1 && !HasOr(clauses)
    ensures Holds(clauses, v, true) == RecordHolds(clauses, extras, v)
  {
    hide HasOr; hide Kept; hide KeptValues; hide Holds; hide ExtraAt; hide ExtraCount; hide RecordHolds;
    ExtraFacts(clauses, extras);
    AndRecord(clauses, extras, v);
    var x := ExtraAt(clauses, extras);
    if v[x] && PlainTrue(clauses, extras, v) {
      forall i | 0 <= i < |v| ensures v[i] {
        if i != x { assert !IsExtra(clauses, extras, i); }
      }
    }
  }

  // ------------------------------------------------------------ from marker to record

  /** The kept clauses as an expression of their own. */
  function Chain(clauses: seq<Clause>): Expr
    requires clauses != []
  {
    if |clauses| == 1 then Last(Atom(clauses[0].1))
    else More(Atom(clauses[0].1), clauses[1].0.GetOr(And), Chain(clauses[1..]))
  }

  /** Every clause but the first says what joins it, and every clause is an atom. */
  ghost predicate Linked(clauses: seq<Clause>) {
    && (forall i | 0 < i < |clauses| :: clauses[i].0.Some?)
    && (forall i | 0 <= i < |clauses| :: AtomOk(clauses[i].1))
  }

  lemma {:induction false} ChainPrints(clauses: seq<Clause>)
    requires clauses != [] && Linked(clauses)
    ensures ExprOk(Chain(clauses)) && Print(Chain(clauses)) == Rejoin(clauses)
    ensures Infix(Chain(clauses), clauses[0].0) == clauses
  {
    hide AtomOk;
    if |clauses| == 1 {
      assert clauses[1..] == [];
    } else {
      var tail := clauses[1..];
      assert forall i | 0 <= i < |tail| :: tail[i] == clauses[i + 1];
      ChainPrints(tail);
      assert clauses == [clauses[0]] + tail;
      hide Linked; hide Rejoin; hide RejoinTail;
      RejoinSnoc(clauses[0], tail, tail[0].0.value);
    }
  }

  lemma {:induction false} InfixLinked(e: Expr, connector: Option<Connector>)
    requires ExprOk(e)
    ensures Linked(Infix(e, connector))
    decreases e
  {
    match e
    case Last(i) => if i.Group? { InfixLinked(i.inner, connector); }
    case More(i, c, t) =>
      if i.Group? { InfixLinked(i.inner, connector); }
      InfixLinked(t, Some(c));
      InfixFirst(t, Some(c));
  }

  lemma {:induction false} KeptLinked(clauses: seq<Clause>, extras: Extras)
    requires Linked(clauses)
    ensures Linked(Kept(clauses, extras)) && |Kept(clauses, extras)| <= |clauses|
  {
    hide AtomOk;
    if clauses != [] {
      var n := |clauses| - 1;
      assert forall i | 0 <= i < n :: clauses[..n][i] == clauses[i];
      KeptLinked(clauses[..n], extras);
    }
  }

  /** Reading the recorded marker again gives the kept clauses. */
  lemma RecordedMarkerReadsBack(e: Expr, extras: Extras)
    requires ExprOk(e) && Kept(Infix(e, None), extras) != []
    ensures Flatten(Print(e)) == Infix(e, None)
    ensures var kept := Kept(Infix(e, None), extras);
      Flatten(Rejoin(kept)) == [(None, kept[0].1)] + kept[1..]
  {
    hide AtomOk; hide Rejoin; hide Flatten;
    FlattenPrinted(e);
    InfixLinked(e, None);
    KeptLinked(Infix(e, None), extras);
    var kept := Kept(Infix(e, None), extras);
    ChainPrints(kept);
    FlattenPrinted(Chain(kept));
    RelabelInfix(Chain(kept), kept[0].0);
    var read := Infix(Chain(kept), None);
    assert Relabel(read, kept[0].0) == kept;
    InfixFirst(Chain(kept), None);
    assert read == [read[0]] + read[1..];
    assert kept[1..] == read[1..] && kept[0].1 == read[0].1;
  }

  /** The same for a whole marker: the record means its bracket-free form under every
      valuation exactly when no leaf names an extra, or one does and no `or` is there. */
  lemma ParsedMarkerMeansIff(e: Expr, extras: Extras)
    requires ExprOk(e)
    ensures |Infix(e, None)| == Leaves(e) == Leaves(Flat(e))
    ensures (forall v: Values | |v| == Leaves(e) :: Eval(Flat(e), v) == RecordHolds(Infix(e, None), extras, v))
       <==> ExtraCount(Infix(e, None), extras) == 0 || (ExtraCount(Infix(e, None), extras) == 1 && !HasOr(Infix(e, None)))
  {
    hide RecordHolds; hide ExtraCount; hide HasOr; hide ExprOk;
    FlatKeepsInfix(e, None);
    FlatAllAtoms(e);
    AtomsMeanClauses(Flat(e), None, Constant(Leaves(e), true), true);
    forall v: Values | |v| == Leaves(e) ensures Eval(Flat(e), v) == Holds(Infix(e, None), v, true) {
      AtomsMeanClauses(Flat(e), None, v, true);
    }
    RecordMeansMarkerIff(Infix(e, None), extras);
  }
}
