/** Marker expressions, their printed form, and what flattening makes of it. */
module MarkerExpr {
  import opened Wrappers
  import opened WhiteSpace
  import opened MarkerText

  /** A comparison, or a bracketed expression. */
  datatype Item = Atom(text: string) | Group(inner: Expr)

  /** Items with `and`/`or` between them: any expression the grammar admits, with any
      redundant brackets. */
  datatype Expr = Last(item: Item) | More(item: Item, connector: Connector, tail: Expr)

  function Word(c: Connector): string { if c.And? then " and " else " or " }

  function PrintItem(i: Item): string {
    match i
    case Atom(text) => text
    case Group(e) => "(" + Print(e) + ")"
  }

  function Print(e: Expr): string {
    match e
    case Last(i) => PrintItem(i)
    case More(i, c, t) => PrintItem(i) + Word(c) + Print(t)
  }

  /** The leaves in order, each behind the connector written in front of it. */
  function Infix(e: Expr, connector: Option<Connector>): (clauses: seq<Clause>)
    ensures clauses != []
  {
    match e
    case Last(i) => InfixItem(i, connector)
    case More(i, c, t) => InfixItem(i, connector) + Infix(t, Some(c))
  }

  function InfixItem(i: Item, connector: Option<Connector>): (clauses: seq<Clause>)
    ensures clauses != []
  {
    match i
    case Atom(text) => [(connector, text)]
    case Group(e) => Infix(e, connector)
  }

  // ------------------------------------------------------------------- which atoms

  /** An atom is read in one piece: quotes closed, and outside quotes no brackets and
      no `and`/`or` standing as a word. */
  predicate AtomOk(text: string) {
    && text != [] && !IsSpace(text[0]) && !IsSpace(text[|text| - 1])
    && ReadsAsOne(text, 0, None)
  }

  predicate ReadsAsOne(text: string, i: nat, quote: Option<char>)
    requires i <= |text|
    decreases |text| - i
  {
    if i == |text| then quote.None?
    else if quote.Some? then ReadsAsOne(text, i + 1, if text[i] == quote.value then None else quote)
    else if IsQuote(text[i]) then ReadsAsOne(text, i + 1, Some(text[i]))
    else !IsBracket(text[i]) && !StandsAsWord(text, i) && ReadsAsOne(text, i + 1, None)
  }

  predicate IsBracket(c: char) { c == '(' || c == ')' }

  /** Counting every bracket, quoted or not, from `depth` on nothing closes more than is
      open. */
  predicate NeverBelow(text: string, i: nat, depth: nat)
    requires i <= |text|
    decreases |text| - i
  {
    if i == |text| then true
    else if text[i] == '(' then NeverBelow(text, i + 1, depth + 1)
    else if text[i] == ')' then depth > 0 && NeverBelow(text, i + 1, depth - 1)
    else NeverBelow(text, i + 1, depth)
  }

  /** White space at `i`, then `and` or `or`, then white space or the end. */
  predicate StandsAsWord(text: string, i: nat)
    requires i <= |text|
  {
    var j := SkipSpaces(text, i);
    var word := WordAt(text, j);
    j > i && word.Some? && (j + WordLength(word.value) == |text| || IsSpace(text[j + WordLength(word.value)]))
  }

  /** What may stand in front of a quoted value: no quotes or brackets, and no white space
      that a word beginning like `and` or `or` follows. */
  predicate PlainHead(head: string) {
    && head != [] && !IsSpace(head[0])
    && (forall c | c in head :: c != '"' && c != '\'' && c != '(' && c != ')')
    && (forall i | 0 < i < |head| && IsSpace(head[i - 1]) :: head[i] !in {'a', 'A', 'o', 'O'})
  }

  /** A comparison with a quoted value is one atom whatever the value is: brackets,
      connectors and the other quote are not looked at inside the quotes. */
  lemma QuotedComparisonIsOne(head: string, quote: char, value: string)
    requires PlainHead(head) && (quote == '"' || quote == '\'') && quote !in value
    ensures AtomOk(head + [quote] + value + [quote])
  {
    var text, close := head + [quote] + value + [quote], |head| + 1 + |value|;
    assert text[|head|] == quote && text[close] == quote && !IsSpace(quote);
    forall k | |head| < k < close ensures text[k] != quote { assert text[k] in value; }
    forall k | 0 <= k < |head| ensures text[k] == head[k] && text[k] in head {}
    ReadsValue(text, |head| + 1, quote);
    ReadsHead(text, head, 0);
  }

  lemma {:induction false} ReadsValue(text: string, i: nat, quote: char)
    requires i < |text| && text[|text| - 1] == quote && forall k | i <= k < |text| - 1 :: text[k] != quote
    ensures ReadsAsOne(text, i, Some(quote))
    decreases |text| - i
  {
    hide StandsAsWord;
    if i < |text| - 1 { ReadsValue(text, i + 1, quote); }
  }

  lemma {:induction false} ReadsHead(text: string, head: string, i: nat)
    requires PlainHead(head) && i <= |head| < |text| && head == text[..|head|]
    requires (text[|head|] == '"' || text[|head|] == '\'') && ReadsAsOne(text, |head| + 1, Some(text[|head|]))
    ensures ReadsAsOne(text, i, None)
    decreases |head| - i
  {
    if i < |head| {
      assert text[i] == head[i] && text[i] in head;
      ReadsHead(text, head, i + 1);
      NoWordInHead(text, head, i);
      hide StandsAsWord;
    }
  }

  lemma NoWordInHead(text: string, head: string, i: nat)
    requires PlainHead(head) && i < |head| < |text| && head == text[..|head|]
    requires text[|head|] == '"' || text[|head|] == '\''
    ensures !StandsAsWord(text, i)
  {
    var j := SkipSpaces(text, i);
    SkippedSpaces(text, i);
    assert j <= |head|;
    if i < j < |head| { assert head[j] == text[j] && head[j - 1] == text[j - 1]; }
  }

  lemma {:induction false} SkippedSpaces(text: string, i: nat)
    requires i <= |text|
    ensures forall k | i <= k < SkipSpaces(text, i) :: IsSpace(text[k])
    decreases |text| - i
  {
    if i < |text| && IsSpace(text[i]) { SkippedSpaces(text, i + 1); }
  }

  /** Quotes do not hide brackets from the unwrapping, so the brackets of a group come
      off only if what is inside never closes more than it opened, and nothing else does
      only if several items do not look enclosed. */
  predicate ItemOk(i: Item) {
    match i
    case Atom(text) => AtomOk(text)
    case Group(e) => ExprOk(e) && NeverBelow(Print(e), 0, 0) && (e.More? ==> !Bracketed(Print(e)))
  }

  predicate ExprOk(e: Expr) {
    match e case Last(i) => ItemOk(i) case More(i, _, t) => ItemOk(i) && ExprOk(t)
  }

  // ------------------------------------------------------------- shape of the print

  lemma PrintedEnds(e: Expr)
    requires ExprOk(e)
    ensures Print(e) != [] && !IsSpace(Print(e)[0]) && !IsSpace(Print(e)[|Print(e)| - 1])
  {
    match e
    case Last(i) => ItemEnds(i);
    case More(i, c, t) => ItemEnds(i); PrintedEnds(t);
  }

  lemma ItemEnds(i: Item)
    requires ItemOk(i)
    ensures PrintItem(i) != [] && !IsSpace(PrintItem(i)[0]) && !IsSpace(PrintItem(i)[|PrintItem(i)| - 1])
  {}

  lemma StripPrinted(s: string)
    requires s != [] && !IsSpace(s[0]) && !IsSpace(s[|s| - 1])
    ensures Strip(s) == s
  {}

  /** `part` is written in `s` from position `p` on. */
  ghost predicate WrittenAt(s: string, p: nat, part: string) {
    p + |part| <= |s| && s[p..p + |part|] == part
  }

  lemma WrittenParts(s: string, p: nat, a: string, b: string)
    requires WrittenAt(s, p, a + b)
    ensures WrittenAt(s, p, a) && WrittenAt(s, p + |a|, b)
  {
    assert s[p..p + |a|] == s[p..p + |a + b|][..|a|] == (a + b)[..|a|];
    assert s[p + |a|..p + |a| + |b|] == s[p..p + |a + b|][|a|..] == (a + b)[|a|..];
  }

  lemma Grouped(a: string, b: string, c: string)
    ensures a + b + c == a + (b + c)
  {}

  /** Where the item, the word and the tail of a printed expression are. */
  lemma MoreWritten(i: Item, c: Connector, t: Expr, s: string, p: nat)
    requires WrittenAt(s, p, Print(More(i, c, t)))
    ensures WrittenAt(s, p, PrintItem(i))
    ensures WrittenAt(s, p + |PrintItem(i)|, Word(c))
    ensures WrittenAt(s, p + |PrintItem(i)| + |Word(c)|, Print(t))
    ensures |Print(More(i, c, t))| == |PrintItem(i)| + |Word(c)| + |Print(t)|
  {
    var item, rest := PrintItem(i), Word(c) + Print(t);
    assert Print(More(i, c, t)) == item + Word(c) + Print(t);
    hide *;
    Grouped(item, Word(c), Print(t));
    WrittenParts(s, p, item, rest);
    WrittenParts(s, p + |item|, Word(c), Print(t));
  }

  lemma WrittenChar(s: string, p: nat, part: string, k: nat)
    requires WrittenAt(s, p, part) && k < |part|
    ensures s[p + k] == part[k]
  {
    assert s[p..p + |part|][k] == part[k];
  }

  lemma GroupWritten(e: Expr, s: string, p: nat)
    requires WrittenAt(s, p, PrintItem(Group(e)))
    ensures s[p] == '(' && WrittenAt(s, p + 1, Print(e)) && s[p + 1 + |Print(e)|] == ')'
    ensures |PrintItem(Group(e))| == |Print(e)| + 2
  {
    assert PrintItem(Group(e)) == "(" + (Print(e) + ")");
    WrittenParts(s, p, "(", Print(e) + ")");
    WrittenParts(s, p + 1, Print(e), ")");
    WrittenChar(s, p, "(", 0);
    WrittenChar(s, p + 1 + |Print(e)|, ")", 0);
  }

  // ---------------------------------------------------- scanning inside brackets

  /** Inside brackets a printed expression is passed over without a split. */
  lemma {:induction false} SkipInside(e: Expr, s: string, p: nat, start: nat, depth: nat, connector: Option<Connector>)
    requires ExprOk(e) && WrittenAt(s, p, Print(e)) && start <= p && depth > 0
    ensures SplitFrom(s, p, start, depth, None, connector) == SplitFrom(s, p + |Print(e)|, start, depth, None, connector)
    decreases e
  {
    match e
    case Last(i) =>
      SkipItem(i, s, p, start, depth, connector);
    case More(i, c, t) =>
      hide SplitFrom, Print, PrintItem, WrittenAt, Word;
      MoreWritten(i, c, t, s, p);
      SkipItem(i, s, p, start, depth, connector);
      SkipWord(s, p + |PrintItem(i)|, c, start, depth, connector);
      SkipInside(t, s, p + |PrintItem(i)| + |Word(c)|, start, depth, connector);
  }

  lemma SkipWord(s: string, p: nat, c: Connector, start: nat, depth: nat, connector: Option<Connector>)
    requires WrittenAt(s, p, Word(c)) && start <= p && depth > 0
    ensures SplitFrom(s, p, start, depth, None, connector) == SplitFrom(s, p + |Word(c)|, start, depth, None, connector)
  {
    SkipPlain(s, p, Word(c), start, depth, connector);
  }

  lemma {:induction false} SkipPlain(s: string, p: nat, part: string, start: nat, depth: nat, connector: Option<Connector>)
    requires WrittenAt(s, p, part) && start <= p && depth > 0
    requires forall k | 0 <= k < |part| :: !IsQuote(part[k]) && part[k] != '(' && part[k] != ')'
    ensures SplitFrom(s, p, start, depth, None, connector) == SplitFrom(s, p + |part|, start, depth, None, connector)
    decreases |part|
  {
    if part != [] {
      WrittenChar(s, p, part, 0);
      assert part == [part[0]] + part[1..];
      WrittenParts(s, p, [part[0]], part[1..]);
      SkipPlain(s, p + 1, part[1..], start, depth, connector);
    }
  }

  /** An item is passed over at any depth; at depth zero it must end the text or be
      followed by white space. */
  lemma {:induction false} SkipItem(i: Item, s: string, p: nat, start: nat, depth: nat, connector: Option<Connector>)
    requires ItemOk(i) && WrittenAt(s, p, PrintItem(i)) && start <= p
    requires depth > 0 || p + |PrintItem(i)| == |s| || IsSpace(s[p + |PrintItem(i)|])
    ensures SplitFrom(s, p, start, depth, None, connector) == SplitFrom(s, p + |PrintItem(i)|, start, depth, None, connector)
    decreases i
  {
    match i
    case Atom(text) =>
      SkipAtom(text, 0, None, s, p, start, depth, connector);
    case Group(e) =>
      GroupWritten(e, s, p);
      hide Print, PrintItem, WrittenAt;
      SkipInside(e, s, p + 1, start, depth + 1, connector);
      OverBrackets(s, p, p + 1 + |Print(e)|, start, depth, connector);
  }

  lemma OverBrackets(s: string, p: nat, q: nat, start: nat, depth: nat, connector: Option<Connector>)
    requires start <= p < q < |s| && s[p] == '(' && s[q] == ')'
    requires SplitFrom(s, p + 1, start, depth + 1, None, connector) == SplitFrom(s, q, start, depth + 1, None, connector)
    ensures SplitFrom(s, p, start, depth, None, connector) == SplitFrom(s, q + 1, start, depth, None, connector)
  {}

  /** From character `k` of an atom on. */
  lemma {:induction false} SkipAtom(text: string, k: nat, quote: Option<char>, s: string, p: nat, start: nat, depth: nat,
                                    connector: Option<Connector>)
    requires k <= |text| && ReadsAsOne(text, k, quote) && WrittenAt(s, p, text) && start <= p
    requires text != [] && !IsSpace(text[|text| - 1])
    requires depth > 0 || p + |text| == |s| || IsSpace(s[p + |text|])
    ensures SplitFrom(s, p + k, start, depth, quote, connector) == SplitFrom(s, p + |text|, start, depth, None, connector)
    decreases |text| - k
  {
    if k < |text| {
      WrittenChar(s, p, text, k);
      var c := text[k];
      if quote.Some? {
        SkipAtom(text, k + 1, if c == quote.value then None else quote, s, p, start, depth, connector);
      } else if IsQuote(c) {
        SkipAtom(text, k + 1, Some(c), s, p, start, depth, connector);
      } else {
        if depth == 0 { ConnectorInAtom(text, k, s, p); }
        SkipAtom(text, k + 1, None, s, p, start, depth, connector);
      }
    }
  }

  /** A connector matched inside an atom stands as a word in it. */
  lemma ConnectorInAtom(text: string, k: nat, s: string, p: nat)
    requires k < |text| && WrittenAt(s, p, text) && !IsSpace(text[|text| - 1])
    requires p + |text| == |s| || IsSpace(s[p + |text|])
    ensures ConnectorAt(s, p + k).Some? ==> StandsAsWord(text, k)
  {
    SpacesAgree(text, k, s, p);
    WordAgrees(text, SkipSpaces(text, k), s, p);
  }

  lemma WordAgrees(text: string, j: nat, s: string, p: nat)
    requires j < |text| && WrittenAt(s, p, text)
    requires p + |text| == |s| || IsSpace(s[p + |text|])
    ensures WordAt(s, p + j).Some? ==>
      var n := WordLength(WordAt(s, p + j).value);
      WordAt(text, j) == WordAt(s, p + j) && j + n <= |text| && (j + n < |text| ==> s[p + j + n] == text[j + n])
  {
    WrittenChars(s, p, text);
  }

  lemma WrittenChars(s: string, p: nat, text: string)
    requires WrittenAt(s, p, text)
    ensures forall k | 0 <= k < |text| :: s[p + k] == text[k]
  {
    forall k | 0 <= k < |text| ensures s[p + k] == text[k] { WrittenChar(s, p, text, k); }
  }

  lemma {:induction false} SpacesAgree(text: string, k: nat, s: string, p: nat)
    requires k < |text| && WrittenAt(s, p, text) && !IsSpace(text[|text| - 1])
    ensures SkipSpaces(s, p + k) == p + SkipSpaces(text, k) && SkipSpaces(text, k) < |text|
    decreases |text| - k
  {
    WrittenChar(s, p, text, k);
    if IsSpace(text[k]) {
      assert k != |text| - 1;
      SpacesAgree(text, k + 1, s, p);
    }
  }

  // ------------------------------------------------------------ splitting the print

  /** One piece per item, each behind its connector. */
  function Pieces(e: Expr, connector: Option<Connector>): seq<Clause> {
    match e
    case Last(i) => [(connector, PrintItem(i))]
    case More(i, c, t) => [(connector, PrintItem(i))] + Pieces(t, Some(c))
  }

  lemma {:induction false} SplitPrinted(e: Expr, s: string, p: nat, connector: Option<Connector>)
    requires ExprOk(e) && p <= |s| && s[p..] == Print(e)
    ensures SplitFrom(s, p, p, 0, None, connector) == Pieces(e, connector)
    decreases e
  {
    match e
    case Last(i) =>
      assert WrittenAt(s, p, PrintItem(i));
      SkipItem(i, s, p, p, 0, connector);
    case More(i, c, t) =>
      var k := p + |PrintItem(i)| + |Word(c)|;
      SplitMore(i, c, t, s, p, connector);
      hide SplitFrom, Print, PrintItem, Word;
      SplitPrinted(t, s, k, Some(c));
  }

  lemma SplitMore(i: Item, c: Connector, t: Expr, s: string, p: nat, connector: Option<Connector>)
    requires ItemOk(i) && ExprOk(t) && p <= |s| && s[p..] == Print(More(i, c, t))
    ensures var k := p + |PrintItem(i)| + |Word(c)|;
      && k <= |s| && s[k..] == Print(t)
      && SplitFrom(s, p, p, 0, None, connector) == [(connector, PrintItem(i))] + SplitFrom(s, k, k, 0, None, Some(c))
  {
    hide *;
    TailFollows(i, c, t, s, p);
    WordMatches(s, p + |PrintItem(i)|, c, Print(t));
    SplitStep(i, c, t, s, p, connector);
  }

  lemma TailFollows(i: Item, c: Connector, t: Expr, s: string, p: nat)
    requires ExprOk(t) && p <= |s| && s[p..] == Print(More(i, c, t))
    ensures var k := p + |PrintItem(i)| + |Word(c)|;
      && WrittenAt(s, p, PrintItem(i)) && WrittenAt(s, p + |PrintItem(i)|, Word(c)) && WrittenAt(s, k, Print(t))
      && k <= |s| && s[k..] == Print(t) && Print(t) != [] && !IsSpace(Print(t)[0])
  {
    assert WrittenAt(s, p, Print(More(i, c, t)));
    MoreWritten(i, c, t, s, p);
    PrintedEnds(t);
    hide Print, PrintItem, Word;
    assert s[p + |PrintItem(i)| + |Word(c)|..] == Print(t);
  }

  lemma SplitStep(i: Item, c: Connector, t: Expr, s: string, p: nat, connector: Option<Connector>)
    requires ItemOk(i) && WrittenAt(s, p, PrintItem(i)) && WrittenAt(s, p + |PrintItem(i)|, Word(c))
    requires ConnectorAt(s, p + |PrintItem(i)|) == Some((c, p + |PrintItem(i)| + |Word(c)|))
    ensures var k := p + |PrintItem(i)| + |Word(c)|;
      SplitFrom(s, p, p, 0, None, connector) == [(connector, PrintItem(i))] + SplitFrom(s, k, k, 0, None, Some(c))
  {
    var q := p + |PrintItem(i)|;
    WrittenChar(s, q, Word(c), 0);
    assert s[q] == ' ' && IsSpace(s[q]) && s[p..q] == PrintItem(i);
    hide *;
    SkipItem(i, s, p, p, 0, connector);
    SplitAtConnector(s, q, p, c, q + |Word(c)|, connector);
  }

  lemma SplitAtConnector(s: string, q: nat, start: nat, c: Connector, end: nat, connector: Option<Connector>)
    requires start <= q < end <= |s| && s[q] == ' ' && ConnectorAt(s, q) == Some((c, end))
    ensures SplitFrom(s, q, start, 0, None, connector)
         == [(connector, s[start..q])] + SplitFrom(s, end, end, 0, None, Some(c))
  {}

  lemma WordMatches(s: string, q: nat, c: Connector, tail: string)
    requires WrittenAt(s, q, Word(c)) && WrittenAt(s, q + |Word(c)|, tail) && tail != [] && !IsSpace(tail[0])
    ensures ConnectorAt(s, q) == Some((c, q + |Word(c)|))
  {
    var k := q + |Word(c)| - 1;
    WrittenChar(s, q, Word(c), 0);
    WrittenChar(s, q, Word(c), 1);
    WrittenChar(s, q, Word(c), 2);
    WrittenChar(s, q, Word(c), 3);
    WrittenChar(s, q, Word(c), |Word(c)| - 1);
    WrittenChar(s, q + |Word(c)|, tail, 0);
    hide WrittenAt;
    assert WordAt(s, q + 1) == Some(c);
    OneSpace(s, q);
    OneSpace(s, k);
  }

  lemma OneSpace(s: string, q: nat)
    requires q + 1 < |s| && s[q] == ' ' && !IsSpace(s[q + 1])
    ensures SkipSpaces(s, q) == q + 1
  {
    assert SkipSpaces(s, q + 1) == q + 1;
  }

  // ---------------------------------------------------------- unwrapping the print

  /** The bracket depth after a part, quoted brackets included. */
  function DepthAfter(part: string, k: nat, depth: nat): nat
    requires k <= |part| && NeverBelow(part, k, depth)
    decreases |part| - k
  {
    if k == |part| then depth
    else if part[k] == '(' then DepthAfter(part, k + 1, depth + 1)
    else if part[k] == ')' then DepthAfter(part, k + 1, depth - 1)
    else DepthAfter(part, k + 1, depth)
  }

  /** Scanning over a part inside brackets, before the end of the text. */
  lemma {:induction false} DepthAlong(part: string, k: nat, depth: nat, s: string, p: nat)
    requires k <= |part| && WrittenAt(s, p, part) && p + |part| < |s|
    ensures if NeverBelow(part, k, depth)
            then EnclosedFrom(s, p + k, depth + 1) == EnclosedFrom(s, p + |part|, DepthAfter(part, k, depth) + 1)
            else !EnclosedFrom(s, p + k, depth + 1)
    decreases |part| - k
  {
    if k < |part| {
      WrittenChar(s, p, part, k);
      if part[k] == '(' {
        DepthAlong(part, k + 1, depth + 1, s, p);
      } else if part[k] == ')' {
        if depth > 0 { DepthAlong(part, k + 1, depth - 1, s, p); }
      } else {
        DepthAlong(part, k + 1, depth, s, p);
      }
    }
  }

  /** The brackets of a group are seen to enclose it exactly when nothing inside closes
      more than it opened. */
  lemma GroupBracketedIff(e: Expr)
    ensures Bracketed(PrintItem(Group(e))) <==> NeverBelow(Print(e), 0, 0)
    ensures PrintItem(Group(e))[1..|PrintItem(Group(e))| - 1] == Print(e)
  {
    var s, inner := PrintItem(Group(e)), Print(e);
    assert WrittenAt(s, 0, s);
    GroupWritten(e, s, 0);
    assert s[1..|s| - 1] == inner by { assert s == "(" + (inner + ")"); }
    hide Print; hide PrintItem; hide WrittenAt;
    DepthAlong(inner, 0, 0, s, 1);
    assert EnclosedFrom(s, 0, 0) == EnclosedFrom(s, 1, 1);
    hide EnclosedFrom; hide NeverBelow; hide DepthAfter;
    if NeverBelow(inner, 0, 0) { LastCloses(s, DepthAfter(inner, 0, 0) + 1); }
  }

  lemma LastCloses(s: string, depth: int)
    requires s != [] && s[|s| - 1] == ')'
    ensures EnclosedFrom(s, |s| - 1, depth)
  {
    assert EnclosedFrom(s, |s|, depth - 1);
  }

  lemma AtomNotBracketed(text: string)
    requires AtomOk(text)
    ensures !Bracketed(text) && text[0] != '('
  {}

  /** What is left of an item without its outer brackets. */
  function Core(i: Item): Expr {
    match i
    case Atom(_) => Last(i)
    case Group(Last(j)) => Core(j)
    case Group(e) => e
  }

  lemma {:induction false} StripOuterItem(i: Item)
    requires ItemOk(i)
    ensures StripOuter(PrintItem(i)) == Print(Core(i)) && ExprOk(Core(i))
    ensures Core(i).Last? ==> Core(i).item.Atom?
    decreases i
  {
    ItemEnds(i);
    StripPrinted(PrintItem(i));
    match i
    case Atom(text) =>
      AtomNotBracketed(text);
    case Group(e) =>
      GroupBracketedIff(e);
      PrintedEnds(e);
      StripPrinted(Print(e));
      match e
      case Last(j) =>
        ItemEnds(j);
        StripPrinted(PrintItem(j));
        StripOuterItem(j);
      case More(j, c, t) =>
        assert Unwrap(Print(e)) == Print(e);
  }

  // ---------------------------------------------------------------- the round trip

  function Size(e: Expr): nat {
    match e case Last(i) => ItemSize(i) case More(i, _, t) => ItemSize(i) + Size(t)
  }

  function ItemSize(i: Item): nat {
    match i case Atom(_) => 1 case Group(e) => 1 + Size(e)
  }

  lemma {:induction false} CoreSmaller(i: Item)
    ensures Size(Core(i)) <= ItemSize(i) && (Core(i).More? ==> Size(Core(i)) < ItemSize(i))
    ensures forall connector :: Infix(Core(i), connector) == InfixItem(i, connector)
    decreases i
  {
    match i
    case Atom(_) =>
    case Group(Last(j)) => CoreSmaller(j);
    case Group(More(_, _, _)) =>
  }

  lemma {:induction false} RelabelInfix(e: Expr, connector: Option<Connector>)
    ensures Relabel(Infix(e, None), connector) == Infix(e, connector)
    decreases e
  {
    match e
    case Last(i) => RelabelItem(i, connector);
    case More(i, c, t) =>
      RelabelItem(i, connector);
      assert Relabel(InfixItem(i, None) + Infix(t, Some(c)), connector)
          == Relabel(InfixItem(i, None), connector) + Infix(t, Some(c));
  }

  lemma {:induction false} RelabelItem(i: Item, connector: Option<Connector>)
    ensures Relabel(InfixItem(i, None), connector) == InfixItem(i, connector)
    decreases i
  {
    if i.Group? { RelabelInfix(i.inner, connector); }
  }

  /** Flattening the printed form of any expression gives its leaves in order, each
      behind the connector written in front of it. */
  lemma {:induction false} FlattenPrinted(e: Expr)
    requires ExprOk(e)
    ensures Flatten(Print(e)) == Infix(e, None)
    decreases Size(e), 2, e
  {
    SplitWhole(e);
    SplitShrinks(Print(e));
    FlattenPieces(e, None, |Print(e)|);
  }

  lemma SplitWhole(e: Expr)
    requires ExprOk(e)
    ensures Split(Print(e)) == Pieces(e, None)
  {
    assert Print(e)[0..] == Print(e);
    SplitPrinted(e, Print(e), 0, None);
  }

  lemma {:induction false} FlattenPieces(e: Expr, connector: Option<Connector>, limit: nat)
    requires ExprOk(e) && Shrinks(Pieces(e, connector), limit)
    ensures FlattenParts(Pieces(e, connector), limit) == Infix(e, connector)
    decreases Size(e), 1, e
  {
    var parts := Pieces(e, connector);
    assert parts[0] == (connector, PrintItem(e.item));
    assert Shrinks([parts[0]], limit) by { assert [parts[0]][0] == parts[0]; }
    FlattenPiece(e.item, connector, limit);
    match e
    case Last(i) =>
      assert parts[1..] == [];
    case More(i, c, t) =>
      assert parts[1..] == Pieces(t, Some(c));
      ItemSizePositive(i);
      FlattenPieces(t, Some(c), limit);
  }

  lemma ItemSizePositive(i: Item)
    ensures ItemSize(i) > 0
  {}

  lemma {:induction false} FlattenPiece(i: Item, connector: Option<Connector>, limit: nat)
    requires ItemOk(i) && Shrinks([(connector, PrintItem(i))], limit)
    ensures FlattenOne((connector, PrintItem(i)), limit) == InfixItem(i, connector)
    decreases ItemSize(i), 0
  {
    StripOuterItem(i);
    CoreSmaller(i);
    PrintedEnds(Core(i));
    SplitWhole(Core(i));
    var clause := Print(Core(i));
    assert Infix(Core(i), connector) == InfixItem(i, connector);
    assert [(connector, PrintItem(i))][0] == (connector, PrintItem(i));
    assert FlattenOne((connector, PrintItem(i)), limit)
        == if |Split(clause)| > 1 then Relabel(Flatten(clause), connector) else [(connector, clause)];
    match Core(i)
    case Last(a) =>
      assert clause == a.text;
      assert |Split(clause)| == |Pieces(Last(a), None)| == 1;
      assert Infix(Last(a), connector) == InfixItem(a, connector) == [(connector, a.text)];
    case More(j, c, t) =>
      assert |Pieces(Core(i), None)| > 1;
      FlattenPrinted(Core(i));
      RelabelInfix(Core(i), connector);
  }

  // ------------------------------------------------------------------ quoted brackets

  /** The quoted brackets of an atom pair up. */
  predicate AtomBalanced(text: string) {
    AtomOk(text) && NeverBelow(text, 0, 0) && DepthAfter(text, 0, 0) == 0
  }

  predicate Balanced(e: Expr) {
    match e case Last(i) => BalancedItem(i) case More(i, _, t) => BalancedItem(i) && Balanced(t)
  }

  predicate BalancedItem(i: Item) {
    match i case Atom(text) => AtomBalanced(text) case Group(e) => Balanced(e)
  }

  /** Scanning two parts one after the other. */
  lemma {:induction false} DepthJoins(a: string, b: string, k: nat, depth: nat)
    requires k <= |a| && NeverBelow(a, k, depth) && NeverBelow(b, 0, DepthAfter(a, k, depth))
    ensures NeverBelow(a + b, k, depth) && DepthAfter(a + b, k, depth) == DepthAfter(b, 0, DepthAfter(a, k, depth))
    decreases |a| - k
  {
    if k < |a| {
      assert (a + b)[k] == a[k];
      if a[k] == '(' { DepthJoins(a, b, k + 1, depth + 1); }
      else if a[k] == ')' { DepthJoins(a, b, k + 1, depth - 1); }
      else { DepthJoins(a, b, k + 1, depth); }
    } else {
      DepthOfTail(a, b, 0, depth);
    }
  }

  lemma {:induction false} DepthOfTail(a: string, b: string, k: nat, depth: nat)
    requires k <= |b| && NeverBelow(b, k, depth)
    ensures NeverBelow(a + b, |a| + k, depth) && DepthAfter(a + b, |a| + k, depth) == DepthAfter(b, k, depth)
    decreases |b| - k
  {
    if k < |b| {
      assert (a + b)[|a| + k] == b[k];
      if b[k] == '(' { DepthOfTail(a, b, k + 1, depth + 1); }
      else if b[k] == ')' { DepthOfTail(a, b, k + 1, depth - 1); }
      else { DepthOfTail(a, b, k + 1, depth); }
    }
  }

  lemma {:induction false} DepthRaised(a: string, k: nat, depth: nat, base: nat)
    requires k <= |a| && NeverBelow(a, k, depth)
    ensures NeverBelow(a, k, base + depth) && DepthAfter(a, k, base + depth) == base + DepthAfter(a, k, depth)
    decreases |a| - k
  {
    if k < |a| {
      if a[k] == '(' { DepthRaised(a, k + 1, depth + 1, base); }
      else if a[k] == ')' { DepthRaised(a, k + 1, depth - 1, base); }
      else { DepthRaised(a, k + 1, depth, base); }
    }
  }

  /** Brackets pair up, quoted ones included. */
  predicate Even(s: string) { NeverBelow(s, 0, 0) && DepthAfter(s, 0, 0) == 0 }

  lemma EvenBrackets(a: string)
    requires Even(a)
    ensures Even("(" + a + ")")
  {
    DepthRaised(a, 0, 0, 1);
    assert NeverBelow(")", 0, 1) && DepthAfter(")", 0, 1) == 0 by { assert NeverBelow(")", 1, 0); }
    DepthJoins(a, ")", 0, 1);
    assert NeverBelow("(", 0, 0) && DepthAfter("(", 0, 0) == 1 by { assert NeverBelow("(", 1, 1); }
    DepthJoins("(", a + ")", 0, 0);
    assert "(" + a + ")" == "(" + (a + ")");
  }

  /** With quoted brackets that pair up in every atom the print pairs up, and every such
      expression flattens right. */
  lemma {:induction false} BalancedIsOk(e: Expr)
    requires Balanced(e)
    ensures ExprOk(e) && Even(Print(e))
    decreases e
  {
    hide Even;
    match e
    case Last(i) => BalancedItemIsOk(i);
    case More(i, c, t) =>
      BalancedItemIsOk(i);
      BalancedIsOk(t);
      WordEven(c);
      EvenJoins(PrintItem(i), Word(c));
      EvenJoins(PrintItem(i) + Word(c), Print(t));
  }

  lemma EvenJoins(a: string, b: string)
    requires Even(a) && Even(b)
    ensures Even(a + b)
  {
    DepthJoins(a, b, 0, 0);
  }

  lemma {:induction false} PlainEven(s: string, k: nat, depth: nat)
    requires k <= |s| && forall j | k <= j < |s| :: !IsBracket(s[j])
    ensures NeverBelow(s, k, depth) && DepthAfter(s, k, depth) == depth
    decreases |s| - k
  {
    if k < |s| { PlainEven(s, k + 1, depth); }
  }

  lemma WordEven(c: Connector)
    ensures Even(Word(c))
  {
    PlainEven(Word(c), 0, 0);
  }

  lemma {:induction false} BalancedItemIsOk(i: Item)
    requires BalancedItem(i)
    ensures ItemOk(i) && Even(PrintItem(i))
    decreases i
  {
    match i
    case Atom(text) =>
    case Group(e) =>
      BalancedIsOk(e);
      EvenBrackets(Print(e));
      if e.More? {
        if e.item.Group? { BalancedIsOk(e.item.inner); }
        SeveralNotBracketed(e.item, e.connector, e.tail);
      }
  }

  /** Several balanced items are not enclosed, even when the first and the last are. */
  lemma SeveralNotBracketed(i: Item, c: Connector, t: Expr)
    requires BalancedItem(i) && ItemOk(i)
    requires i.Group? ==> Even(Print(i.inner))
    ensures !Bracketed(Print(More(i, c, t)))
  {
    var s := Print(More(i, c, t));
    assert WrittenAt(s, 0, s);
    MoreWritten(i, c, t, s, 0);
    if i.Atom? {
      AtomNotBracketed(i.text);
      WrittenChar(s, 0, i.text, 0);
    } else {
      GroupWritten(i.inner, s, 0);
      DepthAlong(Print(i.inner), 0, 0, s, 1);
      hide Print; hide PrintItem;
      assert !EnclosedFrom(s, 1 + |Print(i.inner)|, 1);
    }
  }

  /** Brackets put around an expression come off again exactly when nothing inside
      closes more than it opened, quoted brackets counted like any other. */
  lemma BracketsComeOffIff(e: Expr)
    requires ExprOk(e) && (e.More? ==> !Bracketed(Print(e)))
    ensures Flatten(PrintItem(Group(e))) == Infix(e, None) <==> NeverBelow(Print(e), 0, 0)
  {
    if NeverBelow(Print(e), 0, 0) {
      assert Print(Last(Group(e))) == PrintItem(Group(e)) && Infix(Last(Group(e)), None) == Infix(e, None);
      FlattenPrinted(Last(Group(e)));
    } else {
      BracketsStay(e);
      FirstIsAtom(e, None);
    }
  }

  lemma BracketsStay(e: Expr)
    requires ExprOk(e) && !NeverBelow(Print(e), 0, 0)
    ensures Flatten(PrintItem(Group(e))) == [(None, PrintItem(Group(e)))]
    ensures PrintItem(Group(e))[0] == '('
  {
    var s := PrintItem(Group(e));
    assert WrittenAt(s, 0, s);
    GroupWritten(e, s, 0);
    GroupBracketedIff(e);
    SkipInside(e, s, 1, 0, 1, None);
    hide Print; hide PrintItem; hide WrittenAt;
    OverBrackets(s, 0, |s| - 1, 0, 0, None);
    assert Split(s) == [(None, s)] by { assert s[0..] == s; }
    StripPrinted(s);
    OnePiece(s);
  }

  lemma OnePiece(s: string)
    requires s != [] && Split(s) == [(None, s)] && StripOuter(s) == s
    ensures Flatten(s) == [(None, s)]
  {
    SplitShrinks(s);
    var parts := Split(s);
    assert parts[1..] == [];
    assert Shrinks([parts[0]], |s|) by { assert [parts[0]][0] == parts[0]; }
    assert FlattenOne(parts[0], |s|) == [(None, s)];
    assert FlattenParts(parts[1..], |s|) == [];
  }

  lemma {:induction false} FirstIsAtom(e: Expr, connector: Option<Connector>)
    requires ExprOk(e)
    ensures Infix(e, connector)[0].1 != [] && Infix(e, connector)[0].1[0] != '('
    decreases e
  {
    match e.item
    case Atom(text) => AtomNotBracketed(text);
    case Group(inner) => FirstIsAtom(inner, connector);
  }
}
