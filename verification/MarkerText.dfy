/** Splitting, unwrapping and flattening an environment marker (PEP 508, section
    "Environment Markers"). */
module MarkerText {
  import opened Wrappers
  import opened WhiteSpace

  datatype Connector = And | Or

  /** A clause and the connector in front of it, if any. */
  type Clause = (Option<Connector>, string)

  // ------------------------------------------------------------------- white space

  /** Where the run of white space starting at `i` ends. */
  function SkipSpaces(s: string, i: nat): (j: nat)
    requires i <= |s|
    ensures i <= j <= |s| && (j < |s| ==> !IsSpace(s[j]))
    decreases |s| - i
  {
    if i < |s| && IsSpace(s[i]) then SkipSpaces(s, i + 1) else i
  }

  predicate LetterAt(s: string, i: nat, lower: char, upper: char) {
    i < |s| && (s[i] == lower || s[i] == upper)
  }

  /** `and` or `or`, in any case, at `i`. */
  function WordAt(s: string, i: nat): Option<Connector> {
    if LetterAt(s, i, 'a', 'A') && LetterAt(s, i + 1, 'n', 'N') && LetterAt(s, i + 2, 'd', 'D') then Some(And)
    else if LetterAt(s, i, 'o', 'O') && LetterAt(s, i + 1, 'r', 'R') then Some(Or)
    else None
  }

  function WordLength(c: Connector): nat { if c.And? then 3 else 2 }

  /** The pattern `\s+(and|or)\s+` at `i`: the connector and where the match ends. */
  function ConnectorAt(s: string, i: nat): (m: Option<(Connector, nat)>)
    requires i <= |s|
    ensures m.Some? ==> i < m.value.1 <= |s|
  {
    var j := SkipSpaces(s, i);
    var word := WordAt(s, j);
    if j == i || word.None? then None
    else
      var k := j + WordLength(word.value);
      var end := SkipSpaces(s, k);
      if end == k then None else Some((word.value, end))
  }

  // --------------------------------------------------------------- top-level splitting

  predicate IsQuote(c: char) { c == '"' || c == '\'' }

  /** The rest of the scan from `i`, in the state the loop is in there. */
  function SplitFrom(s: string, i: nat, start: nat, depth: nat, quote: Option<char>, connector: Option<Connector>)
    : (parts: seq<Clause>)
    requires start <= i <= |s|
    ensures parts != []
    decreases |s| - i
  {
    if i == |s| then [(connector, s[start..])]
    else
      var c := s[i];
      if quote.Some? then SplitFrom(s, i + 1, start, depth, if c == quote.value then None else quote, connector)
      else if IsQuote(c) then SplitFrom(s, i + 1, start, depth, Some(c), connector)
      else if c == '(' then SplitFrom(s, i + 1, start, depth + 1, None, connector)
      else if c == ')' then SplitFrom(s, i + 1, start, if depth > 0 then depth - 1 else 0, None, connector)
      else if depth == 0 && ConnectorAt(s, i).Some? then
        var (found, end) := ConnectorAt(s, i).value;
        [(connector, s[start..i])] + SplitFrom(s, end, end, 0, None, Some(found))
      else SplitFrom(s, i + 1, start, depth, None, connector)
  }

  function Split(s: string): seq<Clause> {
    SplitFrom(s, 0, 0, 0, None, None)
  }

  method SplitTopLevel(value: string) returns (parts: seq<Clause>)
    ensures parts == Split(value)
  {
    parts := [];
    var depth: nat, quote: Option<char>, connector: Option<Connector> := 0, None, None;
    var start: nat, index: nat := 0, 0;
    while index < |value|
      invariant start <= index <= |value|
      invariant parts + SplitFrom(value, index, start, depth, quote, connector) == Split(value)
      decreases |value| - index
    {
      var c := value[index];
      if quote.Some? {
        if c == quote.value { quote := None; }
        index := index + 1;
        continue;
      }
      if IsQuote(c) {
        quote := Some(c);
        index := index + 1;
        continue;
      }
      if c == '(' {
        depth := depth + 1;
      } else if c == ')' {
        depth := if depth > 0 then depth - 1 else 0;
      } else if depth == 0 {
        var found := ConnectorAt(value, index);
        if found.Some? {
          parts := parts + [(connector, value[start..index])];
          connector := Some(found.value.0);
          index := found.value.1;
          start := index;
          continue;
        }
      }
      index := index + 1;
    }
    parts := parts + [(connector, value[start..])];
  }

  ghost predicate Shorter(parts: seq<Clause>, length: nat) {
    forall k | 0 <= k < |parts| :: |parts[k].1| <= length && (|parts| > 1 ==> |parts[k].1| < length)
  }

  /** When a scan finds a connector, every piece is shorter than what was scanned. */
  lemma {:induction false} PiecesShorter(s: string, i: nat, start: nat, depth: nat, quote: Option<char>, connector: Option<Connector>)
    requires start <= i <= |s|
    ensures Shorter(SplitFrom(s, i, start, depth, quote, connector), |s| - start)
    decreases |s| - i
  {
    if i < |s| {
      var c := s[i];
      if quote.Some? {
        PiecesShorter(s, i + 1, start, depth, if c == quote.value then None else quote, connector);
      } else if IsQuote(c) {
        PiecesShorter(s, i + 1, start, depth, Some(c), connector);
      } else if c == '(' {
        PiecesShorter(s, i + 1, start, depth + 1, None, connector);
      } else if c == ')' {
        PiecesShorter(s, i + 1, start, if depth > 0 then depth - 1 else 0, None, connector);
      } else if depth == 0 && ConnectorAt(s, i).Some? {
        var (found, end) := ConnectorAt(s, i).value;
        PiecesShorter(s, end, end, 0, None, Some(found));
        var rest := SplitFrom(s, end, end, 0, None, Some(found));
        assert SplitFrom(s, i, start, depth, quote, connector) == [(connector, s[start..i])] + rest;
      } else {
        PiecesShorter(s, i + 1, start, depth, None, connector);
      }
    }
  }

  // ------------------------------------------------------------------ outer brackets

  /** No `)` before the last character brings the depth back to zero.  Quotes are not
      looked at. */
  predicate EnclosedFrom(s: string, i: nat, depth: int)
    requires i <= |s|
    decreases |s| - i
  {
    if i == |s| then true
    else if s[i] == '(' then EnclosedFrom(s, i + 1, depth + 1)
    else if s[i] == ')' then !(depth - 1 == 0 && i != |s| - 1) && EnclosedFrom(s, i + 1, depth - 1)
    else EnclosedFrom(s, i + 1, depth)
  }

  predicate Bracketed(s: string) {
    |s| >= 2 && s[0] == '(' && s[|s| - 1] == ')' && EnclosedFrom(s, 0, 0)
  }

  function Unwrap(s: string): (r: string)
    ensures |r| <= |s| && (|r| == |s| ==> r == s)
    decreases |s|
  {
    if Bracketed(s) then Unwrap(Strip(s[1..|s| - 1])) else s
  }

  function StripOuter(s: string): (r: string)
    ensures |r| <= |s| && (|r| == |s| ==> r == s)
  {
    Unwrap(Strip(s))
  }

  method StripOuterParens(value: string) returns (text: string)
    ensures text == StripOuter(value)
  {
    text := Strip(value);
    while |text| >= 2 && text[0] == '(' && text[|text| - 1] == ')'
      invariant Unwrap(text) == StripOuter(value)
      decreases |text|
    {
      var depth := 0;
      var enclosed := true;
      for index := 0 to |text|
        invariant enclosed
        invariant EnclosedFrom(text, 0, 0) == EnclosedFrom(text, index, depth)
      {
        if text[index] == '(' {
          depth := depth + 1;
        } else if text[index] == ')' {
          depth := depth - 1;
          if depth == 0 && index != |text| - 1 {
            enclosed := false;
            break;
          }
        }
      }
      if !enclosed { break; }
      text := Strip(text[1..|text| - 1]);
    }
  }

  // ---------------------------------------------------------------------- flattening

  /** What flattening may be asked to recurse on. */
  ghost predicate Shrinks(parts: seq<Clause>, limit: nat) {
    forall k | 0 <= k < |parts| ::
      var clause := StripOuter(parts[k].1); |Split(clause)| > 1 ==> |clause| < limit
  }

  lemma SplitShrinks(value: string)
    ensures Shrinks(Split(value), |value|)
  {
    PiecesShorter(value, 0, 0, 0, None, None);
    var parts := Split(value);
    forall k | 0 <= k < |parts| ensures |Split(StripOuter(parts[k].1))| > 1 ==> |StripOuter(parts[k].1)| < |value| {
      if |parts| == 1 && |StripOuter(parts[0].1)| == |value| {
        OnePieceIsAll(value, 0, 0, 0, None, None);
      }
    }
  }

  lemma {:induction false} OnePieceIsAll(s: string, i: nat, start: nat, depth: nat, quote: Option<char>, connector: Option<Connector>)
    requires start <= i <= |s| && |SplitFrom(s, i, start, depth, quote, connector)| == 1
    ensures SplitFrom(s, i, start, depth, quote, connector)[0].1 == s[start..]
    decreases |s| - i
  {
    if i < |s| {
      var c := s[i];
      if quote.Some? {
        OnePieceIsAll(s, i + 1, start, depth, if c == quote.value then None else quote, connector);
      } else if IsQuote(c) {
        OnePieceIsAll(s, i + 1, start, depth, Some(c), connector);
      } else if c == '(' {
        OnePieceIsAll(s, i + 1, start, depth + 1, None, connector);
      } else if c == ')' {
        OnePieceIsAll(s, i + 1, start, if depth > 0 then depth - 1 else 0, None, connector);
      } else if !(depth == 0 && ConnectorAt(s, i).Some?) {
        OnePieceIsAll(s, i + 1, start, depth, None, connector);
      }
    }
  }

  /** The first clause takes over the connector the group stood behind. */
  function Relabel(clauses: seq<Clause>, connector: Option<Connector>): seq<Clause> {
    if clauses == [] then [] else [(connector, clauses[0].1)] + clauses[1..]
  }

  /** Recursion is on a strictly shorter string, so flattening ends on every input. */
  function Flatten(value: string): seq<Clause>
    decreases |value|, 1, 0
  {
    SplitShrinks(value);
    FlattenParts(Split(value), |value|)
  }

  function FlattenParts(parts: seq<Clause>, limit: nat): seq<Clause>
    requires Shrinks(parts, limit)
    decreases limit, 0, |parts|
  {
    if parts == [] then [] else FlattenOne(parts[0], limit) + FlattenParts(parts[1..], limit)
  }

  function FlattenOne(part: Clause, limit: nat): seq<Clause>
    requires Shrinks([part], limit)
    decreases limit, 0, 0
  {
    assert [part][0] == part;
    var clause := StripOuter(part.1);
    if clause == [] then []
    else if |Split(clause)| > 1 then Relabel(Flatten(clause), part.0)
    else [(part.0, clause)]
  }

  method FlattenClauses(value: string) returns (flattened: seq<Clause>)
    ensures flattened == Flatten(value)
    decreases |value|, 1
  {
    flattened := [];
    var parts := SplitTopLevel(value);
    SplitShrinks(value);
    for k := 0 to |parts|
      invariant Shrinks(parts[k..], |value|)
      invariant flattened + FlattenParts(parts[k..], |value|) == Flatten(value)
    {
      assert parts[k..][0] == parts[k] && parts[k..][1..] == parts[k + 1..];
      var added := FlattenChunk(parts[k], |value|);
      flattened := flattened + added;
    }
  }

  /** The body of the loop. */
  method FlattenChunk(part: Clause, limit: nat) returns (added: seq<Clause>)
    requires Shrinks([part], limit)
    ensures added == FlattenOne(part, limit)
    decreases limit, 0
  {
    assert [part][0] == part;
    var clause := StripOuterParens(part.1);
    if clause == [] { return []; }
    var pieces := SplitTopLevel(clause);
    if |pieces| > 1 {
      var inner := FlattenClauses(clause);
      return Relabel(inner, part.0);
    }
    return [(part.0, clause)];
  }
}
