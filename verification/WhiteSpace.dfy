/** White space as `str.strip` counts it. */
module WhiteSpace {

  predicate IsSpace(c: char) {
    '\t' <= c <= '\r' || '\U{001C}' <= c <= ' ' || c == '\U{0085}' || c == '\U{00A0}' || c == '\U{1680}'
    || '\U{2000}' <= c <= '\U{200A}' || c == '\U{2028}' || c == '\U{2029}' || c == '\U{202F}' || c == '\U{205F}' || c == '\U{3000}'
  }

  function StripLeft(s: string): (r: string)
    ensures |r| <= |s| && (r != [] ==> !IsSpace(r[0]))
    ensures r == s || |r| < |s|
  {
    if s != [] && IsSpace(s[0]) then StripLeft(s[1..]) else s
  }

  function StripRight(s: string): (r: string)
    ensures |r| <= |s| && (r != [] ==> !IsSpace(r[|r| - 1])) && r <= s
  {
    if s != [] && IsSpace(s[|s| - 1]) then StripRight(s[..|s| - 1]) else s
  }

  function Strip(s: string): (r: string)
    ensures |r| <= |s| && (|r| == |s| ==> r == s)
  {
    StripRight(StripLeft(s))
  }

  /** `r` is `s` without the white space around it: everything left out on either side is
      white space, and `r` neither starts nor ends with any. */
  ghost predicate Stripped(s: string, r: string) {
    && (r != [] ==> !IsSpace(r[0]) && !IsSpace(r[|r| - 1]))
    && exists left, right :: s == left + r + right && AllSpace(left) && AllSpace(right)
  }

  predicate AllSpace(s: string) {
    forall c | c in s :: IsSpace(c)
  }

  lemma StripMeans(s: string)
    ensures Stripped(s, Strip(s))
  {
    var middle := StripLeft(s);
    var left := LeftSpace(s);
    var right := RightSpace(middle);
    assert s == left + Strip(s) + right;
    if Strip(s) != [] { assert Strip(s)[0] == middle[0]; }
  }

  lemma {:induction false} LeftSpace(s: string) returns (left: string)
    ensures s == left + StripLeft(s) && AllSpace(left)
  {
    left := [];
    if s != [] && IsSpace(s[0]) {
      var rest := LeftSpace(s[1..]);
      left := [s[0]] + rest;
    }
  }

  lemma {:induction false} RightSpace(s: string) returns (right: string)
    ensures s == StripRight(s) + right && AllSpace(right)
  {
    right := [];
    if s != [] && IsSpace(s[|s| - 1]) {
      var rest := RightSpace(s[..|s| - 1]);
      right := rest + [s[|s| - 1]];
    }
  }
}
