/** The append-only anchor log: one JSON record a line, read back line by line,
    identified by a digest that leaves the time of recording out.  The JSON text, its
    reader and the hash are parameters. */
module AnchorLog {
  import opened Wrappers
  import opened Artifacts
  import opened WhiteSpace

  datatype AnchorRecord = AnchorRecord(
    schemaVersion: string, runId: string, payload: string, package: string, manifest: string,
    artifactIndex: string, attestationPath: string, sourceCommit: string, recordedAt: string, recordSha: string)

  datatype Parsed = NotJson | NotObject | Object(fields: Fields)

  datatype Codec = Codec(text: Fields -> string, parse: string -> Parsed, hash: Fields -> string, show: Json -> string)

  const ANCHOR_SCHEMA := "pe-sim.attestation-anchor.v1"

  function ToFields(r: AnchorRecord): Fields {
    map["schema_version" := Str(r.schemaVersion), "run_id" := Str(r.runId), "payload_sha256" := Str(r.payload),
        "package_sha256" := Str(r.package), "manifest_sha256" := Str(r.manifest),
        "artifact_index_sha256" := Str(r.artifactIndex), "attestation_path" := Str(r.attestationPath),
        "source_commit" := Str(r.sourceCommit), "recorded_at_utc" := Str(r.recordedAt), "record_sha256" := Str(r.recordSha)]
  }

  function AnchorDigest(codec: Codec, fields: Fields): string {
    codec.hash(fields - {"record_sha256"} - {"recorded_at_utc"})
  }

  function Text(codec: Codec, fields: Fields, key: string, default: string): string {
    if key !in fields then default
    else match fields[key] case Str(s) => s case other => codec.show(other)
  }

  function FromFields(codec: Codec, f: Fields): AnchorRecord {
    AnchorRecord(
      Text(codec, f, "schema_version", ANCHOR_SCHEMA), Text(codec, f, "run_id", ""), Text(codec, f, "payload_sha256", ""),
      Text(codec, f, "package_sha256", ""), Text(codec, f, "manifest_sha256", ""),
      Text(codec, f, "artifact_index_sha256", ""), Text(codec, f, "attestation_path", ""),
      Text(codec, f, "source_commit", ""), Text(codec, f, "recorded_at_utc", ""), AnchorDigest(codec, f))
  }

  /** `build_anchor_record` stores the record's own digest in it. */
  function BuildAnchorRecord(codec: Codec, draft: AnchorRecord): (r: AnchorRecord)
    ensures Built(codec, r) && r.(recordSha := draft.recordSha) == draft
  {
    DigestIgnores(codec, draft, draft.recordedAt, AnchorDigest(codec, ToFields(draft)));
    draft.(recordSha := AnchorDigest(codec, ToFields(draft)))
  }

  predicate Built(codec: Codec, r: AnchorRecord) {
    r.recordSha == AnchorDigest(codec, ToFields(r))
  }

  /** A record's identity does not depend on when it was recorded, nor on itself. */
  lemma DigestIgnores(codec: Codec, r: AnchorRecord, time: string, sha: string)
    ensures AnchorDigest(codec, ToFields(r.(recordedAt := time, recordSha := sha))) == AnchorDigest(codec, ToFields(r))
  {
    assert ToFields(r.(recordedAt := time, recordSha := sha)) - {"record_sha256"} - {"recorded_at_utc"}
        == ToFields(r) - {"record_sha256"} - {"recorded_at_utc"};
  }

  // ------------------------------------------------------------------------ the lines

  /** Every character that ends a line for `str.splitlines`. */
  predicate IsBreak(c: char) {
    c in ['\n', '\r', '\U{0B}', '\U{0C}', '\U{1C}', '\U{1D}', '\U{1E}', '\U{85}', '\U{2028}', '\U{2029}']
  }

  function FirstBreak(text: string): (n: nat)
    ensures n <= |text| && (n < |text| ==> IsBreak(text[n])) && forall i | 0 <= i < n :: !IsBreak(text[i])
  {
    if text == [] || IsBreak(text[0]) then 0 else 1 + FirstBreak(text[1..])
  }

  /** A carriage return and the line feed after it are one break. */
  function BreakLength(text: string, n: nat): nat
    requires n < |text|
  {
    if text[n] == '\r' && n + 1 < |text| && text[n + 1] == '\n' then 2 else 1
  }

  function SplitLines(text: string): seq<string>
    decreases |text|
  {
    if text == [] then []
    else
      var n := FirstBreak(text);
      if n == |text| then [text]
      else [text[..n]] + SplitLines(text[n + BreakLength(text, n)..])
  }

  /** What ends a line: one of ten characters, or a carriage return and a line feed. */
  predicate LineEnd(end: string) {
    || (|end| == 1 && end[0] as int in {10, 11, 12, 13, 28, 29, 30, 133, 8232, 8233})
    || (|end| == 2 && end[0] as int == 13 && end[1] as int == 10)
  }

  predicate NoLineEnd(line: string) {
    forall c | c in line :: c as int !in {10, 11, 12, 13, 28, 29, 30, 133, 8232, 8233}
  }

  /** `text` is the lines, each followed by its end; only the last one may lack it, and
      then it is not empty.  A line feed right after a carriage return is part of its end. */
  ghost predicate LinesWithEnds(text: string, lines: seq<string>, ends: seq<string>) {
    if lines == [] || ends == [] then text == [] && lines == [] && ends == []
    else
      && NoLineEnd(lines[0])
      && var rest := lines[0] + ends[0];
        && rest <= text
        && (if ends[0] == [] then text == lines[0] != [] else LineEnd(ends[0]) && EndsThere(ends[0], text[|rest|..]))
        && LinesWithEnds(text[|rest|..], lines[1..], ends[1..])
  }

  predicate EndsThere(end: string, rest: string) {
    end == "\r" && rest != [] ==> rest[0] != '\n'
  }

  ghost predicate LinesOf(text: string, lines: seq<string>) {
    exists ends: seq<string> :: LinesWithEnds(text, lines, ends)
  }

  /** The lines are those of the text, for every text. */
  lemma {:induction false} SplitMeans(text: string) returns (ends: seq<string>)
    ensures LinesWithEnds(text, SplitLines(text), ends)
    decreases |text|
  {
    hide *;
    if text == [] {
      ends := [];
      NoLinesWithEnds();
    } else {
      var n := FirstBreak(text);
      FirstLine(text);
      if n == |text| {
        ends := [[]];
        LastLine(text);
      } else {
        var m := n + BreakLength(text, n);
        BreakInside(text, n);
        var rest := SplitMeans(text[m..]);
        ends := [text[n..m]] + rest;
        assert text[..n] + text[n..m] == text[..m];
        EndMeans(text, n);
        LinesStep(text, text[..n], text[n..m], SplitLines(text[m..]), rest);
      }
    }
  }

  lemma NoLinesWithEnds()
    ensures LinesWithEnds([], SplitLines([]), [])
  {}

  lemma LastLine(text: string)
    requires text != [] && NoLineEnd(text[..|text|])
    ensures LinesWithEnds(text, [text], [[]])
  {
    hide NoLineEnd;
    assert text[..|text|] == text && text + [] == text;
  }

  lemma BreakInside(text: string, n: nat)
    requires n < |text|
    ensures n < n + BreakLength(text, n) <= |text|
  {}

  lemma BreakCodes(c: char)
    ensures IsBreak(c) <==> c as int in {10, 11, 12, 13, 28, 29, 30, 133, 8232, 8233}
  {}

  lemma FirstLine(text: string)
    requires text != []
    ensures var n := FirstBreak(text);
      && NoLineEnd(text[..n])
      && SplitLines(text) == if n == |text| then [text] else [text[..n]] + SplitLines(text[n + BreakLength(text, n)..])
  {
    hide FirstBreak; hide BreakLength; hide IsBreak;
    NoneBreaks(text[..FirstBreak(text)]);
  }

  lemma NoneBreaks(line: string)
    requires forall i | 0 <= i < |line| :: !IsBreak(line[i])
    ensures NoLineEnd(line)
  {
    hide IsBreak;
    forall c | c in line ensures c as int !in {10, 11, 12, 13, 28, 29, 30, 133, 8232, 8233} { BreakCodes(c); }
  }

  lemma EndMeans(text: string, n: nat)
    requires n < |text| && IsBreak(text[n])
    ensures var m := n + BreakLength(text, n); LineEnd(text[n..m]) && EndsThere(text[n..m], text[m..])
  {}

  lemma LinesStep(text: string, line: string, end: string, lines: seq<string>, ends: seq<string>)
    requires NoLineEnd(line) && LineEnd(end) && line + end <= text && EndsThere(end, text[|line + end|..])
    requires LinesWithEnds(text[|line + end|..], lines, ends)
    ensures LinesWithEnds(text, [line] + lines, [end] + ends)
  {
    hide NoLineEnd; hide EndsThere;
    assert ([line] + lines)[1..] == lines && ([end] + ends)[1..] == ends;
  }

  // ---------------------------------------------------------------------- the reading

  /** `Stops`: the digest comparison raises, because an array or an object is no member
      of any set, and nothing catches it. */
  datatype Reading = Blank | Good(record: AnchorRecord) | Bad(kind: Kind) | Stops

  datatype Kind = InvalidJson | InvalidObject | InvalidDigest

  function ReadLine(codec: Codec, line: string): Reading {
    var text := Strip(line);
    if text == [] then Blank
    else
      match codec.parse(text)
      case NotJson => Bad(InvalidJson)
      case NotObject => Bad(InvalidObject)
      case Object(fields) =>
        match Lookup(fields, "record_sha256")
        case Arr(_) => Stops
        case Obj(_) => Stops
        case given =>
          if given in {Null, Str(AnchorDigest(codec, fields))} then Good(FromFields(codec, fields)) else Bad(InvalidDigest)
  }

  function RecordsOf(codec: Codec, lines: seq<string>): seq<AnchorRecord> {
    if lines == [] then []
    else
      RecordsOf(codec, lines[..|lines| - 1])
      + match ReadLine(codec, lines[|lines| - 1]) case Good(r) => [r] case _ => []
  }

  /** The problem lines by number, counted from one. */
  function ProblemsOf(codec: Codec, lines: seq<string>): seq<(nat, Kind)> {
    if lines == [] then []
    else
      ProblemsOf(codec, lines[..|lines| - 1])
      + match ReadLine(codec, lines[|lines| - 1]) case Bad(kind) => [(|lines|, kind)] case _ => []
  }

  function Records(codec: Codec, text: string): seq<AnchorRecord> {
    RecordsOf(codec, SplitLines(text))
  }

  predicate HasDigest(records: seq<AnchorRecord>, sha: string) {
    exists r | r in records :: r.recordSha == sha
  }

  predicate Logged(codec: Codec, text: string, sha: string) {
    HasDigest(Records(codec, text), sha)
  }

  /** No line stops the reader. */
  predicate Readable(codec: Codec, text: string) {
    AllReadable(codec, SplitLines(text))
  }

  predicate AllReadable(codec: Codec, lines: seq<string>) {
    forall i | 0 <= i < |lines| :: !ReadLine(codec, lines[i]).Stops?
  }

  datatype Index = Index(records: seq<AnchorRecord>, problems: seq<(nat, Kind)>)

  // ---------------------------------------------------------- what an index says of a log

  /** The part of a record its digest is taken over. */
  function Covered(fields: Fields): Fields {
    map key | key in fields && key != "record_sha256" && key != "recorded_at_utc" :: fields[key]
  }

  /** No digest is stored, or the one that the rest of the fields has. */
  predicate Vouched(codec: Codec, fields: Fields) {
    "record_sha256" in fields ==> fields["record_sha256"] == Null || fields["record_sha256"] == Str(codec.hash(Covered(fields)))
  }

  /** The digest comparison raises on this one. */
  predicate Unhashable(fields: Fields) {
    "record_sha256" in fields && (fields["record_sha256"].Arr? || fields["record_sha256"].Obj?)
  }

  predicate Trusted(codec: Codec, line: string) {
    Strip(line) != [] && codec.parse(Strip(line)).Object? && Vouched(codec, codec.parse(Strip(line)).fields)
  }

  predicate Faulty(codec: Codec, line: string, kind: Kind) {
    && Strip(line) != []
    && var value := codec.parse(Strip(line));
      match kind
      case InvalidJson => value.NotJson?
      case InvalidObject => value.NotObject?
      case InvalidDigest => value.Object? && !Vouched(codec, value.fields) && !Unhashable(value.fields)
  }

  predicate Raises(codec: Codec, line: string) {
    Strip(line) != [] && codec.parse(Strip(line)).Object? && Unhashable(codec.parse(Strip(line)).fields)
  }

  /** `said` is the field's text, its shown value when it is no text, or the default. */
  predicate Told(codec: Codec, fields: Fields, key: string, default: string, said: string) {
    if key !in fields then said == default
    else if fields[key].Str? then said == fields[key].s
    else said == codec.show(fields[key])
  }

  predicate Says(codec: Codec, fields: Fields, r: AnchorRecord) {
    && Told(codec, fields, "schema_version", "pe-sim.attestation-anchor.v1", r.schemaVersion)
    && Told(codec, fields, "run_id", "", r.runId)
    && Told(codec, fields, "payload_sha256", "", r.payload)
    && Told(codec, fields, "package_sha256", "", r.package)
    && Told(codec, fields, "manifest_sha256", "", r.manifest)
    && Told(codec, fields, "artifact_index_sha256", "", r.artifactIndex)
    && Told(codec, fields, "attestation_path", "", r.attestationPath)
    && Told(codec, fields, "source_commit", "", r.sourceCommit)
    && Told(codec, fields, "recorded_at_utc", "", r.recordedAt)
    && r.recordSha == codec.hash(Covered(fields))
  }

  predicate LineSays(codec: Codec, line: string, r: AnchorRecord) {
    Trusted(codec, line) && Says(codec, codec.parse(Strip(line)).fields, r)
  }

  /** The records are what the trusted lines say, each line once and in their order. */
  ghost predicate Sources(codec: Codec, lines: seq<string>, records: seq<AnchorRecord>, at: seq<nat>) {
    && |at| == |records|
    && (forall j, k | 0 <= j < k < |at| :: at[j] < at[k])
    && (forall k | 0 <= k < |at| :: at[k] < |lines| && LineSays(codec, lines[at[k]], records[k]))
    && (forall i | 0 <= i < |lines| && Trusted(codec, lines[i]) :: i in at)
  }

  /** The problems are the faulty lines, by number, each with what is wrong with it. */
  ghost predicate Numbered(codec: Codec, lines: seq<string>, problems: seq<(nat, Kind)>) {
    && (forall j, k | 0 <= j < k < |problems| :: problems[j].0 < problems[k].0)
    && (forall p | p in problems :: IsFault(codec, lines, p))
    && (forall i | 0 <= i < |lines| :: forall kind | Faulty(codec, lines[i], kind) :: (i + 1, kind) in problems)
  }

  predicate IsFault(codec: Codec, lines: seq<string>, p: (nat, Kind)) {
    1 <= p.0 <= |lines| && Faulty(codec, lines[p.0 - 1], p.1)
  }

  ghost predicate IndexMeans(codec: Codec, lines: seq<string>, index: Index) {
    && (exists at: seq<nat> :: Sources(codec, lines, index.records, at))
    && Numbered(codec, lines, index.problems)
  }

  lemma ReadLineMeans(codec: Codec, line: string)
    ensures ReadLine(codec, line).Good? <==> Trusted(codec, line)
    ensures ReadLine(codec, line).Good? ==> LineSays(codec, line, ReadLine(codec, line).record)
    ensures forall kind :: ReadLine(codec, line) == Bad(kind) <==> Faulty(codec, line, kind)
    ensures ReadLine(codec, line).Stops? <==> Raises(codec, line)
  {
    var text := Strip(line);
    hide Says; hide FromFields; hide AnchorDigest; hide Strip;
    if text != [] && codec.parse(text).Object? {
      DigestCovers(codec, codec.parse(text).fields);
      FieldsSay(codec, codec.parse(text).fields);
    }
  }

  lemma DigestCovers(codec: Codec, fields: Fields)
    ensures AnchorDigest(codec, fields) == codec.hash(Covered(fields))
  {
    assert fields - {"record_sha256"} - {"recorded_at_utc"} == Covered(fields);
  }

  lemma FieldsSay(codec: Codec, fields: Fields)
    ensures Says(codec, fields, FromFields(codec, fields))
  {
    DigestCovers(codec, fields);
    hide AnchorDigest; hide Covered;
  }

  lemma {:induction false} RecordsMean(codec: Codec, lines: seq<string>) returns (at: seq<nat>)
    ensures Sources(codec, lines, RecordsOf(codec, lines), at)
  {
    hide ReadLine; hide LineSays; hide Trusted; hide Sources;
    at := [];
    if lines == [] {
      NoSources(codec);
    } else {
      var n := |lines| - 1;
      var before := RecordsMean(codec, lines[..n]);
      ReadLineMeans(codec, lines[n]);
      if ReadLine(codec, lines[n]).Good? {
        at := before + [n];
        SourceAdded(codec, lines, RecordsOf(codec, lines[..n]), before, ReadLine(codec, lines[n]).record);
      } else {
        at := before;
        assert RecordsOf(codec, lines) == RecordsOf(codec, lines[..n]);
        SourcesKept(codec, lines, RecordsOf(codec, lines[..n]), before);
      }
    }
  }

  lemma NoSources(codec: Codec)
    ensures Sources(codec, [], [], [])
  {}

  lemma SourcesKept(codec: Codec, lines: seq<string>, records: seq<AnchorRecord>, at: seq<nat>)
    requires lines != [] && Sources(codec, lines[..|lines| - 1], records, at) && !Trusted(codec, lines[|lines| - 1])
    ensures Sources(codec, lines, records, at)
  {
    hide LineSays; hide Trusted;
    var n := |lines| - 1;
    assert forall i | 0 <= i < n :: lines[..n][i] == lines[i];
  }

  lemma SourceAdded(codec: Codec, lines: seq<string>, records: seq<AnchorRecord>, at: seq<nat>, r: AnchorRecord)
    requires lines != [] && Sources(codec, lines[..|lines| - 1], records, at) && LineSays(codec, lines[|lines| - 1], r)
    ensures Sources(codec, lines, records + [r], at + [|lines| - 1])
  {
    hide LineSays; hide Trusted;
    var n := |lines| - 1;
    assert forall i | 0 <= i < n :: lines[..n][i] == lines[i];
    forall i | 0 <= i < |lines| && Trusted(codec, lines[i]) ensures i in at + [n] {
      if i == n { assert (at + [n])[|at|] == n; }
    }
  }

  lemma {:induction false} ProblemsMean(codec: Codec, lines: seq<string>)
    ensures Numbered(codec, lines, ProblemsOf(codec, lines))
  {
    hide ReadLine; hide Faulty; hide Numbered;
    if lines == [] {
      NoFaults(codec);
    } else {
      var n := |lines| - 1;
      ProblemsMean(codec, lines[..n]);
      ReadLineMeans(codec, lines[n]);
      match ReadLine(codec, lines[n])
      case Bad(kind) =>
        FaultAdded(codec, lines, lines[n], ProblemsOf(codec, lines[..n]), kind);
      case _ =>
        assert ProblemsOf(codec, lines) == ProblemsOf(codec, lines[..n]);
        FaultsKept(codec, lines, lines[n], ProblemsOf(codec, lines[..n]));
    }
  }

  lemma NoFaults(codec: Codec)
    ensures Numbered(codec, [], [])
  {}

  lemma FaultsKept(codec: Codec, lines: seq<string>, line: string, problems: seq<(nat, Kind)>)
    requires lines != [] && line == lines[|lines| - 1] && Numbered(codec, lines[..|lines| - 1], problems)
    requires forall kind :: !Faulty(codec, line, kind)
    ensures Numbered(codec, lines, problems)
  {
    hide Faulty;
    var n := |lines| - 1;
    assert forall i | 0 <= i < n :: lines[..n][i] == lines[i];
    forall p | p in problems ensures IsFault(codec, lines, p) { assert IsFault(codec, lines[..n], p); }
  }

  lemma FaultAdded(codec: Codec, lines: seq<string>, line: string, problems: seq<(nat, Kind)>, kind: Kind)
    requires lines != [] && line == lines[|lines| - 1] && Numbered(codec, lines[..|lines| - 1], problems)
    requires forall k :: Faulty(codec, line, k) <==> k == kind
    ensures Numbered(codec, lines, problems + [(|lines|, kind)])
  {
    hide Faulty;
    var n, all := |lines| - 1, problems + [(|lines|, kind)];
    assert forall i | 0 <= i < n :: lines[..n][i] == lines[i];
    forall p | p in problems ensures IsFault(codec, lines, p) { assert IsFault(codec, lines[..n], p); }
    forall p | p in all ensures IsFault(codec, lines, p) {}
    forall j, k | 0 <= j < k < |all| ensures all[j].0 < all[k].0 {
      if k == |problems| { assert IsFault(codec, lines[..n], problems[j]); }
    }
    forall i | 0 <= i < |lines| ensures forall k | Faulty(codec, lines[i], k) :: (i + 1, k) in all {
      if i == n { assert all[|problems|] == (|lines|, kind); }
    }
  }

  predicate SomeRaises(codec: Codec, lines: seq<string>) {
    exists line | line in lines :: Raises(codec, line)
  }

  lemma StopsIffRaises(codec: Codec, lines: seq<string>)
    ensures AllReadable(codec, lines) <==> !SomeRaises(codec, lines)
  {
    forall i | 0 <= i < |lines| ensures ReadLine(codec, lines[i]).Stops? <==> Raises(codec, lines[i]) {
      ReadLineMeans(codec, lines[i]);
    }
  }

  lemma IndexOfText(codec: Codec, text: string)
    ensures LinesOf(text, SplitLines(text))
    ensures Readable(codec, text) <==> !SomeRaises(codec, SplitLines(text))
    ensures IndexMeans(codec, SplitLines(text), Index(Records(codec, text), ProblemsOf(codec, SplitLines(text))))
  {
    var ends := SplitMeans(text);
    var at := RecordsMean(codec, SplitLines(text));
    ProblemsMean(codec, SplitLines(text));
    StopsIffRaises(codec, SplitLines(text));
    hide SplitLines; hide Numbered; hide Sources; hide SomeRaises; hide AllReadable; hide LinesWithEnds;
  }

  /** Nothing is returned when a line raises. */
  method ReadAnchorIndex(codec: Codec, text: string) returns (r: Option<Index>)
    ensures r == if Readable(codec, text) then Some(Index(Records(codec, text), ProblemsOf(codec, SplitLines(text)))) else None
    ensures r.None? <==> SomeRaises(codec, SplitLines(text))
    ensures LinesOf(text, SplitLines(text))
    ensures r.Some? ==> IndexMeans(codec, SplitLines(text), r.value)
  {
    IndexOfText(codec, text);
    hide ReadLine; hide SplitLines; hide IndexMeans; hide SomeRaises; hide LinesOf;
    var lines := SplitLines(text);
    var records: seq<AnchorRecord>, problems: seq<(nat, Kind)> := [], [];
    for i := 0 to |lines|
      invariant AllReadable(codec, lines[..i])
      invariant records == RecordsOf(codec, lines[..i])
      invariant problems == ProblemsOf(codec, lines[..i])
    {
      assert lines[..i + 1][..i] == lines[..i];
      match ReadLine(codec, lines[i])
      case Blank =>
      case Bad(kind) => problems := problems + [(i + 1, kind)];
      case Good(r) => records := records + [r];
      case Stops => return None;
    }
    assert lines[..|lines|] == lines;
    return Some(Index(records, problems));
  }

  lemma ReadableAppend(codec: Codec, a: seq<string>, b: seq<string>)
    ensures AllReadable(codec, a + b) <==> AllReadable(codec, a) && AllReadable(codec, b)
  {
    hide ReadLine;
    var all := a + b;
    assert forall i | 0 <= i < |a| :: all[i] == a[i];
    assert forall i | 0 <= i < |b| :: all[|a| + i] == b[i];
  }

  lemma {:induction false} RecordsAppend(codec: Codec, a: seq<string>, b: seq<string>)
    ensures RecordsOf(codec, a + b) == RecordsOf(codec, a) + RecordsOf(codec, b)
  {
    hide ReadLine;
    if b == [] {
      assert a + b == a;
    } else {
      assert (a + b)[..|a + b| - 1] == a + b[..|b| - 1];
      RecordsAppend(codec, a, b[..|b| - 1]);
    }
  }

  // ------------------------------------------------------------- splitting joined text

  predicate Terminated(text: string) {
    text == [] || text[|text| - 1] == '\n'
  }

  lemma FirstBreakIs(text: string, n: nat)
    requires n <= |text| && (n < |text| ==> IsBreak(text[n])) && forall i | 0 <= i < n :: !IsBreak(text[i])
    ensures FirstBreak(text) == n
  {}

  /** What follows does not move the first line break, unless it completes one. */
  lemma SplitHead(a: string, b: string)
    requires FirstBreak(a) < |a|
    requires a[FirstBreak(a)] != '\r' || FirstBreak(a) + 1 < |a|
    ensures var n := FirstBreak(a);
      SplitLines(a + b) == [a[..n]] + SplitLines(a[n + BreakLength(a, n)..] + b)
  {
    var n := FirstBreak(a);
    FirstBreakIs(a + b, n);
    hide FirstBreak; hide IsBreak;
    hide SplitLines;
    var m := n + BreakLength(a, n);
    assert BreakLength(a + b, n) == BreakLength(a, n);
    assert (a + b)[..n] == a[..n] && (a + b)[m..] == a[m..] + b;
    SplitAt(a + b, a[..n], a[m..] + b);
  }

  /** After a finished line the next text is split on its own. */
  lemma {:induction false} SplitAfterTerminated(a: string, b: string)
    requires Terminated(a)
    ensures SplitLines(a + b) == SplitLines(a) + SplitLines(b)
    decreases |a|
  {
    hide *;
    if a == [] {
      OnlyNewline();
      assert a + b == b;
    } else {
      TerminatedHead(a);
      var n := FirstBreak(a);
      var rest := a[n + BreakLength(a, n)..];
      SplitHead(a, b);
      SplitAlone(a);
      SplitAfterTerminated(rest, b);
      Assoc([a[..n]], SplitLines(rest), SplitLines(b));
    }
  }

  lemma SplitAlone(a: string)
    requires FirstBreak(a) < |a|
    requires a[FirstBreak(a)] != '\r' || FirstBreak(a) + 1 < |a|
    ensures var n := FirstBreak(a); SplitLines(a) == [a[..n]] + SplitLines(a[n + BreakLength(a, n)..])
  {
    hide FirstBreak; hide BreakLength;
  }

  lemma TerminatedHead(a: string)
    requires Terminated(a) && a != []
    ensures var n := FirstBreak(a);
      && n < |a| && (a[n] != '\r' || n + 1 < |a|)
      && n < n + BreakLength(a, n) <= |a| && Terminated(a[n + BreakLength(a, n)..])
  {
    assert IsBreak('\n');
    hide IsBreak; hide FirstBreak; hide SplitLines;
  }

  lemma Assoc<T>(a: seq<T>, b: seq<T>, c: seq<T>)
    ensures a + (b + c) == (a + b) + c
  {}

  /** Finishing a torn last line leaves the lines as they were, or adds an empty one. */
  lemma {:induction false} TerminatingLines(a: string)
    requires !Terminated(a)
    ensures SplitLines(a + "\n") == SplitLines(a) || SplitLines(a + "\n") == SplitLines(a) + [""]
    decreases |a|
  {
    hide IsBreak; hide FirstBreak; hide SplitLines;
    var n := FirstBreak(a);
    if n == |a| {
      TailTerminated(a);
    } else if n + 1 == |a| && a[n] == '\r' {
      ReturnTerminated(a);
    } else {
      var rest := a[n + BreakLength(a, n)..];
      if rest != [] { TerminatingLines(rest); }
      TerminatingRest(a, rest);
    }
  }

  lemma TerminatingRest(a: string, rest: string)
    requires a != [] && FirstBreak(a) < |a|
    requires a[FirstBreak(a)] != '\r' || FirstBreak(a) + 1 < |a|
    requires rest == a[FirstBreak(a) + BreakLength(a, FirstBreak(a))..]
    requires rest != [] ==> SplitLines(rest + "\n") == SplitLines(rest) || SplitLines(rest + "\n") == SplitLines(rest) + [""]
    ensures SplitLines(a + "\n") == SplitLines(a) || SplitLines(a + "\n") == SplitLines(a) + [""]
  {
    hide *;
    SplitHead(a, "\n");
    SplitHead(a, []);
    assert a + [] == a && rest + [] == rest;
    OnlyNewline();
    if rest == [] { assert rest + "\n" == "\n"; }
    Assoc([a[..FirstBreak(a)]], SplitLines(rest), [""]);
  }

  /** So it changes no record and stops no reader. */
  lemma TerminatingKeepsRecords(codec: Codec, a: string)
    requires !Terminated(a)
    ensures Records(codec, a + "\n") == Records(codec, a)
    ensures Readable(codec, a + "\n") <==> Readable(codec, a)
  {
    TerminatingLines(a);
    EmptyLine(codec);
    hide ReadLine; hide SplitLines; hide RecordsOf; hide AllReadable;
    RecordsAppend(codec, SplitLines(a), [""]);
    ReadableAppend(codec, SplitLines(a), [""]);
  }

  lemma EmptyLine(codec: Codec)
    ensures RecordsOf(codec, [""]) == [] && AllReadable(codec, [""])
  {
    assert [""][..0] == [];
  }

  lemma TailTerminated(a: string)
    requires a != [] && FirstBreak(a) == |a|
    ensures SplitLines(a + "\n") == SplitLines(a)
  {
    var closed := a + "\n";
    assert IsBreak('\n') && SplitLines("") == [] && SplitLines(a) == [a];
    hide *;
    forall i | 0 <= i < |a| ensures !IsBreak(closed[i]) { assert closed[i] == a[i]; }
    FirstBreakIs(closed, |a|);
    LineFeedBreaks(a);
    assert closed[|a| + 1..] == [] && closed[..|a|] == a;
    SplitAt(closed, a, []);
  }

  lemma LineFeedBreaks(a: string)
    ensures BreakLength(a + "\n", |a|) == 1
  {}

  lemma ReturnTerminated(a: string)
    requires a != [] && FirstBreak(a) == |a| - 1 && a[|a| - 1] == '\r'
    ensures SplitLines(a + "\n") == SplitLines(a)
  {
    hide *;
    var n, head := |a| - 1, a[..|a| - 1];
    ReturnBreaks(a);
    assert a[n + 1..] == [] && (a + "\n")[n + 2..] == [] && (a + "\n")[..n] == head;
    SplitAt(a, head, []);
    SplitAt(a + "\n", head, []);
  }

  lemma ReturnBreaks(a: string)
    requires a != [] && FirstBreak(a) == |a| - 1 && a[|a| - 1] == '\r'
    ensures FirstBreak(a + "\n") == |a| - 1
    ensures BreakLength(a, |a| - 1) == 1 && BreakLength(a + "\n", |a| - 1) == 2
  {
    var n, closed := |a| - 1, a + "\n";
    assert closed[n] == '\r' && closed[n + 1] == '\n' && IsBreak('\r');
    hide IsBreak; hide FirstBreak;
    forall i | 0 <= i < n ensures !IsBreak(closed[i]) { assert closed[i] == a[i]; }
    FirstBreakIs(closed, n);
  }

  lemma SplitAt(text: string, head: string, rest: string)
    requires FirstBreak(text) < |text| && head == text[..FirstBreak(text)]
    requires rest == text[FirstBreak(text) + BreakLength(text, FirstBreak(text))..]
    ensures SplitLines(text) == [head] + SplitLines(rest)
  {
    hide FirstBreak; hide IsBreak;
  }

  lemma OnlyNewline()
    ensures SplitLines("\n") == [""] && SplitLines([]) == []
  {
    FirstBreakIs("\n", 0);
    assert "\n"[1..] == [];
    assert SplitLines("\n") == [""[..]] + SplitLines([]);
  }

  predicate OneLine(text: string) {
    forall c | c in text :: !IsBreak(c)
  }

  lemma OneLineSplits(text: string)
    requires text != [] && OneLine(text)
    ensures SplitLines(text) == [text] && SplitLines(text + "\n") == [text]
  {
    assert forall i | 0 <= i < |text| :: text[i] in text;
    FirstBreakIs(text, |text|);
    FirstBreakIs(text + "\n", |text|);
    assert (text + "\n")[|text| + 1..] == [] && (text + "\n")[..|text|] == text;
  }

  // ------------------------------------------------------------------- a changed record

  ghost predicate CollisionFree(codec: Codec) {
    forall a, b :: codec.hash(a) == codec.hash(b) ==> a == b
  }

  /** A logged line with a hashed field changed, added or taken away, under the digest the
      line had before. */
  ghost predicate Forged(codec: Codec, line: string, forged: string) {
    && Trusted(codec, line) && Strip(forged) != [] && codec.parse(Strip(forged)).Object?
    && var was, now := codec.parse(Strip(line)).fields, codec.parse(Strip(forged)).fields;
      && "record_sha256" in was && was["record_sha256"].Str?
      && "record_sha256" in now && now["record_sha256"] == was["record_sha256"]
      && Covered(now) != Covered(was)
  }

  /** Main result: under a hash without collisions such a change shows.  The line's record
      is gone, the other records stay as they were, and of the problems the only new one
      is the line's own, under its own number. */
  lemma ForgedLineCaught(codec: Codec, before: string, line: string, forged: string, after: string)
    requires CollisionFree(codec) && Forged(codec, line, forged)
    requires Terminated(before) && line != [] && OneLine(line) && forged != [] && OneLine(forged)
    ensures ReadLine(codec, line).Good? && LineSays(codec, line, ReadLine(codec, line).record)
    ensures Records(codec, before + (line + "\n" + after))
         == Records(codec, before) + [ReadLine(codec, line).record] + Records(codec, after)
    ensures Records(codec, before + (forged + "\n" + after)) == Records(codec, before) + Records(codec, after)
    ensures OnlyNewFault(ProblemsOf(codec, SplitLines(before + (line + "\n" + after))),
                         ProblemsOf(codec, SplitLines(before + (forged + "\n" + after))),
                         (|SplitLines(before)| + 1, InvalidDigest))
  {
    assert Trusted(codec, line);
    hide *;
    TrustedReads(codec, line);
    ForgedReads(codec, line, forged);
    GoodAround(codec, before, line, after);
    BadAround(codec, before, forged, after);
    FaultsAround(codec, before, line, forged, after);
  }

  lemma FaultsAround(codec: Codec, before: string, line: string, forged: string, after: string)
    requires Terminated(before) && line != [] && OneLine(line) && forged != [] && OneLine(forged)
    requires forall kind :: !Faulty(codec, line, kind)
    requires forall kind :: Faulty(codec, forged, kind) <==> kind == InvalidDigest
    ensures OnlyNewFault(ProblemsOf(codec, SplitLines(before + (line + "\n" + after))),
                         ProblemsOf(codec, SplitLines(before + (forged + "\n" + after))),
                         (|SplitLines(before)| + 1, InvalidDigest))
  {
    hide *;
    var head, tail := SplitLines(before), SplitLines(after);
    LinesAround(before, line, after);
    LinesAround(before, forged, after);
    ProblemsMean(codec, head + [line] + tail);
    ProblemsMean(codec, head + [forged] + tail);
    OneFaultMore(codec, head, line, forged, tail, ProblemsOf(codec, head + [line] + tail), ProblemsOf(codec, head + [forged] + tail));
  }

  predicate OnlyNewFault(was: seq<(nat, Kind)>, now: seq<(nat, Kind)>, fault: (nat, Kind)) {
    fault !in was && fault in now && (forall p | p in was :: p in now) && forall p | p in now :: p in was || p == fault
  }

  lemma GoodAround(codec: Codec, before: string, line: string, after: string)
    requires Terminated(before) && line != [] && OneLine(line) && ReadLine(codec, line).Good?
    ensures Records(codec, before + (line + "\n" + after))
         == Records(codec, before) + [ReadLine(codec, line).record] + Records(codec, after)
  {
    hide ReadLine; hide RecordsOf; hide SplitLines; hide OneLine; hide Terminated;
    LinesAround(before, line, after);
    RecordsAround(codec, SplitLines(before), line, SplitLines(after));
  }

  lemma BadAround(codec: Codec, before: string, line: string, after: string)
    requires Terminated(before) && line != [] && OneLine(line) && ReadLine(codec, line).Bad?
    ensures Records(codec, before + (line + "\n" + after)) == Records(codec, before) + Records(codec, after)
  {
    hide ReadLine; hide RecordsOf; hide SplitLines; hide OneLine; hide Terminated;
    LinesAround(before, line, after);
    RecordsAround(codec, SplitLines(before), line, SplitLines(after));
    assert Records(codec, before) + [] == Records(codec, before);
  }

  lemma LinesAround(before: string, line: string, after: string)
    requires Terminated(before) && line != [] && OneLine(line)
    ensures SplitLines(before + (line + "\n" + after)) == SplitLines(before) + [line] + SplitLines(after)
  {
    hide SplitLines; hide OneLine;
    OneLineSplits(line);
    assert (line + "\n")[|line + "\n"| - 1] == '\n';
    SplitAfterTerminated(before, line + "\n" + after);
    SplitAfterTerminated(line + "\n", after);
    Assoc(SplitLines(before), [line], SplitLines(after));
  }

  lemma TrustedReads(codec: Codec, line: string)
    requires Trusted(codec, line)
    ensures ReadLine(codec, line).Good? && LineSays(codec, line, ReadLine(codec, line).record)
    ensures forall kind :: !Faulty(codec, line, kind)
  {
    ReadLineMeans(codec, line);
  }

  lemma ForgedReads(codec: Codec, line: string, forged: string)
    requires CollisionFree(codec) && Forged(codec, line, forged)
    ensures ReadLine(codec, forged) == Bad(InvalidDigest)
    ensures forall kind :: Faulty(codec, forged, kind) <==> kind == InvalidDigest
  {
    ReadLineMeans(codec, forged);
    var was, now := codec.parse(Strip(line)).fields, codec.parse(Strip(forged)).fields;
    assert codec.hash(Covered(now)) != codec.hash(Covered(was));
  }

  lemma RecordsAround(codec: Codec, head: seq<string>, line: string, tail: seq<string>)
    ensures RecordsOf(codec, head + [line] + tail)
         == RecordsOf(codec, head) + (match ReadLine(codec, line) case Good(r) => [r] case _ => []) + RecordsOf(codec, tail)
  {
    hide ReadLine; hide RecordsOf;
    RecordsAppend(codec, head + [line], tail);
    RecordsAppend(codec, head, [line]);
    OneRecord(codec, line);
  }

  lemma OneFaultMore(codec: Codec, head: seq<string>, line: string, forged: string, tail: seq<string>,
                     was: seq<(nat, Kind)>, now: seq<(nat, Kind)>)
    requires Numbered(codec, head + [line] + tail, was) && Numbered(codec, head + [forged] + tail, now)
    requires forall kind :: !Faulty(codec, line, kind)
    requires forall kind :: Faulty(codec, forged, kind) <==> kind == InvalidDigest
    ensures OnlyNewFault(was, now, (|head| + 1, InvalidDigest))
  {
    hide Faulty;
    var plain, altered := head + [line] + tail, head + [forged] + tail;
    assert forall i | 0 <= i < |plain| && i != |head| :: plain[i] == altered[i];
    assert plain[|head|] == line && altered[|head|] == forged;
    forall p ensures p in now <==> p in was || p == (|head| + 1, InvalidDigest) {
      assert p in was <==> IsFault(codec, plain, p);
      assert p in now <==> IsFault(codec, altered, p);
    }
  }

  // --------------------------------------------------------------------- the appending

  /** What canonical JSON promises about one record: the text of an object starts and
      ends with a bracket, reads back, and no unfinished beginning of it is JSON. */
  ghost predicate Sound(codec: Codec, r: AnchorRecord) {
    var text := codec.text(ToFields(r));
    && text != [] && !IsSpace(text[0]) && !IsSpace(text[|text| - 1])
    && codec.parse(text) == Object(ToFields(r))
    && forall p | p < text :: codec.parse(Strip(p)).NotJson?
  }

  ghost predicate Loggable(codec: Codec, r: AnchorRecord) {
    Built(codec, r) && Sound(codec, r) && OneLine(codec.text(ToFields(r)))
  }

  /** The bytes one append writes: a line feed first when the log ends in a torn line. */
  function Payload(codec: Codec, text: string, r: AnchorRecord): string {
    (if Terminated(text) then "" else "\n") + codec.text(ToFields(r)) + "\n"
  }

  /** The log after an append that got as far as `written` characters. */
  function Appended(codec: Codec, text: string, r: AnchorRecord, written: nat): string {
    if !Readable(codec, text) || Logged(codec, text, r.recordSha) then text
    else text + Payload(codec, text, r)[..if written < |Payload(codec, text, r)| then written else |Payload(codec, text, r)|]
  }

  /** The append got past the record's own text: the log could be read and the write
      went that far. */
  predicate Reached(codec: Codec, text: string, r: AnchorRecord, written: nat) {
    Readable(codec, text) && written >= |Payload(codec, text, r)| - 1
  }

  class Log {
    const codec: Codec
    var text: string

    constructor (codec: Codec, text: string)
      ensures this.codec == codec && this.text == text
    {
      this.codec, this.text := codec, text;
    }

    /** Appends a record unless its digest is there already; a crash may stop the
        write after any number of characters, and a line that stops the reader stops
        the append before it writes. */
    method Append(record: AnchorRecord, written: nat) returns (appended: Option<bool>)
      modifies this
      ensures appended == if Readable(codec, old(text)) then Some(!Logged(codec, old(text), record.recordSha)) else None
      ensures text == Appended(codec, old(text), record, written)
    {
      hide Records; hide ToFields; hide SplitLines; hide AllReadable; hide IndexMeans; hide SomeRaises; hide LinesOf; hide ReadLine;
      var index := ReadAnchorIndex(codec, text);
      if index.None? { return None; }
      var existing := index.value.records;
      if exists r | r in existing :: r.recordSha == record.recordSha { return Some(false); }
      var payload := codec.text(ToFields(record)) + "\n";
      var needsNewline := text != [] && text[|text| - 1] != '\n';
      var bytes := (if needsNewline then "\n" else "") + payload;
      assert bytes == Payload(codec, text, record);
      text := text + bytes[..if written < |bytes| then written else |bytes|];
      return Some(true);
    }
  }

  lemma RecordReadsBack(codec: Codec, r: AnchorRecord)
    requires Built(codec, r) && Sound(codec, r)
    ensures ReadLine(codec, codec.text(ToFields(r))) == Good(r)
  {
    hide FromFields; hide ToFields; hide AnchorDigest; hide IsSpace;
    FieldsReadBack(codec, r);
    var text := codec.text(ToFields(r));
    assert StripLeft(text) == text && StripRight(text) == text;
  }

  lemma FieldsReadBack(codec: Codec, r: AnchorRecord)
    ensures FromFields(codec, ToFields(r)) == r.(recordSha := AnchorDigest(codec, ToFields(r)))
    ensures Lookup(ToFields(r), "record_sha256") == Str(r.recordSha)
  {
    hide AnchorDigest;
  }

  lemma PrefixReadsNothing(codec: Codec, r: AnchorRecord, p: string)
    requires Sound(codec, r) && p < codec.text(ToFields(r))
    ensures !ReadLine(codec, p).Good? && !ReadLine(codec, p).Stops?
  {}

  /** A beginning of a one-line record, put on a line of its own: the record when it is
      all there, otherwise nothing. */
  lemma PieceReads(codec: Codec, r: AnchorRecord, p: string)
    requires Loggable(codec, r) && p <= codec.text(ToFields(r)) + "\n"
    ensures Records(codec, p) == if |p| >= |codec.text(ToFields(r))| then [r] else []
    ensures Readable(codec, p)
  {
    var text := codec.text(ToFields(r));
    hide ToFields; hide ReadLine; hide Built; hide IsSpace; hide AllReadable; hide RecordsOf;
    OneLineSplits(text);
    RecordReadsBack(codec, r);
    OneRecord(codec, text);
    if |p| < |text| {
      assert p == text[..|p|] && p < text;
      if p == [] {
        NothingReads(codec);
      } else {
        PrefixReadsNothing(codec, r, p);
        OneRecord(codec, p);
        forall c | c in p ensures !IsBreak(c) { assert c in text; }
        OneLineSplits(p);
      }
    } else if |p| == |text| {
      assert p == text;
    } else {
      assert p == text + "\n";
    }
  }

  lemma NothingReads(codec: Codec)
    ensures Records(codec, []) == [] && Readable(codec, [])
  {}

  lemma OneRecord(codec: Codec, line: string)
    ensures RecordsOf(codec, [line]) == match ReadLine(codec, line) case Good(r) => [r] case _ => []
    ensures AllReadable(codec, [line]) <==> !ReadLine(codec, line).Stops?
  {
    hide ReadLine;
    assert [line][..0] == [] && [line][0] == line;
  }

  /** Whatever an append managed to write, every earlier record is still there first,
      and the new one follows exactly when its text got written in full. */
  lemma AppendKeepsRecords(codec: Codec, text: string, r: AnchorRecord, written: nat)
    requires Loggable(codec, r)
    ensures Records(codec, Appended(codec, text, r, written))
         == Records(codec, text)
            + if !Logged(codec, text, r.recordSha) && Reached(codec, text, r, written) then [r] else []
    ensures Readable(codec, Appended(codec, text, r, written)) <==> Readable(codec, text)
  {
    hide ReadLine; hide SplitLines; hide Loggable; hide ToFields; hide Logged; hide AllReadable;
    if Readable(codec, text) && !Logged(codec, text, r.recordSha) {
      var payload := Payload(codec, text, r);
      var piece := payload[..if written < |payload| then written else |payload|];
      if Terminated(text) {
        assert payload == codec.text(ToFields(r)) + "\n";
        PieceAppended(codec, text, r, piece);
      } else if piece == [] {
        assert text + piece == text;
      } else {
        TerminatingKeepsRecords(codec, text);
        assert text + piece == (text + "\n") + piece[1..];
        PieceAppended(codec, text + "\n", r, piece[1..]);
      }
    }
  }

  lemma PieceAppended(codec: Codec, base: string, r: AnchorRecord, piece: string)
    requires Loggable(codec, r) && Terminated(base) && piece <= codec.text(ToFields(r)) + "\n"
    ensures Records(codec, base + piece)
         == Records(codec, base) + if |piece| >= |codec.text(ToFields(r))| then [r] else []
    ensures Readable(codec, base + piece) <==> Readable(codec, base)
  {
    hide ReadLine; hide SplitLines; hide Loggable; hide AllReadable;
    SplitAfterTerminated(base, piece);
    RecordsAppend(codec, SplitLines(base), SplitLines(piece));
    ReadableAppend(codec, SplitLines(base), SplitLines(piece));
    PieceReads(codec, r, piece);
  }

  /** Appending the same record again, whenever it says it was recorded, does nothing. */
  lemma ReappendIsNoOp(codec: Codec, text: string, r: AnchorRecord, time: string, written: nat)
    requires Loggable(codec, r)
    ensures var done := Appended(codec, text, r, |Payload(codec, text, r)|);
      Appended(codec, done, BuildAnchorRecord(codec, r.(recordedAt := time)), written) == done
  {
    var full, again := |Payload(codec, text, r)|, BuildAnchorRecord(codec, r.(recordedAt := time));
    var done := Appended(codec, text, r, full);
    SameIdentity(codec, r, time);
    AppendKeepsRecords(codec, text, r, full);
    hide Records; hide Readable; hide Payload; hide BuildAnchorRecord; hide Loggable;
    if Readable(codec, text) { AppendedIsLogged(codec, text, r, full); }
  }

  lemma SameIdentity(codec: Codec, r: AnchorRecord, time: string)
    requires Built(codec, r)
    ensures BuildAnchorRecord(codec, r.(recordedAt := time)).recordSha == r.recordSha
  {
    DigestIgnores(codec, r, time, r.recordSha);
    DigestIgnores(codec, r, time, r.(recordedAt := time).recordSha);
  }

  /** A record written in full is there. */
  lemma AppendedIsLogged(codec: Codec, text: string, r: AnchorRecord, written: nat)
    requires Loggable(codec, r) && Reached(codec, text, r, written)
    ensures Logged(codec, Appended(codec, text, r, written), r.recordSha)
  {
    AppendKeepsRecords(codec, text, r, written);
    hide Records; hide Appended; hide Reached; hide Loggable;
    if !Logged(codec, text, r.recordSha) {
      assert r in Records(codec, Appended(codec, text, r, written));
    }
  }

  // -------------------------------------------------------------------------- runs

  /** One attempt to append: how much of it was written before a crash, if any. */
  datatype Attempt = Attempt(record: AnchorRecord, written: nat)

  function Run(codec: Codec, text: string, attempts: seq<Attempt>): string {
    if attempts == [] then text
    else
      var last := attempts[|attempts| - 1];
      Appended(codec, Run(codec, text, attempts[..|attempts| - 1]), last.record, last.written)
  }

  ghost predicate DistinctDigests(records: seq<AnchorRecord>) {
    forall i, j | 0 <= i < j < |records| :: records[i].recordSha != records[j].recordSha
  }

  /** Any run of appends, each torn anywhere or complete: the records read before stay
      a prefix, no digest is ever there twice, and the last attempt left its record in
      the log exactly when it found it there or wrote it in full. */
  lemma {:induction false} RunKeepsRecords(codec: Codec, text: string, attempts: seq<Attempt>)
    requires forall i | 0 <= i < |attempts| :: Loggable(codec, attempts[i].record)
    requires DistinctDigests(Records(codec, text))
    ensures Records(codec, text) <= Records(codec, Run(codec, text, attempts))
    ensures DistinctDigests(Records(codec, Run(codec, text, attempts)))
    ensures Readable(codec, Run(codec, text, attempts)) <==> Readable(codec, text)
    ensures attempts != [] ==>
      var last, before := attempts[|attempts| - 1], Run(codec, text, attempts[..|attempts| - 1]);
      Logged(codec, Run(codec, text, attempts), last.record.recordSha) <==>
      (Logged(codec, before, last.record.recordSha) || Reached(codec, before, last.record, last.written))
  {
    if attempts != [] {
      var n := |attempts| - 1;
      RunKeepsRecords(codec, text, attempts[..n]);
      var before, last := Run(codec, text, attempts[..n]), attempts[n];
      AppendKeepsRecords(codec, before, last.record, last.written);
      OnceMore(codec, Records(codec, before), last.record);
    }
  }

  lemma OnceMore(codec: Codec, records: seq<AnchorRecord>, r: AnchorRecord)
    requires DistinctDigests(records)
    ensures (forall x | x in records :: x.recordSha != r.recordSha) ==> DistinctDigests(records + [r])
  {}

  /** Every record some attempt wrote in full stays in the log for good. */
  lemma {:induction false} WrittenStays(codec: Codec, text: string, attempts: seq<Attempt>, more: seq<Attempt>)
    requires forall i | 0 <= i < |attempts + more| :: Loggable(codec, (attempts + more)[i].record)
    requires DistinctDigests(Records(codec, text)) && attempts != []
    requires Reached(codec, Run(codec, text, attempts[..|attempts| - 1]), attempts[|attempts| - 1].record,
                     attempts[|attempts| - 1].written)
    ensures Logged(codec, Run(codec, text, attempts + more), attempts[|attempts| - 1].record.recordSha)
  {
    hide ReadLine; hide SplitLines; hide Loggable; hide ToFields; hide Appended; hide Reached;
    forall i | 0 <= i < |attempts| ensures Loggable(codec, attempts[i].record) { assert (attempts + more)[i] == attempts[i]; }
    RunKeepsRecords(codec, text, attempts);
    if more == [] {
      assert attempts + more == attempts;
    } else {
      var n := |more| - 1;
      assert (attempts + more)[..|attempts| + n] == attempts + more[..n];
      WrittenStays(codec, text, attempts, more[..n]);
      var before, last := Run(codec, text, attempts + more[..n]), more[n];
      assert (attempts + more)[|attempts| + n] == last;
      AppendKeepsRecords(codec, before, last.record, last.written);
    }
  }

  /** Canonical JSON leaves U+0085, U+2028 and U+2029 as they are, and those end a line:
      a complete append is read back exactly when the record's text holds no line
      break, or one of the lines it breaks into happens to read as a record with its
      digest. */
  lemma AppendedIsReadIff(codec: Codec, text: string, r: AnchorRecord)
    requires Built(codec, r) && Sound(codec, r) && Readable(codec, text) && !Logged(codec, text, r.recordSha)
    ensures Logged(codec, Appended(codec, text, r, |Payload(codec, text, r)|), r.recordSha)
       <==> OneLine(codec.text(ToFields(r))) || SomeLineReads(codec, r)
    ensures Readable(codec, Appended(codec, text, r, |Payload(codec, text, r)|))
       <==> Readable(codec, codec.text(ToFields(r)) + "\n")
  {
    CompleteAppend(codec, text, r);
    var line := codec.text(ToFields(r)) + "\n";
    if OneLine(codec.text(ToFields(r))) {
      OneLineReads(codec, r);
    } else {
      RecordsComeIff(codec, SplitLines(line), r.recordSha);
    }
  }

  /** Some line of the record's own text reads as a record with its digest. */
  predicate SomeLineReads(codec: Codec, r: AnchorRecord) {
    LineReads(codec, SplitLines(codec.text(ToFields(r)) + "\n"), r.recordSha)
  }

  predicate LineReads(codec: Codec, lines: seq<string>, sha: string) {
    exists line | line in lines :: ReadsAs(codec, line, sha)
  }

  lemma OneLineReads(codec: Codec, r: AnchorRecord)
    requires Built(codec, r) && Sound(codec, r) && OneLine(codec.text(ToFields(r)))
    ensures HasDigest(Records(codec, codec.text(ToFields(r)) + "\n"), r.recordSha)
  {
    OneLineSplits(codec.text(ToFields(r)));
    RecordReadsBack(codec, r);
    OneRecord(codec, codec.text(ToFields(r)));
    hide SplitLines; hide ReadLine; hide ToFields;
    assert r in [r];
  }

  /** A complete append adds the lines of the record's text and no others. */
  lemma CompleteAppend(codec: Codec, text: string, r: AnchorRecord)
    requires Readable(codec, text) && !Logged(codec, text, r.recordSha)
    ensures var done, line := Appended(codec, text, r, |Payload(codec, text, r)|), codec.text(ToFields(r)) + "\n";
      && done == text + Payload(codec, text, r)
      && Records(codec, done) == Records(codec, text) + Records(codec, line)
      && (Readable(codec, done) <==> Readable(codec, line))
      && (Logged(codec, done, r.recordSha) <==> HasDigest(Records(codec, line), r.recordSha))
  {
    var line, base := codec.text(ToFields(r)) + "\n", if Terminated(text) then text else text + "\n";
    FullPayload(codec, text, r);
    if !Terminated(text) { TerminatingKeepsRecords(codec, text); }
    assert Terminated(base);
    hide ReadLine; hide SplitLines; hide AllReadable; hide RecordsOf; hide ToFields; hide HasDigest; hide Terminated; hide Payload;
    SplitAfterTerminated(base, line);
    RecordsAppend(codec, SplitLines(base), SplitLines(line));
    ReadableAppend(codec, SplitLines(base), SplitLines(line));
    DigestJoins(Records(codec, text), Records(codec, line), r.recordSha);
  }

  lemma FullPayload(codec: Codec, text: string, r: AnchorRecord)
    requires Readable(codec, text) && !Logged(codec, text, r.recordSha)
    ensures Appended(codec, text, r, |Payload(codec, text, r)|) == text + Payload(codec, text, r)
         == (if Terminated(text) then text else text + "\n") + (codec.text(ToFields(r)) + "\n")
  {
    hide Readable; hide Logged; hide ToFields; hide Terminated;
    var payload := Payload(codec, text, r);
    assert payload[..|payload|] == payload;
    if !Terminated(text) {
      assert payload == "\n" + (codec.text(ToFields(r)) + "\n");
      Assoc(text, "\n", codec.text(ToFields(r)) + "\n");
    }
  }

  lemma DigestJoins(a: seq<AnchorRecord>, b: seq<AnchorRecord>, sha: string)
    ensures HasDigest(a + b, sha) <==> HasDigest(a, sha) || HasDigest(b, sha)
  {
    assert forall r :: r in a + b <==> r in a || r in b;
  }

  lemma {:induction false} RecordsComeIff(codec: Codec, lines: seq<string>, sha: string)
    ensures HasDigest(RecordsOf(codec, lines), sha) <==> LineReads(codec, lines, sha)
  {
    hide ReadLine; hide HasDigest; hide LineReads;
    if lines == [] {
      NoLines(codec, sha);
    } else {
      var n := |lines| - 1;
      RecordsComeIff(codec, lines[..n], sha);
      OneRecord(codec, lines[n]);
      LastLineReads(codec, lines, sha);
      DigestJoins(RecordsOf(codec, lines[..n]), RecordsOf(codec, [lines[n]]), sha);
    }
  }

  lemma NoLines(codec: Codec, sha: string)
    ensures !HasDigest(RecordsOf(codec, []), sha) && !LineReads(codec, [], sha)
  {}

  predicate ReadsAs(codec: Codec, line: string, sha: string) {
    ReadLine(codec, line).Good? && ReadLine(codec, line).record.recordSha == sha
  }

  lemma OneReadsAs(codec: Codec, line: string, sha: string)
    ensures HasDigest(RecordsOf(codec, [line]), sha) <==> ReadsAs(codec, line, sha)
  {
    OneRecord(codec, line);
    hide RecordsOf; hide ReadLine;
    if ReadLine(codec, line).Good? { assert RecordsOf(codec, [line])[0] == ReadLine(codec, line).record; }
  }

  lemma LastLineReads(codec: Codec, lines: seq<string>, sha: string)
    requires lines != []
    ensures LineReads(codec, lines, sha) <==>
      LineReads(codec, lines[..|lines| - 1], sha) || HasDigest(RecordsOf(codec, [lines[|lines| - 1]]), sha)
  {
    var n := |lines| - 1;
    OneReadsAs(codec, lines[n], sha);
    hide ReadsAs; hide RecordsOf; hide HasDigest; hide ReadLine;
    assert forall line :: line in lines <==> line in lines[..n] || line == lines[n] by {
      assert lines == lines[..n] + [lines[n]];
    }
  }

  /** The log after `k` complete appends of one record. */
  function Repeated(codec: Codec, text: string, r: AnchorRecord, k: nat): string {
    if k == 0 then text
    else
      var before := Repeated(codec, text, r, k - 1);
      Appended(codec, before, r, |Payload(codec, before, r)|)
  }

  /** A record that is not read back is appended again each time: every further complete
      append makes the log longer and leaves it readable, exactly when the lines the
      record's text breaks into stop no reader and none reads as a record with its
      digest. */
  lemma {:induction false} AppendedEachTimeIff(codec: Codec, text: string, r: AnchorRecord, k: nat)
    requires Built(codec, r) && Sound(codec, r) && Readable(codec, text) && !Logged(codec, text, r.recordSha)
    ensures Lost(codec, r) ==>
      && Readable(codec, Repeated(codec, text, r, k)) && !Logged(codec, Repeated(codec, text, r, k), r.recordSha)
      && |Repeated(codec, text, r, k + 1)| > |Repeated(codec, text, r, k)|
    ensures !Lost(codec, r) ==> Repeated(codec, text, r, k + 2) == Repeated(codec, text, r, 1)
  {
    hide *;
    AppendMore(codec, text, r, k);
    if Lost(codec, r) {
      if k > 0 {
        AppendedEachTimeIff(codec, text, r, k - 1);
        AppendMore(codec, text, r, k - 1);
        OnceLost(codec, Repeated(codec, text, r, k - 1), r);
      }
      CompleteAppend(codec, Repeated(codec, text, r, k), r);
      Longer(codec, Repeated(codec, text, r, k), r);
    } else {
      AppendMore(codec, text, r, 0);
      OnceLost(codec, text, r);
      StaysPut(codec, text, r, k + 1);
    }
  }

  lemma AppendMore(codec: Codec, text: string, r: AnchorRecord, k: nat)
    ensures Repeated(codec, text, r, 0) == text
    ensures var before := Repeated(codec, text, r, k);
      Repeated(codec, text, r, k + 1) == Appended(codec, before, r, |Payload(codec, before, r)|)
  {}

  /** One append leaves a lost record as lost as before, and only a lost one. */
  lemma OnceLost(codec: Codec, text: string, r: AnchorRecord)
    requires Built(codec, r) && Sound(codec, r) && Readable(codec, text) && !Logged(codec, text, r.recordSha)
    ensures var done := Appended(codec, text, r, |Payload(codec, text, r)|);
      Lost(codec, r) <==> Readable(codec, done) && !Logged(codec, done, r.recordSha)
  {
    AppendedIsReadIff(codec, text, r);
    hide Readable; hide Logged; hide SomeLineReads; hide OneLine; hide Appended; hide Payload;
  }

  /** The record's text breaks into lines that can be read and none of which is it. */
  predicate Lost(codec: Codec, r: AnchorRecord) {
    && Readable(codec, codec.text(ToFields(r)) + "\n")
    && !OneLine(codec.text(ToFields(r))) && !SomeLineReads(codec, r)
  }

  lemma Longer(codec: Codec, text: string, r: AnchorRecord)
    ensures |text + Payload(codec, text, r)| > |text|
  {}

  lemma {:induction false} StaysPut(codec: Codec, text: string, r: AnchorRecord, k: nat)
    requires var once := Repeated(codec, text, r, 1); !Readable(codec, once) || Logged(codec, once, r.recordSha)
    ensures Repeated(codec, text, r, k + 1) == Repeated(codec, text, r, 1)
  {
    hide Readable; hide Logged;
    if k > 0 { StaysPut(codec, text, r, k - 1); }
  }
}
