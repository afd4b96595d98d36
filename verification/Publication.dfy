/** Run directories: a writer fills a hidden temporary directory, validates it and
    renames it into place.  Every atomic step on the disk is kept in a ghost history,
    so a crash is any entry of that history. */
module Publication {
  import opened Wrappers
  import opened Artifacts

  /** What a name in the run root stands for. */
  datatype Entry = Folder(files: Tree) | Plain

  type Entries = map<string, Entry>

  class RunRoot {
    var entries: Entries
    ghost var history: seq<Entries>

    constructor (entries: Entries)
      ensures Valid() && this.entries == entries && history == [entries]
    {
      this.entries, history := entries, [entries];
    }

    ghost predicate Valid()
      reads this
    {
      history != [] && history[|history| - 1] == entries
    }

    /** One step the file system makes atomically. */
    method Commit(next: Entries)
      requires Valid()
      modifies this
      ensures Valid() && entries == next && history == old(history) + [next]
    {
      entries, history := next, history + [next];
    }
  }

  datatype Fault = InvalidRunId | TargetExists | StaleTemporary | NotJson | MissingArtifacts | Refused(refusal: Refusal)

  // ----------------------------------------------------------------------- run ids

  predicate IdChar(c: char) {
    'A' <= c <= 'Z' || 'a' <= c <= 'z' || '0' <= c <= '9' || c == '_' || c == '.' || c == '-'
  }

  function Upper(s: string): string {
    if s == [] then [] else
      Upper(s[..|s| - 1]) + [if 'a' <= s[|s| - 1] <= 'z' then s[|s| - 1] - 'a' + 'A' else s[|s| - 1]]
  }

  /** Everything before the first dot. */
  function Stem(s: string): string {
    if s == [] || s[0] == '.' then [] else [s[0]] + Stem(s[1..])
  }

  predicate Reserved(stem: string) {
    stem in {"CON", "PRN", "AUX", "NUL"}
    || (|stem| == 4 && (stem[..3] == "COM" || stem[..3] == "LPT") && '1' <= stem[3] <= '9')
  }

  predicate TwoDots(id: string) {
    exists i | 0 <= i < |id| - 1 :: id[i] == '.' && id[i + 1] == '.'
  }

  predicate ValidRunId(id: string) {
    && id != [] && (forall c | c in id :: IdChar(c))
    && !TwoDots(id)
    && !Reserved(Upper(Stem(id))) && id != "." && id[|id| - 1] != '.'
  }

  /** A letter, a digit, `_`, `.` or `-`, by code. */
  predicate Allowed(c: char) {
    var code := c as int;
    65 <= code <= 90 || 97 <= code <= 122 || 48 <= code <= 57 || code == 95 || code == 46 || code == 45
  }

  /** The same letter, whatever its case. */
  predicate SameLetter(c: char, capital: char) {
    c == capital || ('A' <= capital <= 'Z' && c as int == capital as int + 32)
  }

  predicate SameLetters(s: string, capitals: string) {
    |s| == |capitals| && forall i | 0 <= i < |s| :: SameLetter(s[i], capitals[i])
  }

  /** A device name, on its own or before a dot, in any case. */
  ghost predicate NamesDevice(id: string) {
    exists device | device in {"CON", "PRN", "AUX", "NUL", "COM1", "COM2", "COM3", "COM4", "COM5", "COM6", "COM7", "COM8",
                               "COM9", "LPT1", "LPT2", "LPT3", "LPT4", "LPT5", "LPT6", "LPT7", "LPT8", "LPT9"} ::
      SameLetters(Stem(id), device)
  }

  /** What a run id is refused for. */
  ghost predicate BadRunId(id: string) {
    || id == [] || (exists c | c in id :: !Allowed(c))
    || (exists i | 0 <= i < |id| :: ".." <= id[i..])
    || NamesDevice(id) || id[|id| - 1] == '.'
  }

  /** The stem is the id up to its first dot. */
  lemma {:induction false} StemMeans(id: string)
    ensures Stem(id) <= id && '.' !in Stem(id)
    ensures Stem(id) == id || id[|Stem(id)|] == '.'
  {
    if id != [] && id[0] != '.' {
      StemMeans(id[1..]);
      assert id == [id[0]] + id[1..];
    }
  }

  lemma {:induction false} UpperAt(s: string)
    ensures |Upper(s)| == |s|
    ensures forall i | 0 <= i < |s| :: Upper(s)[i] == if 'a' <= s[i] <= 'z' then s[i] - 'a' + 'A' else s[i]
  {
    if s != [] { UpperAt(s[..|s| - 1]); }
  }

  lemma UpperIs(s: string, device: string)
    requires forall c | c in device :: 'A' <= c <= 'Z' || '0' <= c <= '9'
    ensures Upper(s) == device <==> SameLetters(s, device)
  {
    UpperAt(s);
    assert forall i | 0 <= i < |device| :: device[i] in device;
  }

  lemma DeviceIff(id: string)
    ensures Reserved(Upper(Stem(id))) <==> NamesDevice(id)
  {
    var devices := {"CON", "PRN", "AUX", "NUL", "COM1", "COM2", "COM3", "COM4", "COM5", "COM6", "COM7", "COM8",
                    "COM9", "LPT1", "LPT2", "LPT3", "LPT4", "LPT5", "LPT6", "LPT7", "LPT8", "LPT9"};
    ReservedIs(Upper(Stem(id)));
    hide Reserved; hide Upper; hide Stem; hide SameLetters;
    forall device | device in devices ensures Upper(Stem(id)) == device <==> SameLetters(Stem(id), device) {
      UpperIs(Stem(id), device);
    }
  }

  lemma ReservedIs(stem: string)
    ensures Reserved(stem) <==> stem in {"CON", "PRN", "AUX", "NUL", "COM1", "COM2", "COM3", "COM4", "COM5", "COM6", "COM7",
      "COM8", "COM9", "LPT1", "LPT2", "LPT3", "LPT4", "LPT5", "LPT6", "LPT7", "LPT8", "LPT9"}
  {
    if |stem| == 4 {
      assert stem == stem[..3] + [stem[3]];
      if '1' <= stem[3] <= '9' { OneOfNine(stem[..3], stem[3]); }
    }
    assert "COM" + "1" == "COM1" && "COM" + "2" == "COM2" && "COM" + "3" == "COM3" && "COM" + "4" == "COM4"
        && "COM" + "5" == "COM5" && "COM" + "6" == "COM6" && "COM" + "7" == "COM7" && "COM" + "8" == "COM8"
        && "COM" + "9" == "COM9";
    assert "LPT" + "1" == "LPT1" && "LPT" + "2" == "LPT2" && "LPT" + "3" == "LPT3" && "LPT" + "4" == "LPT4"
        && "LPT" + "5" == "LPT5" && "LPT" + "6" == "LPT6" && "LPT" + "7" == "LPT7" && "LPT" + "8" == "LPT8"
        && "LPT" + "9" == "LPT9";
  }

  lemma OneOfNine(prefix: string, digit: char)
    requires '1' <= digit <= '9'
    ensures prefix + [digit] in {prefix + "1", prefix + "2", prefix + "3", prefix + "4", prefix + "5", prefix + "6",
                                 prefix + "7", prefix + "8", prefix + "9"}
  {
    assert digit in {'1', '2', '3', '4', '5', '6', '7', '8', '9'};
  }

  lemma TwoDotsIff(id: string)
    ensures TwoDots(id) <==> exists i | 0 <= i < |id| :: ".." <= id[i..]
  {
    if TwoDots(id) {
      var i :| 0 <= i < |id| - 1 && id[i] == '.' && id[i + 1] == '.';
      assert id[i..][..2] == "..";
    }
    if i :| 0 <= i < |id| && ".." <= id[i..] {
      assert id[i] == id[i..][0] && id[i + 1] == id[i..][1];
    }
  }

  lemma ValidRunIdIff(id: string)
    ensures ValidRunId(id) <==> !BadRunId(id)
  {
    DeviceIff(id);
    TwoDotsIff(id);
    hide Reserved; hide Upper; hide NamesDevice; hide TwoDots;
    assert forall c :: IdChar(c) <==> Allowed(c);
  }

  // ------------------------------------------------------------------ temporary names

  /** The names the writer's own conflict check and the scan look for. */
  function TempName(runId: string, suffix: string): string {
    "." + runId + "." + suffix
  }

  /** What the scan's pattern reads as the run id: all between the leading dot and
      the last one, when something follows each. */
  function ReadRunId(name: string): Option<string> {
    if |name| < 4 || name[0] != '.' then None
    else
      var dot := LastDot(name);
      if 2 <= dot < |name| - 1 then Some(name[1..dot]) else None
  }

  function LastDot(name: string): (at: int)
    ensures -1 <= at < |name|
    ensures at >= 0 ==> name[at] == '.'
    ensures forall i | at < i < |name| :: name[i] != '.'
  {
    if name == [] then -1
    else if name[|name| - 1] == '.' then |name| - 1
    else LastDot(name[..|name| - 1])
  }

  /** A random suffix holds no dot. */
  predicate Suffix(suffix: string) {
    suffix != [] && '.' !in suffix
  }

  lemma TailHasNoDot(other: string, suffix: string)
    requires Suffix(suffix)
    ensures forall i | |other| + 1 < i < |TempName(other, suffix)| :: TempName(other, suffix)[i] != '.'
  {
    var name := TempName(other, suffix);
    forall i | |other| + 1 < i < |name| ensures name[i] != '.' {
      assert name[i] == suffix[i - |other| - 2];
      assert name[i] in suffix;
    }
  }

  lemma TempNameReadsBack(runId: string, suffix: string)
    requires runId != [] && Suffix(suffix)
    ensures ReadRunId(TempName(runId, suffix)) == Some(runId)
  {
    var name := TempName(runId, suffix);
    var dot := |runId| + 1;
    assert name[dot] == '.';
    TailHasNoDot(runId, suffix);
    assert LastDot(name) == dot;
    assert name[1..dot] == runId;
  }

  // -------------------------------------------------------------------- state markers

  const REQUIRED: seq<string> := [
    MANIFEST, "config.snapshot.json", "environment.json", "qualification.json", "safety.json",
    "metrics.json", "events.json", "samples.json", KEEP]
  const KEEP := "logs/.keep"

  const RUNNING := "RUNNING"
  const READY := "READY_TO_PUBLISH"
  const PUBLISHED := "PUBLISHED"
  const ABORTED := "ABORTED"

  predicate Complete(files: Tree) {
    forall name | name in REQUIRED :: name in files
  }

  function Marker(runId: string, status: string, time: string, reason: Option<string>): Json {
    var payload := map["run_id" := Str(runId), "status" := Str(status), "updated_at" := Str(time)];
    Obj(if reason.Some? then payload["reason" := Str(reason.value)] else payload)
  }

  function Metadata(tools: Tools, files: Tree): Fields {
    if STATE !in files then map[]
    else
      match tools.parse(files[STATE])
      case None => map["marker_error" := Str("unreadable")]
      case Some(Obj(fields)) => fields
      case Some(_) => map[]
  }

  function WithMarker(tools: Tools, files: Tree, runId: string, status: string, time: string, reason: Option<string>): Tree {
    files[STATE := tools.encode(Marker(runId, status, time, reason))]
  }

  /** What a written marker reads back as. */
  lemma MarkerReadsBack(tools: Tools, files: Tree, runId: string, status: string, time: string, reason: Option<string>)
    requires ReadsBack(tools)
    ensures var metadata := Metadata(tools, WithMarker(tools, files, runId, status, time, reason));
      && Lookup(metadata, "run_id") == Str(runId) && Lookup(metadata, "status") == Str(status)
      && Lookup(metadata, "updated_at") == Str(time)
      && Lookup(metadata, "reason") == if reason.Some? then Str(reason.value) else Null
  {
    var marker := Marker(runId, status, time, reason);
    assert Canonical(Str(runId)) && Canonical(Str(status)) && Canonical(Str(time));
    assert reason.Some? ==> Canonical(Str(reason.value));
    assert tools.parse(tools.encode(marker)) == Some(marker);
  }

  // ------------------------------------------------------------------------- the scan

  datatype Report = Report(path: string, runId: string, missing: seq<string>)

  predicate Truthy(j: Json) {
    match j
    case Null => false
    case Bool(b) => b
    case Num(mantissa, _) => mantissa != 0
    case NonFinite => true
    case Str(s) => s != []
    case Arr(items) => items != []
    case Obj(fields) => fields != map[]
  }

  function Shown(tools: Tools, j: Json): string {
    if j.Str? then j.s else tools.show(j)
  }

  function Missing(files: Tree, names: seq<string>): seq<string> {
    Keep(names, (set name | name in names && name !in files))
  }

  /** What the scan says about one name of the run root. */
  function Scanned(tools: Tools, name: string, entry: Entry): Option<Report> {
    if entry.Plain? || ReadRunId(name).None? then None
    else
      var metadata := Metadata(tools, entry.files);
      if Lookup(metadata, "status") == Str(PUBLISHED) then None
      else
        var given := Lookup(metadata, "run_id");
        Some(Report(name, if Truthy(given) then Shown(tools, given) else ReadRunId(name).value,
                    Missing(entry.files, REQUIRED)))
  }

  function ScannedNames(tools: Tools, entries: Entries): set<string> {
    set name | name in entries && Scanned(tools, name, entries[name]).Some?
  }

  function Paths(reports: seq<Report>): seq<string> {
    seq(|reports|, i requires 0 <= i < |reports| => reports[i].path)
  }

  // ----------------------------------------------------------------- what a scan says

  /** The place of a required artifact in the list, nine for any other name. */
  function RequiredAt(name: string): nat {
    if name == "manifest.json" then 0
    else if name == "config.snapshot.json" then 1
    else if name == "environment.json" then 2
    else if name == "qualification.json" then 3
    else if name == "safety.json" then 4
    else if name == "metrics.json" then 5
    else if name == "events.json" then 6
    else if name == "samples.json" then 7
    else if name == "logs/.keep" then 8
    else 9
  }

  /** The required artifacts that are not there, each once and in the order of the list. */
  ghost predicate MissingOf(files: Tree, missing: seq<string>) {
    && (forall name :: name in missing <==> RequiredAt(name) < 9 && name !in files)
    && (forall i, j | 0 <= i < j < |missing| :: RequiredAt(missing[i]) < RequiredAt(missing[j]))
  }

  lemma RequiredMeans()
    ensures forall name :: name in REQUIRED <==> RequiredAt(name) < 9
    ensures forall i, j | 0 <= i < j < |REQUIRED| :: RequiredAt(REQUIRED[i]) < RequiredAt(REQUIRED[j])
  {
    forall name ensures name in REQUIRED <==> RequiredAt(name) < 9 {
      if RequiredAt(name) < 9 { assert REQUIRED[RequiredAt(name)] == name; }
    }
  }

  lemma {:induction false} KeptMeans(names: seq<string>, kept: set<string>)
    requires forall i, j | 0 <= i < j < |names| :: RequiredAt(names[i]) < RequiredAt(names[j])
    ensures forall name :: name in Keep(names, kept) <==> name in names && name in kept
    ensures forall i, j | 0 <= i < j < |Keep(names, kept)| ::
      RequiredAt(Keep(names, kept)[i]) < RequiredAt(Keep(names, kept)[j])
  {
    hide RequiredAt;
    if names != [] {
      var n := |names| - 1;
      KeptMeans(names[..n], kept);
      assert forall name :: name in names <==> name in names[..n] || name == names[n] by { assert names == names[..n] + [names[n]]; }
      var before := Keep(names[..n], kept);
      forall i | 0 <= i < |before| ensures RequiredAt(before[i]) < RequiredAt(names[n]) {
        assert before[i] in before;
        var k :| 0 <= k < n && names[k] == before[i];
      }
    }
  }

  lemma MissingMeans(files: Tree)
    ensures MissingOf(files, Missing(files, REQUIRED))
    ensures Complete(files) <==> forall name | RequiredAt(name) < 9 :: name in files
  {
    RequiredMeans();
    hide RequiredAt;
    KeptMeans(REQUIRED, (set name | name in REQUIRED && name !in files));
  }

  /** The directory's marker is an object that says the run is published. */
  predicate SaysPublished(tools: Tools, files: Tree) {
    && ".run-state.json" in files && tools.parse(files[".run-state.json"]).Some?
    && var marker := tools.parse(files[".run-state.json"]).value;
      marker.Obj? && "status" in marker.fields && marker.fields["status"] == Str("PUBLISHED")
  }

  /** The marker names a run: a value Python takes for true. */
  predicate NamesRun(tools: Tools, files: Tree) {
    && ".run-state.json" in files && tools.parse(files[".run-state.json"]).Some?
    && var marker := tools.parse(files[".run-state.json"]).value;
      && marker.Obj? && "run_id" in marker.fields
      && marker.fields["run_id"] !in {Null, Bool(false), Str([]), Arr([]), Obj(map[])}
      && !(marker.fields["run_id"].Num? && marker.fields["run_id"].mantissa == 0)
  }

  ghost predicate TemporaryNameOf(name: string, runId: string) {
    exists suffix: string :: runId != [] && suffix != [] && '.' !in suffix && name == "." + runId + "." + suffix
  }

  /** A directory named like a writer's whose marker does not say it is published. */
  ghost predicate Abandoned(tools: Tools, name: string, entry: Entry) {
    entry.Folder? && (exists runId: string :: TemporaryNameOf(name, runId)) && !SaysPublished(tools, entry.files)
  }

  /** The run id the marker names, or else the one in the directory's name. */
  ghost predicate Reported(tools: Tools, entries: Entries, r: Report) {
    && r.path in entries && entries[r.path].Folder?
    && var files := entries[r.path].files;
      && MissingOf(files, r.missing)
      && if NamesRun(tools, files) then
           var given := tools.parse(files[".run-state.json"]).value.fields["run_id"];
           r.runId == if given.Str? then given.s else tools.show(given)
         else TemporaryNameOf(r.path, r.runId)
  }

  /** A name reads back as the run id it was made from, and as nothing else. */
  lemma ReadRunIdIff(name: string, runId: string)
    ensures ReadRunId(name) == Some(runId) <==> TemporaryNameOf(name, runId)
  {
    if ReadRunId(name) == Some(runId) {
      var dot := LastDot(name);
      var suffix := name[dot + 1..];
      assert '.' !in suffix;
      assert name == "." + runId + "." + suffix;
    }
    if suffix :| runId != [] && suffix != [] && '.' !in suffix && name == "." + runId + "." + suffix {
      TempNameReadsBack(runId, suffix);
    }
  }

  lemma ScannedMeans(tools: Tools, entries: Entries, name: string)
    requires name in entries
    ensures Scanned(tools, name, entries[name]).Some? <==> Abandoned(tools, name, entries[name])
    ensures Scanned(tools, name, entries[name]).Some? ==>
      Scanned(tools, name, entries[name]).value.path == name && Reported(tools, entries, Scanned(tools, name, entries[name]).value)
  {
    forall runId: string ensures ReadRunId(name) == Some(runId) <==> TemporaryNameOf(name, runId) { ReadRunIdIff(name, runId); }
    if entries[name].Folder? { MissingMeans(entries[name].files); }
    hide ReadRunId; hide Missing; hide MissingOf; hide TemporaryNameOf; hide RequiredAt;
  }

  /** Reports each directory that looks like a writer's and is not published, once, in
      name order, and changes nothing. */
  method ScanAbandonedRuns(tools: Tools, entries: Entries) returns (reports: seq<Report>)
    requires Orders(tools.order)
    ensures Paths(reports) == Keep(tools.order(entries.Keys), ScannedNames(tools, entries))
    ensures forall r | r in reports :: r.path in entries && Scanned(tools, r.path, entries[r.path]) == Some(r)
    ensures Paths(reports) == tools.order(set name | name in entries && Abandoned(tools, name, entries[name]))
    ensures forall r | r in reports :: Reported(tools, entries, r)
  {
    forall name | name in entries
      ensures Scanned(tools, name, entries[name]).Some? <==> Abandoned(tools, name, entries[name])
      ensures Scanned(tools, name, entries[name]).Some? ==> Reported(tools, entries, Scanned(tools, name, entries[name]).value)
    {
      ScannedMeans(tools, entries, name);
    }
    hide Scanned; hide Abandoned; hide Reported;
    assert entries.Keys * ScannedNames(tools, entries) == set name | name in entries && Abandoned(tools, name, entries[name]);
    var names := tools.order(entries.Keys);
    OrderLists(tools, entries.Keys);
    reports := [];
    for i := 0 to |names|
      invariant Paths(reports) == Keep(names[..i], ScannedNames(tools, entries))
      invariant forall r | r in reports :: r.path in entries && Scanned(tools, r.path, entries[r.path]) == Some(r)
    {
      assert names[..i + 1][..i] == names[..i];
      var scanned := Scanned(tools, names[i], entries[names[i]]);
      if scanned.Some? {
        reports := reports + [scanned.value];
      }
    }
    assert names[..|names|] == names;
  }

  /** A writer's directory is reported under its exact run id exactly when its marker
      is neither a published one nor names another run. */
  lemma TemporaryReportedIff(tools: Tools, runId: string, suffix: string, files: Tree)
    requires runId != [] && Suffix(suffix)
    ensures var scanned := Scanned(tools, TempName(runId, suffix), Folder(files));
      var metadata := Metadata(tools, files);
      (scanned.Some? && scanned.value.runId == runId) <==>
      (&& Lookup(metadata, "status") != Str(PUBLISHED)
       && (Truthy(Lookup(metadata, "run_id")) ==> Shown(tools, Lookup(metadata, "run_id")) == runId))
  {
    TempNameReadsBack(runId, suffix);
  }

  /** Nothing stops a caller from writing the marker like any other artifact; one that
      says the run is published hides an unfinished directory from the scan. */
  lemma ForgedMarkerHidesRun(tools: Tools, runId: string, suffix: string, files: Tree, time: string)
    requires ReadsBack(tools) && runId != [] && Suffix(suffix)
    ensures Scanned(tools, TempName(runId, suffix), Folder(WithMarker(tools, files, runId, PUBLISHED, time, None))).None?
  {
    MarkerReadsBack(tools, files, runId, PUBLISHED, time, None);
  }

  // ----------------------------------------------------------------- what a crash leaves

  /** The marker of a directory still being written, if any, is its writer's own. */
  ghost predicate OwnMarker(tools: Tools, runId: string, files: Tree) {
    STATE in files ==>
      && Lookup(Metadata(tools, files), "run_id") == Str(runId)
      && Lookup(Metadata(tools, files), "status") != Str(PUBLISHED)
  }

  ghost predicate Intact(tools: Tools, runId: string, tmp: string, entries: Entries)
    requires Orders(tools.order)
  {
    && (runId in entries ==>
         entries[runId].Folder? && Complete(entries[runId].files) && RuntimeManifestOk(tools, entries[runId].files))
    && (tmp in entries ==> entries[tmp].Folder?)
  }

  ghost predicate Owned(tools: Tools, runId: string, tmp: string, entries: Entries) {
    tmp in entries && entries[tmp].Folder? ==> OwnMarker(tools, runId, entries[tmp].files)
  }

  /** Every state the disk went through since step `start` was safe to crash in. */
  ghost predicate Kept(tools: Tools, runId: string, tmp: string, start: nat, own: bool, history: seq<Entries>)
    requires Orders(tools.order)
  {
    start < |history| && forall i | start <= i < |history| ::
      Intact(tools, runId, tmp, history[i]) && (own ==> Owned(tools, runId, tmp, history[i]))
  }

  lemma KeptNext(tools: Tools, runId: string, tmp: string, start: nat, own: bool, history: seq<Entries>, next: Entries)
    requires Orders(tools.order)
    requires start == |history| || Kept(tools, runId, tmp, start, own, history)
    requires Intact(tools, runId, tmp, next) && (own ==> Owned(tools, runId, tmp, next))
    ensures Kept(tools, runId, tmp, start, own, history + [next])
  {
    hide Intact; hide Owned;
  }

  lemma ExtendsNext(earlier: seq<Entries>, history: seq<Entries>, next: Entries, touched: set<string>)
    requires Extends(earlier, history, touched)
    requires next - touched == history[|history| - 1] - touched
    ensures Extends(earlier, history + [next], touched)
  {
    var last := history[|history| - 1];
    forall name | name !in touched ensures (name in next <==> name in last) && (name in last ==> next[name] == last[name]) {
      assert name in next <==> name in next - touched;
      assert name in last <==> name in last - touched;
      if name in last { assert (next - touched)[name] == next[name] && (last - touched)[name] == last[name]; }
    }
    if |history| > |earlier| { assert history[|history| - 1] == last; }
  }

  /** `later` continues `earlier` and touches only the given names. */
  ghost predicate Extends(earlier: seq<Entries>, later: seq<Entries>, touched: set<string>) {
    && earlier != [] && earlier <= later
    && forall i, name | |earlier| <= i < |later| && name !in touched ::
      var last := earlier[|earlier| - 1];
      (name in later[i] <==> name in last) && (name in last ==> later[i][name] == last[name])
  }

  /** Whatever other writers do under other names cannot spoil a writer's history. */
  lemma OtherWritersKeep(tools: Tools, runId: string, tmp: string, start: nat, own: bool,
                         earlier: seq<Entries>, later: seq<Entries>, touched: set<string>)
    requires Orders(tools.order) && Kept(tools, runId, tmp, start, own, earlier)
    requires Extends(earlier, later, touched) && runId !in touched && tmp !in touched
    ensures Kept(tools, runId, tmp, start, own, later)
  {
    var last := earlier[|earlier| - 1];
    assert Intact(tools, runId, tmp, last) && (own ==> Owned(tools, runId, tmp, last));
    forall i | start <= i < |later|
      ensures Intact(tools, runId, tmp, later[i]) && (own ==> Owned(tools, runId, tmp, later[i]))
    {
      if i < |earlier| { assert later[i] == earlier[i]; }
    }
  }

  /** The publication theorem: stop the disk after any step.  A target directory holds
      every required artifact, and a runtime one an index and digests that verify; a
      temporary directory is reported by the scan under its exact run id, and so
      carries no published marker. */
  lemma CrashAnywhere(tools: Tools, runId: string, suffix: string, start: nat, history: seq<Entries>, crash: nat)
    requires Orders(tools.order) && runId != [] && Suffix(suffix)
    requires Kept(tools, runId, TempName(runId, suffix), start, true, history)
    requires start <= crash < |history|
    ensures var left, tmp := history[crash], TempName(runId, suffix);
      && (runId in left ==> left[runId].Folder? && Complete(left[runId].files) && RuntimeManifestOk(tools, left[runId].files))
      && (tmp in left ==>
           && Scanned(tools, tmp, left[tmp]).Some? && Scanned(tools, tmp, left[tmp]).value.runId == runId
           && left[tmp].Folder? && Lookup(Metadata(tools, left[tmp].files), "status") != Str(PUBLISHED))
  {
    var left, tmp := history[crash], TempName(runId, suffix);
    assert Intact(tools, runId, tmp, left) && Owned(tools, runId, tmp, left);
    if tmp in left { TemporaryReportedIff(tools, runId, suffix, left[tmp].files); }
  }

  // ----------------------------------------------------------------------- the writer

  /** A hidden directory whose name begins as this run's temporary ones do. */
  predicate Stale(entries: Entries, runId: string) {
    exists name | name in entries :: Blocks(name, entries[name], runId)
  }

  predicate Blocks(name: string, entry: Entry, runId: string) {
    entry.Folder? && "." + runId + "." <= name
  }

  /** Which writers' directories are in a run's way: its own, and those of every run
      whose id continues this one after a dot, so `a` waits for `.a.b.xyz`. */
  lemma BlockedIff(other: string, suffix: string, files: Tree, runId: string)
    requires Suffix(suffix)
    ensures Blocks(TempName(other, suffix), Folder(files), runId) <==> runId == other || runId + "." <= other
  {
    if runId == other {
      BeginsWith("." + runId + ".", suffix);
    } else if runId + "." <= other {
      LongerIdBlocks(other, suffix, runId);
    }
    if "." + runId + "." <= TempName(other, suffix) { BlockedBy(other, suffix, runId); }
  }

  lemma BeginsWith(start: string, rest: string)
    ensures start <= start + rest
  {
    assert (start + rest)[..|start|] == start;
  }

  lemma LongerIdBlocks(other: string, suffix: string, runId: string)
    requires runId + "." <= other
    ensures "." + runId + "." <= TempName(other, suffix)
  {
    var rest := other[|runId| + 1..] + "." + suffix;
    assert other == runId + "." + other[|runId| + 1..];
    assert TempName(other, suffix) == ("." + runId + ".") + rest;
    BeginsWith("." + runId + ".", rest);
  }

  lemma BlockedBy(other: string, suffix: string, runId: string)
    requires Suffix(suffix) && "." + runId + "." <= TempName(other, suffix)
    ensures runId == other || runId + "." <= other
  {
    var name, at := TempName(other, suffix), |runId| + 1;
    assert name[at] == '.' by { assert ("." + runId + ".")[at] == '.'; }
    TailHasNoDot(other, suffix);
    assert at <= |other| + 1;
    assert other == name[1..|other| + 1];
    assert runId == name[1..at] == other[..|runId|] by { assert ("." + runId + ".")[1..at] == runId; }
    if |runId| < |other| { assert other[|runId|] == name[at]; }
  }

  /** A second run that opens beside an open one has names of its own, except when the
      first run's id is the very name the second one's directory gets. */
  lemma WritersApartIff(entries: Entries, a: string, aSuffix: string, b: string, bSuffix: string)
    requires a !in entries && TempName(a, aSuffix) in entries && entries[TempName(a, aSuffix)].Folder?
    requires b !in entries && TempName(b, bSuffix) !in entries && !Stale(entries, b)
    ensures {a, TempName(a, aSuffix)} !! {b, TempName(b, bSuffix)} <==> a != TempName(b, bSuffix)
  {
    var tmp := TempName(a, aSuffix);
    assert tmp != b && tmp != TempName(b, bSuffix);
    assert !Blocks(tmp, entries[tmp], b);
    assert ("." + a + ".") + aSuffix == tmp;
  }

  /** So the second run, opened and stepped through anyhow, keeps what the first one
      was promised exactly when the two names differ. */
  lemma SecondWriterKeepsIff(tools: Tools, a: string, aSuffix: string, start: nat, own: bool, earlier: seq<Entries>,
                             b: string, bSuffix: string, later: seq<Entries>)
    requires Orders(tools.order) && Kept(tools, a, TempName(a, aSuffix), start, own, earlier)
    requires var entries := earlier[|earlier| - 1];
      && a !in entries && TempName(a, aSuffix) in entries
      && b !in entries && TempName(b, bSuffix) !in entries && !Stale(entries, b)
    requires Extends(earlier, later, {TempName(b, bSuffix), b})
    requires |later| > |earlier| && later[|earlier|] == earlier[|earlier| - 1][TempName(b, bSuffix) := Folder(map[])]
    ensures Kept(tools, a, TempName(a, aSuffix), start, own, later) <==> a != TempName(b, bSuffix)
  {
    var entries, tmp := earlier[|earlier| - 1], TempName(a, aSuffix);
    assert Intact(tools, a, tmp, entries);
    if a != TempName(b, bSuffix) {
      WritersApartIff(entries, a, aSuffix, b, bSuffix);
      OtherWritersKeep(tools, a, tmp, start, own, earlier, later, {TempName(b, bSuffix), b});
    } else {
      var begun := later[|earlier|];
      assert begun[a] == Folder(map[]);
      assert REQUIRED[0] in REQUIRED;
      assert !Intact(tools, a, tmp, begun);
    }
  }

  /** Such an id is a valid one. */
  lemma TemporaryNameIsRunId()
    ensures ValidRunId("b") && ValidRunId(TempName("b", "abc"))
  {
    assert TempName("b", "abc") == ".b.abc";
  }

  class ArtifactWriter {
    const root: RunRoot
    const tools: Tools
    const runId: string
    const tmp: string
    const abandoned: seq<Report>
    ghost const suffix: string
    ghost const start: nat
    /** The state marker was only ever written by this writer. */
    ghost var own: bool

    ghost predicate Valid()
      reads this, root
    {
      && root.Valid() && Orders(tools.order) && ReadsBack(tools)
      && runId != [] && Suffix(suffix) && tmp == TempName(runId, suffix)
      && Kept(tools, runId, tmp, start, own, root.history)
    }

    constructor (root: RunRoot, tools: Tools, runId: string, suffix: string, abandoned: seq<Report>, time: string)
      requires root.Valid() && Orders(tools.order) && ReadsBack(tools)
      requires runId != [] && Suffix(suffix) && runId !in root.entries && TempName(runId, suffix) !in root.entries
      modifies root
      ensures Valid() && own && this.root == root && this.runId == runId && this.tools == tools
      ensures start == old(|root.history|) && tmp == TempName(runId, suffix) && this.abandoned == abandoned
      ensures Extends(old(root.history), root.history, {tmp, runId})
      ensures root.entries == old(root.entries)[tmp := Folder(
        WithMarker(tools, map["logs/.keep" := []], runId, "RUNNING", time, Some("writer_created")))]
    {
      this.root, this.tools, this.runId, this.suffix, this.abandoned := root, tools, runId, suffix, abandoned;
      tmp := TempName(runId, suffix);
      start := |root.history|;
      own := true;
      new;
      NotRunIdOf(runId, suffix);
      MarkerReadsBack(tools, map[KEEP := []], runId, RUNNING, time, Some("writer_created"));
      Step(Folder(map[]), old(root.history));
      Step(Folder(map[KEEP := []]), old(root.history));
      Step(Folder(WithMarker(tools, map[KEEP := []], runId, RUNNING, time, Some("writer_created"))), old(root.history));
    }

    /** One step that leaves the temporary directory as `next`. */
    method Step(next: Entry, ghost earlier: seq<Entries>)
      requires root.Valid() && Orders(tools.order) && ReadsBack(tools)
      requires tmp != runId && next.Folder? && (own ==> OwnMarker(tools, runId, next.files))
      requires Extends(earlier, root.history, {tmp, runId})
      requires if start == |root.history| then runId !in root.entries else Kept(tools, runId, tmp, start, own, root.history)
      modifies root
      ensures root.Valid() && root.entries == old(root.entries)[tmp := next]
      ensures root.history == old(root.history) + [root.entries]
      ensures Kept(tools, runId, tmp, start, own, root.history)
      ensures Extends(earlier, root.history, {tmp, runId})
    {
      ghost var now, after := root.entries, root.entries[tmp := next];
      if start != |root.history| { assert Intact(tools, runId, tmp, root.history[|root.history| - 1]); }
      KeptNext(tools, runId, tmp, start, own, root.history, after);
      assert after - {tmp, runId} == now - {tmp, runId};
      ExtendsNext(earlier, root.history, after, {tmp, runId});
      root.Commit(root.entries[tmp := next]);
    }

    /** The files of the temporary directory; writing recreates it when it is gone. */
    function Files(): Tree
      reads this, root
      requires Valid()
    {
      if tmp in root.entries then root.entries[tmp].files else map[]
    }

    method WriteState(status: string, time: string, reason: Option<string>)
      requires Valid() && status != PUBLISHED
      modifies root
      ensures Valid() && Extends(old(root.history), root.history, {tmp, runId})
      ensures root.entries == old(root.entries)[tmp := Folder(WithMarker(tools, old(Files()), runId, status, time, reason))]
    {
      NotRunIdOf(runId, suffix);
      MarkerReadsBack(tools, Files(), runId, status, time, reason);
      Step(Folder(WithMarker(tools, Files(), runId, status, time, reason)), root.history);
    }

    /** Writes one artifact, or refuses a value canonical JSON cannot hold. */
    method WriteJson(name: string, value: Json) returns (r: Result<(), Fault>)
      requires Valid()
      modifies root, this`own
      ensures Valid() && Extends(old(root.history), root.history, {tmp, runId})
      ensures r.Ok? <==> Canonical(value)
      ensures r.Err? ==> r.error == NotJson && root.entries == old(root.entries) && root.history == old(root.history)
      ensures r.Ok? ==> root.entries == old(root.entries)[tmp := Folder(old(Files())[name := tools.encode(value)])]
      ensures own == (old(own) && (r.Ok? && name == STATE ==> OwnMarker(tools, runId, Files())))
    {
      if !Canonical(value) { return Err(NotJson); }
      NotRunIdOf(runId, suffix);
      ghost var marker := OwnMarker(tools, runId, Files()[name := tools.encode(value)]);
      if name != STATE { OtherFileKeepsMarker(tools, runId, Files(), name, tools.encode(value)); }
      assert tmp in root.entries ==> Owned(tools, runId, tmp, root.history[|root.history| - 1]) || !own;
      own := own && (name == STATE ==> marker);
      Step(Folder(Files()[name := tools.encode(value)]), root.history);
      return Ok(());
    }

    /** Publishes the run, or says why not and changes nothing. */
    method Finalize(readyTime: string, publishTime: string) returns (r: Result<(), Fault>)
      requires Valid()
      modifies root
      ensures Valid() && Extends(old(root.history), root.history, {tmp, runId})
      ensures r.Ok? <==> runId !in old(root.entries) && Complete(old(Files())) && RuntimeManifestOk(tools, old(Files()))
      ensures r.Err? ==> root.entries == old(root.entries) && root.history == old(root.history)
      ensures r.Err? && runId in old(root.entries) ==> r.error == TargetExists
      ensures r.Err? && runId !in old(root.entries) && !Complete(old(Files())) ==> r.error == MissingArtifacts
      ensures r.Ok? ==>
        var ready := WithMarker(tools, old(Files()), runId, "READY_TO_PUBLISH", readyTime, Some("artifact_validation_passed"));
        && root.entries == (old(root.entries) - {tmp})[runId := Folder(WithMarker(tools, ready, runId, "PUBLISHED", publishTime, None))]
        && Lookup(Metadata(tools, root.entries[runId].files), "status") == Str("PUBLISHED")
        && RuntimeManifestOk(tools, root.entries[runId].files)
    {
      if runId in root.entries { return Err(TargetExists); }
      if !Complete(Files()) { return Err(MissingArtifacts); }
      var refusal := ValidateRuntimeManifest(tools, Files());
      if refusal.Some? { return Err(Refused(refusal.value)); }
      Publish(readyTime, publishTime);
      return Ok(());
    }

    /** The three steps of a publication that nothing stands in the way of. */
    method Publish(readyTime: string, publishTime: string)
      requires Valid() && runId !in root.entries && Complete(Files()) && RuntimeManifestOk(tools, Files())
      modifies root
      ensures Valid() && Extends(old(root.history), root.history, {tmp, runId})
      ensures var ready := WithMarker(tools, old(Files()), runId, "READY_TO_PUBLISH", readyTime, Some("artifact_validation_passed"));
        && root.entries == (old(root.entries) - {tmp})[runId := Folder(WithMarker(tools, ready, runId, "PUBLISHED", publishTime, None))]
        && Lookup(Metadata(tools, root.entries[runId].files), "status") == Str("PUBLISHED")
        && RuntimeManifestOk(tools, root.entries[runId].files)
    {
      hide Complete; hide RuntimeManifestOk; hide Metadata; hide WithMarker; hide Kept; hide Extends;
      ghost var earlier := root.history;
      NotRunIdOf(runId, suffix);
      MarkerKeepsPackage(tools, Files(), runId, READY, readyTime, Some("artifact_validation_passed"));
      WriteState(READY, readyTime, Some("artifact_validation_passed"));
      var ready := root.entries[tmp].files;
      Move(Folder(ready), earlier);
      MarkerKeepsPackage(tools, ready, runId, PUBLISHED, publishTime, None);
      MarkerReadsBack(tools, ready, runId, PUBLISHED, publishTime, None);
      Move(Folder(WithMarker(tools, ready, runId, PUBLISHED, publishTime, None)), earlier);
    }

    /** One step that leaves the target as `target` and no temporary directory. */
    method Move(target: Entry, ghost earlier: seq<Entries>)
      requires Valid() && Extends(earlier, root.history, {tmp, runId})
      requires target.Folder? && Complete(target.files) && RuntimeManifestOk(tools, target.files)
      modifies root
      ensures Valid() && Extends(earlier, root.history, {tmp, runId})
      ensures root.entries == (old(root.entries) - {tmp})[runId := target]
    {
      NotRunIdOf(runId, suffix);
      Renamed(tools, runId, tmp, start, own, earlier, root.history, target);
      root.Commit((root.entries - {tmp})[runId := target]);
    }

    /** Marks the run aborted and deletes it file by file, in any order; the files in
        `stuck` cannot be deleted and keep the directory. */
    method Abort(time: string, stuck: set<string>)
      requires Valid()
      modifies root
      ensures Valid() && Extends(old(root.history), root.history, {tmp, runId})
      ensures old(tmp !in root.entries) ==> root.entries == old(root.entries)
      ensures old(tmp in root.entries) ==>
        var left := WithMarker(tools, old(Files()), runId, "ABORTED", time, Some("writer_abort"));
        if left.Keys !! stuck then root.entries == old(root.entries) - {tmp}
        else root.entries == old(root.entries)[tmp := Folder(left - (left.Keys - stuck))]
    {
      if tmp !in root.entries { return; }
      NotRunIdOf(runId, suffix);
      WriteState(ABORTED, time, Some("writer_abort"));
      RemoveTree(stuck, old(root.history));
    }

    method RemoveTree(stuck: set<string>, ghost earlier: seq<Entries>)
      requires Valid() && Extends(earlier, root.history, {tmp, runId}) && tmp in root.entries
      modifies root
      ensures Valid() && Extends(earlier, root.history, {tmp, runId})
      ensures if old(Files()).Keys !! stuck then root.entries == old(root.entries) - {tmp}
        else root.entries == old(root.entries)[tmp := Folder(old(Files()) - (old(Files()).Keys - stuck))]
    {
      ghost var at, left := root.entries, Files();
      var doomed := Files().Keys - stuck;
      DeleteFiles(doomed, earlier);
      EmptyIff(left, stuck);
      if Files() == map[] {
        RemoveDirectory(earlier);
        MinusUpdated(at, tmp, Folder(left - doomed));
      }
    }

    method DeleteFiles(doomed: set<string>, ghost earlier: seq<Entries>)
      requires Valid() && Extends(earlier, root.history, {tmp, runId}) && tmp in root.entries
      modifies root
      ensures Valid() && Extends(earlier, root.history, {tmp, runId})
      ensures root.entries == old(root.entries)[tmp := Folder(old(Files()) - doomed)]
      decreases |doomed|
    {
      ghost var at, left := root.entries, Files();
      if doomed == {} {
        assert Intact(tools, runId, tmp, root.history[|root.history| - 1]);
        assert left - doomed == left;
        Overwrite(at, tmp, at[tmp], at[tmp]);
        return;
      }
      hide Kept; hide Extends; hide TempName; hide Suffix; hide ReadsBack; hide Orders;
      var path :| path in doomed;
      DeleteFile(path, earlier);
      DeleteFiles(doomed - {path}, earlier);
      Overwrite(at, tmp, Folder(left - {path}), Folder(left - {path} - (doomed - {path})));
      MinusOne(left, {path}, doomed);
    }

    method DeleteFile(path: string, ghost earlier: seq<Entries>)
      requires Valid() && Extends(earlier, root.history, {tmp, runId}) && tmp in root.entries
      modifies root
      ensures Valid() && Extends(earlier, root.history, {tmp, runId})
      ensures root.entries == old(root.entries)[tmp := Folder(old(Files()) - {path})]
    {
      NotRunIdOf(runId, suffix);
      assert Intact(tools, runId, tmp, root.history[|root.history| - 1]);
      assert own ==> Owned(tools, runId, tmp, root.history[|root.history| - 1]);
      if own { DeletionKeepsMarker(tools, runId, root.entries[tmp].files, path); }
      Step(Folder(root.entries[tmp].files - {path}), earlier);
    }

    method RemoveDirectory(ghost earlier: seq<Entries>)
      requires Valid() && Extends(earlier, root.history, {tmp, runId})
      modifies root
      ensures Valid() && Extends(earlier, root.history, {tmp, runId})
      ensures root.entries == old(root.entries) - {tmp}
    {
      NotRunIdOf(runId, suffix);
      Removed(tools, runId, tmp, start, own, earlier, root.history);
      root.Commit(root.entries - {tmp});
    }
  }

  lemma Overwrite(entries: Entries, name: string, first: Entry, second: Entry)
    ensures entries[name := first][name := second] == entries[name := second]
    ensures name in entries ==> entries[name := entries[name]] == entries
  {}

  lemma MinusUpdated(entries: Entries, name: string, entry: Entry)
    ensures entries[name := entry] - {name} == entries - {name}
  {}

  lemma MinusOne(files: Tree, first: set<string>, all: set<string>)
    requires first <= all
    ensures files - first - (all - first) == files - all
  {}

  lemma EmptyIff(files: Tree, stuck: set<string>)
    ensures files - (files.Keys - stuck) == map[] <==> files.Keys !! stuck
  {
    var left := files - (files.Keys - stuck);
    assert forall p :: p in left <==> p in files && p in stuck;
  }

  /** A marker write leaves a package complete and valid. */
  lemma MarkerKeepsPackage(tools: Tools, files: Tree, runId: string, status: string, time: string, reason: Option<string>)
    requires Orders(tools.order)
    ensures RuntimeManifestOk(tools, WithMarker(tools, files, runId, status, time, reason)) <==> RuntimeManifestOk(tools, files)
    ensures Complete(files) ==> Complete(WithMarker(tools, files, runId, status, time, reason))
  {
    MarkerWriteKeepsValid(tools, files, tools.encode(Marker(runId, status, time, reason)));
  }

  lemma OtherFileKeepsMarker(tools: Tools, runId: string, files: Tree, name: string, payload: Bytes)
    requires name != STATE
    ensures OwnMarker(tools, runId, files[name := payload]) <==> OwnMarker(tools, runId, files)
  {}

  lemma DeletionKeepsMarker(tools: Tools, runId: string, files: Tree, name: string)
    requires OwnMarker(tools, runId, files)
    ensures OwnMarker(tools, runId, files - {name})
  {}

  /** The temporary directory goes and the target takes a complete package. */
  lemma Renamed(tools: Tools, runId: string, tmp: string, start: nat, own: bool,
                earlier: seq<Entries>, history: seq<Entries>, target: Entry)
    requires Orders(tools.order) && Kept(tools, runId, tmp, start, own, history) && tmp != runId
    requires Extends(earlier, history, {tmp, runId})
    requires target.Folder? && Complete(target.files) && RuntimeManifestOk(tools, target.files)
    ensures var next := (history[|history| - 1] - {tmp})[runId := target];
      Kept(tools, runId, tmp, start, own, history + [next]) && Extends(earlier, history + [next], {tmp, runId})
  {
    var now := history[|history| - 1];
    var next := (now - {tmp})[runId := target];
    assert Intact(tools, runId, tmp, now);
    KeptNext(tools, runId, tmp, start, own, history, next);
    assert next - {tmp, runId} == now - {tmp, runId};
    ExtendsNext(earlier, history, next, {tmp, runId});
  }

  lemma Removed(tools: Tools, runId: string, tmp: string, start: nat, own: bool,
                earlier: seq<Entries>, history: seq<Entries>)
    requires Orders(tools.order) && Kept(tools, runId, tmp, start, own, history) && tmp != runId
    requires Extends(earlier, history, {tmp, runId})
    ensures var next := history[|history| - 1] - {tmp};
      Kept(tools, runId, tmp, start, own, history + [next]) && Extends(earlier, history + [next], {tmp, runId})
  {
    var now := history[|history| - 1];
    var next := now - {tmp};
    assert Intact(tools, runId, tmp, now);
    KeptNext(tools, runId, tmp, start, own, history, next);
    assert next - {tmp, runId} == now - {tmp, runId};
    ExtendsNext(earlier, history, next, {tmp, runId});
  }

  /** Opens a writer for `runId`; `suffix` is the random part of its directory's name. */
  method OpenWriter(root: RunRoot, tools: Tools, runId: string, suffix: string, time: string)
    returns (r: Result<ArtifactWriter, Fault>)
    requires root.Valid() && Orders(tools.order) && ReadsBack(tools)
    requires Suffix(suffix) && TempName(runId, suffix) !in root.entries
    modifies root
    ensures r.Ok? <==> ValidRunId(runId) && runId !in old(root.entries) && !Stale(old(root.entries), runId)
    ensures r.Err? ==> root.entries == old(root.entries) && root.history == old(root.history)
    ensures r.Ok? <==> !BadRunId(runId) && runId !in old(root.entries) && !Stale(old(root.entries), runId)
    ensures r.Err? ==> r.error == (if !ValidRunId(runId) then InvalidRunId
      else if runId in old(root.entries) then TargetExists else StaleTemporary)
    ensures r.Ok? ==> fresh(r.value) && r.value.Valid() && r.value.own && r.value.root == root && r.value.runId == runId
    ensures r.Ok? ==> Extends(old(root.history), root.history, {r.value.tmp, runId})
  {
    ValidRunIdIff(runId);
    hide BadRunId;
    if !ValidRunId(runId) { return Err(InvalidRunId); }
    if runId in root.entries { return Err(TargetExists); }
    if Stale(root.entries, runId) { return Err(StaleTemporary); }
    var abandoned := ScanAbandonedRuns(tools, root.entries);
    var writer := new ArtifactWriter(root, tools, runId, suffix, abandoned, time);
    return Ok(writer);
  }

  lemma NotRunIdOf(runId: string, suffix: string)
    ensures TempName(runId, suffix) != runId
  {
    assert |TempName(runId, suffix)| > |runId|;
  }
}
