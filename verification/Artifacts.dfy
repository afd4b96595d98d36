/** The derived-hash protocol of a run package: what the two digests cover, how a
    manifest carries them without referring to itself, and what a reader checks.
    SHA-256 and the JSON text are parameters. */
module Artifacts {
  import opened Wrappers

  type Bytes = seq<bv8>

  /** A JSON value.  A number is its decimal form; `NonFinite` stands for the NaN and
      infinities canonical JSON refuses. */
  datatype Json =
    | Null
    | Bool(b: bool)
    | Num(mantissa: int, exponent: int)
    | NonFinite
    | Str(s: string)
    | Arr(items: seq<Json>)
    | Obj(fields: map<string, Json>)

  type Fields = map<string, Json>

  /** The files of one run directory by relative path. */
  type Tree = map<string, Bytes>

  /** The hash, the canonical JSON text and its reader, the path order, and how a
      value that is not text is shown. */
  datatype Tools = Tools(sha: Bytes -> string, encode: Json -> Bytes, parse: Bytes -> Option<Json>,
                         order: set<string> -> seq<string>, show: Json -> string)

  predicate Canonical(j: Json) {
    match j
    case NonFinite => false
    case Arr(items) => forall i | 0 <= i < |items| :: Canonical(items[i])
    case Obj(fields) => forall k | k in fields :: Canonical(fields[k])
    case _ => true
  }

  /** `x` is the value or stands somewhere inside it. */
  predicate Within(x: Json, j: Json) {
    || x == j
    || (j.Arr? && exists item | item in j.items :: Within(x, item))
    || (j.Obj? && exists k | k in j.fields :: Within(x, j.fields[k]))
  }

  /** Canonical JSON holds every value without a NaN or an infinity in it. */
  lemma {:induction false} CanonicalIff(j: Json)
    ensures Canonical(j) <==> !Within(NonFinite, j)
  {
    match j
    case Arr(items) =>
      forall i | 0 <= i < |items| ensures Canonical(items[i]) <==> !Within(NonFinite, items[i]) { CanonicalIff(items[i]); }
    case Obj(fields) =>
      forall k | k in fields ensures Canonical(fields[k]) <==> !Within(NonFinite, fields[k]) { CanonicalIff(fields[k]); }
    case _ =>
  }

  /** Canonical JSON parses back to the value it was written from. */
  ghost predicate ReadsBack(tools: Tools) {
    forall j | Canonical(j) :: tools.parse(tools.encode(j)) == Some(j)
  }

  predicate IsHexDigest(s: string) {
    |s| == 64 && forall c | c in s :: '0' <= c <= '9' || 'a' <= c <= 'f'
  }

  /** Sixty-four hexadecimal digits in lower case, by code. */
  lemma HexDigestMeans(s: string)
    ensures IsHexDigest(s) <==> |s| == 64 && forall i | 0 <= i < |s| :: 48 <= s[i] as int <= 57 || 97 <= s[i] as int <= 102
  {
    assert forall i | 0 <= i < |s| :: s[i] in s;
  }

  ghost predicate HexHashes(tools: Tools) {
    forall b :: IsHexDigest(tools.sha(b))
  }

  ghost predicate Injective(tools: Tools) {
    forall a, b | tools.sha(a) == tools.sha(b) :: a == b
  }

  /** `order` lists each path once and filtering a listing is listing what is kept. */
  ghost predicate Orders(order: set<string> -> seq<string>) {
    && (forall s :: (set p | p in order(s)) == s)
    && (forall s, kept: set<string> :: Keep(order(s), kept) == order(s * kept))
  }

  function Keep(paths: seq<string>, kept: set<string>): seq<string> {
    if paths == [] then []
    else Keep(paths[..|paths| - 1], kept) + if paths[|paths| - 1] in kept then [paths[|paths| - 1]] else []
  }

  // ------------------------------------------------------------- the manifest view

  const DERIVED: set<string> := {"manifest_sha256", "package_sha256", "manifest_hash", "package_hash"}

  function WithoutDerived(value: Fields): Fields {
    var result := value - DERIVED;
    if "hashes" in result && result["hashes"].Obj? then
      var hashes := result["hashes"].fields - DERIVED;
      if hashes != map[] then result["hashes" := Obj(hashes)] else result - {"hashes"}
    else result
  }

  /** What of the hash summary is evidence: nothing, when it holds derived fields only. */
  function SummaryEvidence(value: Fields): Option<Json> {
    if "hashes" !in value then None
    else if !value["hashes"].Obj? then Some(value["hashes"])
    else if forall k | k in value["hashes"].fields :: DerivedKey(k) then None
    else Some(Obj(map k | k in value["hashes"].fields && !DerivedKey(k) :: value["hashes"].fields[k]))
  }

  predicate DerivedKey(key: string) {
    key == "manifest_sha256" || key == "package_sha256" || key == "manifest_hash" || key == "package_hash"
  }

  /** Two manifests that differ in derived fields only. */
  ghost predicate SameEvidence(a: Fields, b: Fields) {
    && (forall k | !DerivedKey(k) && k != "hashes" :: (k in a <==> k in b) && (k in a ==> a[k] == b[k]))
    && SummaryEvidence(a) == SummaryEvidence(b)
  }

  lemma ViewParts(value: Fields)
    ensures WithoutDerived(value) - {"hashes"} == value - DERIVED - {"hashes"}
    ensures SummaryEvidence(value) ==
      if "hashes" in WithoutDerived(value) then Some(WithoutDerived(value)["hashes"]) else None
  {
    var view := WithoutDerived(value);
    assert forall k :: k in view - {"hashes"} <==> k in value - DERIVED - {"hashes"};
    if "hashes" in value && value["hashes"].Obj? {
      var inner := value["hashes"].fields;
      EvidenceKeys(inner);
      if forall k | k in inner :: DerivedKey(k) {
        assert (inner - DERIVED).Keys == {};
      } else {
        var k :| k in inner && !DerivedKey(k);
        assert k in inner - DERIVED;
      }
    }
  }

  lemma EvidenceKeys(fields: Fields)
    ensures (map k | k in fields && !DerivedKey(k) :: fields[k]) == fields - DERIVED
  {}

  lemma RestAgrees(a: Fields, b: Fields)
    ensures a - DERIVED - {"hashes"} == b - DERIVED - {"hashes"}
       <==> forall k | !DerivedKey(k) && k != "hashes" :: (k in a <==> k in b) && (k in a ==> a[k] == b[k])
  {
    var u, v := a - DERIVED - {"hashes"}, b - DERIVED - {"hashes"};
    assert forall k :: k in u <==> k in a && !DerivedKey(k) && k != "hashes";
    assert forall k :: k in v <==> k in b && !DerivedKey(k) && k != "hashes";
    if u == v {
      forall k | !DerivedKey(k) && k != "hashes" ensures (k in a <==> k in b) && (k in a ==> a[k] == b[k]) {
        assert k in u <==> k in v;
        if k in a { assert u[k] == v[k]; }
      }
    }
  }

  /** The view is blind to the derived fields and to nothing else. */
  lemma ViewSeesEvidenceOnly(a: Fields, b: Fields)
    ensures WithoutDerived(a) == WithoutDerived(b) <==> SameEvidence(a, b)
  {
    ViewParts(a);
    ViewParts(b);
    RestAgrees(a, b);
    hide SummaryEvidence;
    var u, v := WithoutDerived(a), WithoutDerived(b);
    if SameEvidence(a, b) {
      assert u - {"hashes"} == v - {"hashes"};
      forall k ensures k in u <==> k in v {
        if k != "hashes" { assert k in u - {"hashes"} <==> k in u; assert k in v - {"hashes"} <==> k in v; }
      }
      forall k | k in u ensures u[k] == v[k] {
        if k != "hashes" { assert (u - {"hashes"})[k] == u[k] && (v - {"hashes"})[k] == v[k]; }
      }
    }
  }

  lemma ViewIdempotent(value: Fields)
    ensures WithoutDerived(WithoutDerived(value)) == WithoutDerived(value)
  {
    var view := WithoutDerived(value);
    ViewParts(value);
    assert view - DERIVED - {"hashes"} == value - DERIVED - {"hashes"} by {
      assert (view - {"hashes"}) - DERIVED == view - DERIVED - {"hashes"};
      assert (value - DERIVED - {"hashes"}) - DERIVED == value - DERIVED - {"hashes"};
    }
    assert SummaryEvidence(view) == SummaryEvidence(value) by {
      if "hashes" in view && view["hashes"].Obj? {
        var inner := value["hashes"].fields;
        EvidenceKeys(inner);
        EvidenceKeys(inner - DERIVED);
        assert (inner - DERIVED) - DERIVED == inner - DERIVED;
      }
    }
    ViewSeesEvidenceOnly(view, value);
  }

  // -------------------------------------------------------------------- the digests

  function Digest(tools: Tools, j: Json): Option<string> {
    if Canonical(j) then Some(tools.sha(tools.encode(j))) else None
  }

  function ManifestDigest(tools: Tools, manifest: Fields): Option<string> {
    Digest(tools, Obj(WithoutDerived(manifest)))
  }

  /** The last component of a path. */
  function BaseName(path: string): (name: string)
    ensures '/' !in name && |name| <= |path| && name == path[|path| - |name|..]
    ensures |name| < |path| ==> path[|path| - |name| - 1] == '/'
  {
    if path == [] then []
    else if path[|path| - 1] == '/' then []
    else BaseName(path[..|path| - 1]) + [path[|path| - 1]]
  }

  const MANIFEST := "manifest.json"
  const STATE := ".run-state.json"

  /** Left out of the index and the package digest, wherever it lies. */
  predicate Excluded(path: string) {
    BaseName(path) == MANIFEST || BaseName(path) == STATE
  }

  /** The path is this name, or ends in it as its last component. */
  predicate Called(path: string, name: string) {
    path == name || (|path| > |name| && path[|path| - |name| - 1..] == "/" + name)
  }

  lemma ExcludedMeans(path: string)
    ensures Excluded(path) <==> Called(path, "manifest.json") || Called(path, ".run-state.json")
  {
    hide BaseName;
    CalledIff(path, MANIFEST);
    CalledIff(path, STATE);
  }

  lemma CalledIff(path: string, name: string)
    requires '/' !in name
    ensures BaseName(path) == name <==> Called(path, name)
  {
    hide BaseName;
    PlainBaseName(name);
    if Called(path, name) && path != name { DirectoryAnd(path, name); }
    if BaseName(path) == name && path != name { ComponentEnds(path, name); }
  }

  lemma DirectoryAnd(path: string, name: string)
    requires '/' !in name && |path| > |name| && path[|path| - |name| - 1..] == "/" + name
    ensures BaseName(path) == name
  {
    hide BaseName;
    var directory := path[..|path| - |name| - 1];
    assert path == directory + ("/" + name) == directory + "/" + name;
    BaseNameOf(directory, name);
  }

  lemma ComponentEnds(path: string, name: string)
    requires BaseName(path) == name != path
    ensures Called(path, name)
  {
    hide BaseName;
    assert path[|path| - |name| - 1..] == [path[|path| - |name| - 1]] + path[|path| - |name|..];
  }

  function EvidencePaths(files: Tree): set<string> {
    set p | p in files && !Excluded(p)
  }

  function Evidence(files: Tree): Tree {
    map p | p in files && !Excluded(p) :: files[p]
  }

  function FileEntry(tools: Tools, path: string, payload: Bytes): Json {
    Obj(map["path" := Str(path), "sha256" := Str(tools.sha(payload))])
  }

  /** One entry a listed path. */
  function FileEntries(tools: Tools, paths: seq<string>, files: Tree): seq<Json>
    requires forall p | p in paths :: p in files
  {
    seq(|paths|, i requires 0 <= i < |paths| => FileEntry(tools, paths[i], files[paths[i]]))
  }

  lemma OrderLists(tools: Tools, paths: set<string>)
    requires Orders(tools.order)
    ensures forall p :: p in tools.order(paths) <==> p in paths
  {
    assert (set p | p in tools.order(paths)) == paths;
  }

  function PackageView(tools: Tools, files: Tree, manifest: Fields): Json
    requires Orders(tools.order)
  {
    OrderLists(tools, EvidencePaths(files));
    Obj(map["manifest" := Obj(WithoutDerived(manifest)),
            "files" := Arr(FileEntries(tools, tools.order(EvidencePaths(files)), files))])
  }

  function PackageDigest(tools: Tools, files: Tree, manifest: Fields): Option<string>
    requires Orders(tools.order)
  {
    Digest(tools, PackageView(tools, files, manifest))
  }

  /** `artifact_index`: one entry for every file that is evidence. */
  function IndexOf(tools: Tools, files: Tree): Fields {
    map p | p in files && !Excluded(p) :: FileEntry(tools, p, files[p])
  }

  function Indexed(tools: Tools, listed: seq<string>, files: Tree): Fields
    requires forall p | p in listed :: p in files
  {
    map p | p in listed && !Excluded(p) :: FileEntry(tools, p, files[p])
  }

  lemma IndexedSnoc(tools: Tools, listed: seq<string>, last: string, files: Tree)
    requires last in files && forall p | p in listed :: p in files
    ensures Indexed(tools, listed + [last], files)
         == if Excluded(last) then Indexed(tools, listed, files)
            else Indexed(tools, listed, files)[last := FileEntry(tools, last, files[last])]
  {
    hide Excluded; hide FileEntry;
  }

  /** Every file is listed under its path with its hash, except those called
      `manifest.json` or `.run-state.json`. */
  ghost predicate Indexes(tools: Tools, files: Tree, index: Fields) {
    && (forall p :: p in index <==> p in files && !Called(p, "manifest.json") && !Called(p, ".run-state.json"))
    && (forall p | p in index :: p in files && index[p] == Obj(map["path" := Str(p), "sha256" := Str(tools.sha(files[p]))]))
  }

  lemma IndexOfMeans(tools: Tools, files: Tree)
    ensures Indexes(tools, files, IndexOf(tools, files))
  {
    hide Excluded; hide Called;
    forall p ensures Excluded(p) <==> Called(p, "manifest.json") || Called(p, ".run-state.json") { ExcludedMeans(p); }
  }

  method ArtifactIndex(tools: Tools, files: Tree) returns (index: Fields)
    requires Orders(tools.order)
    ensures index == IndexOf(tools, files) && Indexes(tools, files, index)
  {
    IndexOfMeans(tools, files);
    hide Indexes;
    hide Indexed; hide IndexOf; hide Excluded; hide FileEntry;
    var paths := tools.order(files.Keys);
    OrderLists(tools, files.Keys);
    IndexedEnds(tools, paths, files);
    index := map[];
    for i := 0 to |paths|
      invariant forall p | p in paths[..i] :: p in files
      invariant index == Indexed(tools, paths[..i], files)
    {
      assert paths[..i + 1] == paths[..i] + [paths[i]];
      IndexedSnoc(tools, paths[..i], paths[i], files);
      if !Excluded(paths[i]) {
        index := index[paths[i] := FileEntry(tools, paths[i], files[paths[i]])];
      }
    }
    assert paths[..|paths|] == paths;
  }

  lemma IndexedEnds(tools: Tools, listed: seq<string>, files: Tree)
    requires forall p :: p in listed <==> p in files
    ensures Indexed(tools, [], files) == map[]
    ensures Indexed(tools, listed, files) == IndexOf(tools, files)
  {}

  /** The digest of the manifest's view beside one entry a file, in path order. */
  ghost predicate DigestOf(tools: Tools, files: Tree, manifest: Fields, digest: string) {
    exists entries: seq<Json> ::
      && Lists(tools, files, entries)
      && digest == tools.sha(tools.encode(Obj(map["manifest" := Obj(WithoutDerived(manifest)), "files" := Arr(entries)])))
  }

  ghost predicate Lists(tools: Tools, files: Tree, entries: seq<Json>) {
    var paths := tools.order(set p | p in files && !Called(p, "manifest.json") && !Called(p, ".run-state.json"));
    |entries| == |paths|
    && forall i | 0 <= i < |paths| ::
      paths[i] in files && entries[i] == Obj(map["path" := Str(paths[i]), "sha256" := Str(tools.sha(files[paths[i]]))])
  }

  lemma PackageDigestMeans(tools: Tools, files: Tree, manifest: Fields)
    requires Orders(tools.order)
    ensures PackageDigest(tools, files, manifest).Some? ==>
      DigestOf(tools, files, manifest, PackageDigest(tools, files, manifest).value)
  {
    hide Excluded; hide Called; hide WithoutDerived; hide Canonical;
    forall p ensures Excluded(p) <==> Called(p, "manifest.json") || Called(p, ".run-state.json") { ExcludedMeans(p); }
    OrderLists(tools, EvidencePaths(files));
    assert EvidencePaths(files) == set p | p in files && !Called(p, "manifest.json") && !Called(p, ".run-state.json");
    var paths := tools.order(EvidencePaths(files));
    var entries := FileEntries(tools, paths, files);
    forall i | 0 <= i < |paths|
      ensures paths[i] in files && entries[i] == Obj(map["path" := Str(paths[i]), "sha256" := Str(tools.sha(files[paths[i]]))])
    {
      assert paths[i] in paths;
    }
    assert Lists(tools, files, entries);
  }

  method ComputePackageDigest(tools: Tools, files: Tree, manifest: Fields) returns (digest: Option<string>)
    requires Orders(tools.order)
    ensures digest == PackageDigest(tools, files, manifest)
  {
    hide Excluded; hide FileEntry; hide WithoutDerived; hide Digest;
    var paths := tools.order(files.Keys);
    OrderLists(tools, files.Keys);
    var entries: seq<Json> := [];
    for i := 0 to |paths|
      invariant forall p | p in Keep(paths[..i], EvidencePaths(files)) :: p in files
      invariant entries == FileEntries(tools, Keep(paths[..i], EvidencePaths(files)), files)
    {
      assert paths[..i + 1][..i] == paths[..i];
      if Excluded(paths[i]) { continue; }
      entries := entries + [FileEntry(tools, paths[i], files[paths[i]])];
    }
    assert paths[..|paths|] == paths;
    assert files.Keys * EvidencePaths(files) == EvidencePaths(files);
    digest := Digest(tools, Obj(map["manifest" := Obj(WithoutDerived(manifest)), "files" := Arr(entries)]));
  }

  lemma EntriesCanonical(tools: Tools, paths: seq<string>, files: Tree)
    requires forall p | p in paths :: p in files
    ensures Canonical(Arr(FileEntries(tools, paths, files)))
  {
    forall i | 0 <= i < |paths| ensures Canonical(FileEntries(tools, paths, files)[i]) {
      assert Canonical(Str(paths[i])) && Canonical(Str(tools.sha(files[paths[i]])));
    }
  }

  /** A package can be hashed exactly when its manifest view can. */
  lemma PackageCanonical(tools: Tools, files: Tree, manifest: Fields)
    requires Orders(tools.order)
    ensures Canonical(PackageView(tools, files, manifest)) <==> Canonical(Obj(WithoutDerived(manifest)))
  {
    var view := PackageView(tools, files, manifest);
    OrderLists(tools, EvidencePaths(files));
    EntriesCanonical(tools, tools.order(EvidencePaths(files)), files);
    assert view.fields["manifest"] == Obj(WithoutDerived(manifest));
    assert "manifest" in view.fields && "files" in view.fields;
  }

  lemma DigestsEqualIff(tools: Tools, a: Json, b: Json)
    requires ReadsBack(tools) && Injective(tools) && Canonical(a) && Canonical(b)
    ensures Digest(tools, a) == Digest(tools, b) <==> a == b
  {
    if tools.encode(a) == tools.encode(b) {
      assert tools.parse(tools.encode(a)) == Some(a) && tools.parse(tools.encode(b)) == Some(b);
    }
  }

  /** With a collision-free hash two manifest digests agree exactly when the manifests
      differ in derived fields only. */
  lemma ManifestDigestCovers(tools: Tools, a: Fields, b: Fields)
    requires ReadsBack(tools) && Injective(tools)
    requires Canonical(Obj(WithoutDerived(a))) && Canonical(Obj(WithoutDerived(b)))
    ensures ManifestDigest(tools, a) == ManifestDigest(tools, b) <==> SameEvidence(a, b)
  {
    DigestsEqualIff(tools, Obj(WithoutDerived(a)), Obj(WithoutDerived(b)));
    ViewSeesEvidenceOnly(a, b);
  }

  /** With a collision-free hash two package digests agree exactly when the manifests
      differ in derived fields only and every file that is not called
      `manifest.json` or `.run-state.json` has the same path and contents. */
  lemma PackageDigestCovers(tools: Tools, f: Tree, a: Fields, g: Tree, b: Fields)
    requires Orders(tools.order) && ReadsBack(tools) && Injective(tools)
    requires Canonical(Obj(WithoutDerived(a))) && Canonical(Obj(WithoutDerived(b)))
    ensures PackageDigest(tools, f, a) == PackageDigest(tools, g, b) <==> SameEvidence(a, b) && Evidence(f) == Evidence(g)
  {
    PackageCanonical(tools, f, a);
    PackageCanonical(tools, g, b);
    DigestsEqualIff(tools, PackageView(tools, f, a), PackageView(tools, g, b));
    ViewSeesEvidenceOnly(a, b);
    ListingsEqualIff(tools, f, g);
    ViewsEqualIff(tools, f, a, g, b);
  }

  ghost predicate SameListing(tools: Tools, f: Tree, g: Tree)
    requires Orders(tools.order)
  {
    OrderLists(tools, EvidencePaths(f));
    OrderLists(tools, EvidencePaths(g));
    FileEntries(tools, tools.order(EvidencePaths(f)), f) == FileEntries(tools, tools.order(EvidencePaths(g)), g)
  }

  lemma ViewsEqualIff(tools: Tools, f: Tree, a: Fields, g: Tree, b: Fields)
    requires Orders(tools.order)
    ensures PackageView(tools, f, a) == PackageView(tools, g, b)
       <==> WithoutDerived(a) == WithoutDerived(b) && SameListing(tools, f, g)
  {
    var u, v := PackageView(tools, f, a).fields, PackageView(tools, g, b).fields;
    assert u == v <==> u["manifest"] == v["manifest"] && u["files"] == v["files"];
  }

  lemma ListingsEqualIff(tools: Tools, f: Tree, g: Tree)
    requires Orders(tools.order) && Injective(tools)
    ensures SameListing(tools, f, g) <==> Evidence(f) == Evidence(g)
  {
    OrderLists(tools, EvidencePaths(f));
    OrderLists(tools, EvidencePaths(g));
    EntriesEqualIff(tools, tools.order(EvidencePaths(f)), f, tools.order(EvidencePaths(g)), g);
    if SameListing(tools, f, g) {
      SameEvidenceFiles(tools.order(EvidencePaths(f)), f, g);
    }
    if Evidence(f) == Evidence(g) {
      assert EvidencePaths(f) == Evidence(f).Keys == Evidence(g).Keys == EvidencePaths(g);
      forall p | p in EvidencePaths(f) ensures f[p] == g[p] {
        assert Evidence(f)[p] == Evidence(g)[p];
      }
    }
  }

  lemma SameEvidenceFiles(paths: seq<string>, f: Tree, g: Tree)
    requires forall p :: p in paths <==> p in EvidencePaths(f)
    requires forall p :: p in paths <==> p in EvidencePaths(g)
    requires forall p | p in paths :: f[p] == g[p]
    ensures Evidence(f) == Evidence(g)
  {
    hide Excluded;
    assert forall p :: p in Evidence(f) <==> p in EvidencePaths(f);
    assert forall p :: p in Evidence(g) <==> p in EvidencePaths(g);
  }

  lemma EntriesEqualIff(tools: Tools, p: seq<string>, f: Tree, q: seq<string>, g: Tree)
    requires Injective(tools)
    requires (forall path | path in p :: path in f) && (forall path | path in q :: path in g)
    ensures FileEntries(tools, p, f) == FileEntries(tools, q, g) <==> p == q && forall path | path in p :: f[path] == g[path]
  {
    if FileEntries(tools, p, f) == FileEntries(tools, q, g) {
      assert |FileEntries(tools, p, f)| == |p| && |FileEntries(tools, q, g)| == |q|;
      forall i | 0 <= i < |p| ensures p[i] == q[i] && f[p[i]] == g[q[i]] {
        assert FileEntries(tools, p, f)[i] == FileEntries(tools, q, g)[i];
        EntryEqual(tools, p[i], f[p[i]], q[i], g[q[i]]);
      }
    }
  }

  lemma EntryEqual(tools: Tools, p: string, x: Bytes, q: string, y: Bytes)
    requires Injective(tools) && FileEntry(tools, p, x) == FileEntry(tools, q, y)
    ensures p == q && x == y
  {
    var u, v := FileEntry(tools, p, x).fields, FileEntry(tools, q, y).fields;
    assert u["path"] == v["path"] && u["sha256"] == v["sha256"];
  }

  // ------------------------------------------------------------- what is not covered

  /** One file is changed, added or removed. */
  function WithFile(files: Tree, path: string, payload: Option<Bytes>): Tree {
    if payload.Some? then files[path := payload.value] else files - {path}
  }

  /** A change to one file shows in the package digest exactly when the file's own
      name, at any depth, is neither `manifest.json` nor `.run-state.json`. */
  lemma ChangeDetectedIff(tools: Tools, files: Tree, path: string, payload: Option<Bytes>, manifest: Fields)
    requires Orders(tools.order) && ReadsBack(tools) && Injective(tools)
    requires Canonical(Obj(WithoutDerived(manifest)))
    requires (if path in files then Some(files[path]) else None) != payload
    ensures PackageDigest(tools, WithFile(files, path, payload), manifest) != PackageDigest(tools, files, manifest)
       <==> !Excluded(path)
  {
    hide PackageDigest; hide WithoutDerived; hide Canonical; hide BaseName; hide Excluded; hide Orders;
    var changed := WithFile(files, path, payload);
    PackageDigestCovers(tools, changed, manifest, files, manifest);
    if Excluded(path) {
      ExcludedUnseen(tools, files, path, payload, manifest);
    } else {
      assert path in Evidence(files) <==> path in files;
      assert path in Evidence(changed) <==> payload.Some?;
      if path in files && payload.Some? {
        assert Evidence(files)[path] != Evidence(changed)[path];
      }
    }
  }

  /** Rewriting an excluded file changes neither the index nor the digest, whatever
      the hash. */
  lemma ExcludedUnseen(tools: Tools, files: Tree, path: string, payload: Option<Bytes>, manifest: Fields)
    requires Orders(tools.order) && Excluded(path)
    ensures Evidence(WithFile(files, path, payload)) == Evidence(files)
    ensures IndexOf(tools, WithFile(files, path, payload)) == IndexOf(tools, files)
    ensures PackageDigest(tools, WithFile(files, path, payload), manifest) == PackageDigest(tools, files, manifest)
  {
    hide Excluded;
    SameFilesSameView(tools, WithFile(files, path, payload), files, manifest);
  }

  lemma SameFilesSameView(tools: Tools, f: Tree, g: Tree, manifest: Fields)
    requires Orders(tools.order)
    requires forall p | !Excluded(p) :: (p in f <==> p in g) && (p in f ==> f[p] == g[p])
    ensures Evidence(f) == Evidence(g) && IndexOf(tools, f) == IndexOf(tools, g)
    ensures PackageView(tools, f, manifest) == PackageView(tools, g, manifest)
  {
    hide Excluded; hide WithoutDerived; hide FileEntry;
    assert EvidencePaths(f) == EvidencePaths(g);
    OrderLists(tools, EvidencePaths(f));
    var paths := tools.order(EvidencePaths(f));
    assert forall i | 0 <= i < |paths| :: paths[i] in EvidencePaths(f);
    assert FileEntries(tools, paths, f) == FileEntries(tools, paths, g);
  }

  /** A manifest hidden one directory down is such a file. */
  lemma NestedManifestExcluded()
    ensures Excluded("logs/manifest.json") && Excluded(MANIFEST) && Excluded(STATE)
  {
    hide BaseName;
    assert '/' !in MANIFEST && '/' !in STATE;
    BaseNameOf("logs", MANIFEST);
    PlainBaseName(MANIFEST);
    PlainBaseName(STATE);
    assert "logs/manifest.json" == "logs" + "/" + MANIFEST;
  }

  lemma {:induction false} BaseNameOf(directory: string, name: string)
    requires '/' !in name
    ensures BaseName(directory + "/" + name) == name
  {
    var path := directory + "/" + name;
    if name != [] {
      var n := |name| - 1;
      assert path[..|path| - 1] == directory + "/" + name[..n];
      BaseNameOf(directory, name[..n]);
    } else {
      assert path[|path| - 1] == '/';
    }
  }

  lemma {:induction false} PlainBaseName(name: string)
    requires '/' !in name
    ensures BaseName(name) == name
  {
    if name != [] { PlainBaseName(name[..|name| - 1]); }
  }

  // --------------------------------------------------------------- reading a package

  datatype Problem =
    | ManifestHashMalformed
    | PackageHashMalformed
    | SummaryInconsistent
    | ManifestMismatch
    | ManifestUnhashable
    | PackageMismatch
    | PackageUnhashable

  /** The order problems are reported in. */
  function Rank(p: Problem): nat {
    match p
    case ManifestHashMalformed => 0
    case PackageHashMalformed => 1
    case SummaryInconsistent => 2
    case ManifestMismatch => 3
    case ManifestUnhashable => 3
    case PackageMismatch => 4
    case PackageUnhashable => 4
  }

  function Lookup(fields: Fields, key: string): Json {
    if key in fields then fields[key] else Null
  }

  predicate WellFormedHash(j: Json) {
    j.Str? && IsHexDigest(j.s)
  }

  predicate SummaryAgrees(manifest: Fields) {
    var summary := Lookup(manifest, "hashes");
    && summary.Obj?
    && Lookup(summary.fields, "manifest_sha256") == Lookup(manifest, "manifest_sha256")
    && Lookup(summary.fields, "package_sha256") == Lookup(manifest, "package_sha256")
  }

  /** A package that carries both of its own digests, twice. */
  ghost predicate SelfConsistent(tools: Tools, manifest: Fields, files: Tree)
    requires Orders(tools.order)
  {
    && ManifestDigest(tools, manifest).Some? && PackageDigest(tools, files, manifest).Some?
    && var own, package := ManifestDigest(tools, manifest).value, PackageDigest(tools, files, manifest).value;
    && IsHexDigest(own) && IsHexDigest(package)
    && Lookup(manifest, "manifest_sha256") == Str(own) && Lookup(manifest, "package_sha256") == Str(package)
    && Lookup(manifest, "hashes").Obj?
    && Lookup(manifest["hashes"].fields, "manifest_sha256") == Str(own)
    && Lookup(manifest["hashes"].fields, "package_sha256") == Str(package)
  }

  ghost predicate Present(p: Problem, tools: Tools, manifest: Fields, files: Tree)
    requires Orders(tools.order)
  {
    var own, package := Lookup(manifest, "manifest_sha256"), Lookup(manifest, "package_sha256");
    match p
    case ManifestHashMalformed => !WellFormedHash(own)
    case PackageHashMalformed => !WellFormedHash(package)
    case SummaryInconsistent => !SummaryAgrees(manifest)
    case ManifestMismatch =>
      WellFormedHash(own) && ManifestDigest(tools, manifest).Some? && ManifestDigest(tools, manifest) != Some(own.s)
    case ManifestUnhashable => WellFormedHash(own) && ManifestDigest(tools, manifest).None?
    case PackageMismatch =>
      WellFormedHash(package) && PackageDigest(tools, files, manifest).Some?
      && PackageDigest(tools, files, manifest) != Some(package.s)
    case PackageUnhashable => WellFormedHash(package) && PackageDigest(tools, files, manifest).None?
  }

  /** Exactly the problems of rank `lo` to `hi`, each once and in order. */
  ghost predicate Reports(problems: seq<Problem>, lo: nat, hi: nat, tools: Tools, manifest: Fields, files: Tree)
    requires Orders(tools.order)
  {
    && (forall p :: p in problems <==> lo <= Rank(p) < hi && Present(p, tools, manifest, files))
    && (forall i, j | 0 <= i < j < |problems| :: Rank(problems[i]) < Rank(problems[j]))
  }

  lemma ReportsJoin(a: seq<Problem>, b: seq<Problem>, lo: nat, mid: nat, hi: nat, tools: Tools, manifest: Fields, files: Tree)
    requires Orders(tools.order) && lo <= mid <= hi
    requires Reports(a, lo, mid, tools, manifest, files) && Reports(b, mid, hi, tools, manifest, files)
    ensures Reports(a + b, lo, hi, tools, manifest, files)
  {
    hide Present;
    forall i, j | 0 <= i < j < |a + b| ensures Rank((a + b)[i]) < Rank((a + b)[j]) {
      if i < |a| <= j { assert a[i] in a && b[j - |a|] in b; }
    }
  }

  method CheckSummary(tools: Tools, manifest: Fields, ghost files: Tree) returns (problems: seq<Problem>)
    requires Orders(tools.order)
    ensures Reports(problems, 0, 3, tools, manifest, files)
  {
    problems := [];
    if !WellFormedHash(Lookup(manifest, "manifest_sha256")) { problems := problems + [ManifestHashMalformed]; }
    if !WellFormedHash(Lookup(manifest, "package_sha256")) { problems := problems + [PackageHashMalformed]; }
    if !SummaryAgrees(manifest) { problems := problems + [SummaryInconsistent]; }
  }

  method CheckManifestHash(tools: Tools, manifest: Fields, ghost files: Tree) returns (problems: seq<Problem>)
    requires Orders(tools.order)
    ensures Reports(problems, 3, 4, tools, manifest, files)
  {
    var recorded := Lookup(manifest, "manifest_sha256");
    if !WellFormedHash(recorded) { return []; }
    var digest := ManifestDigest(tools, manifest);
    return if digest.None? then [ManifestUnhashable] else if digest.value != recorded.s then [ManifestMismatch] else [];
  }

  method CheckPackageHash(tools: Tools, manifest: Fields, files: Tree) returns (problems: seq<Problem>)
    requires Orders(tools.order)
    ensures Reports(problems, 4, 5, tools, manifest, files)
  {
    hide DigestOf; hide PackageDigest; hide ManifestDigest; hide Orders; hide SummaryAgrees; hide IsHexDigest;
    var recorded := Lookup(manifest, "package_sha256");
    if !WellFormedHash(recorded) { return []; }
    var digest := ComputePackageDigest(tools, files, manifest);
    return if digest.None? then [PackageUnhashable] else if digest.value != recorded.s then [PackageMismatch] else [];
  }

  /** Reports every way the package contradicts its recorded hashes, in a fixed order. */
  method VerifyPackage(tools: Tools, manifest: Fields, files: Tree) returns (problems: seq<Problem>)
    requires Orders(tools.order)
    ensures Reports(problems, 0, 5, tools, manifest, files)
    ensures problems == [] <==> SelfConsistent(tools, manifest, files)
  {
    hide *;
    var summary := CheckSummary(tools, manifest, files);
    var own := CheckManifestHash(tools, manifest, files);
    var package := CheckPackageHash(tools, manifest, files);
    problems := summary + own + package;
    ReportsJoin(summary, own, 0, 3, 4, tools, manifest, files);
    ReportsJoin(summary + own, package, 0, 4, 5, tools, manifest, files);
    NoneReportedIff(problems, tools, manifest, files);
  }

  lemma NoneReportedIff(problems: seq<Problem>, tools: Tools, manifest: Fields, files: Tree)
    requires Orders(tools.order) && Reports(problems, 0, 5, tools, manifest, files)
    ensures problems == [] <==> SelfConsistent(tools, manifest, files)
  {
    NoProblemIff(tools, manifest, files);
    hide Present; hide SelfConsistent; hide Orders;
    if problems != [] { assert problems[0] in problems; }
  }

  lemma NoProblemIff(tools: Tools, manifest: Fields, files: Tree)
    requires Orders(tools.order)
    ensures SelfConsistent(tools, manifest, files) <==> forall p :: !Present(p, tools, manifest, files)
  {
    hide WithoutDerived; hide Digest; hide PackageView; hide IsHexDigest;
    if forall p :: !Present(p, tools, manifest, files) {
      assert !Present(ManifestHashMalformed, tools, manifest, files);
      assert !Present(PackageHashMalformed, tools, manifest, files);
      assert !Present(SummaryInconsistent, tools, manifest, files);
      assert !Present(ManifestMismatch, tools, manifest, files);
      assert !Present(ManifestUnhashable, tools, manifest, files);
      assert !Present(PackageMismatch, tools, manifest, files);
      assert !Present(PackageUnhashable, tools, manifest, files);
    }
  }

  // -------------------------------------------------------------- writing a manifest

  /** A manifest with its own digests written into it, as the runner does last. */
  function Filled(manifest: Fields, own: string, package: string): Fields {
    manifest["manifest_sha256" := Str(own)]["package_sha256" := Str(package)]
            ["hashes" := Obj(map["manifest_sha256" := Str(own), "package_sha256" := Str(package)])]
  }

  lemma FilledView(manifest: Fields, own: string, package: string)
    ensures WithoutDerived(Filled(manifest, own, package)) == WithoutDerived(manifest) - {"hashes"}
  {
    var filled := Filled(manifest, own, package);
    ViewParts(filled);
    ViewParts(manifest);
    assert filled["hashes"].fields.Keys <= DERIVED;
    assert "hashes" !in WithoutDerived(filled);
    assert filled - DERIVED - {"hashes"} == manifest - DERIVED - {"hashes"};
    assert WithoutDerived(filled) - {"hashes"} == WithoutDerived(filled);
  }

  /** The two digests refer to nothing they change: a manifest filled with its own
      digests passes its own verification exactly when it had no hash summary of its
      own besides derived fields.  The two views must not collide. */
  lemma FilledManifestPassesIff(tools: Tools, manifest: Fields, files: Tree)
    requires Orders(tools.order) && HexHashes(tools) && ReadsBack(tools)
    requires Canonical(Obj(WithoutDerived(manifest)))
    requires var view := WithoutDerived(manifest);
      tools.sha(tools.encode(Obj(view))) == tools.sha(tools.encode(Obj(view - {"hashes"})))
      ==> tools.encode(Obj(view)) == tools.encode(Obj(view - {"hashes"}))
    ensures ManifestDigest(tools, manifest).Some? && PackageDigest(tools, files, manifest).Some?
    ensures SelfConsistent(tools, Filled(manifest, ManifestDigest(tools, manifest).value,
                                         PackageDigest(tools, files, manifest).value), files)
       <==> SummaryEvidence(manifest).None?
  {
    PackageCanonical(tools, files, manifest);
    var own, package := ManifestDigest(tools, manifest).value, PackageDigest(tools, files, manifest).value;
    var filled, view := Filled(manifest, own, package), WithoutDerived(manifest);
    FilledView(manifest, own, package);
    ViewParts(manifest);
    if SummaryEvidence(manifest).None? {
      assert view - {"hashes"} == view;
      SameViewFills(tools, files, manifest, own, package);
    } else {
      LostSummaryShows(tools, view);
      hide WithoutDerived; hide SummaryEvidence; hide Canonical; hide PackageView;
      assert ManifestDigest(tools, filled) != Some(own);
    }
  }

  /** A manifest whose view filling does not change carries its own digests once filled. */
  lemma SameViewFills(tools: Tools, files: Tree, manifest: Fields, own: string, package: string)
    requires Orders(tools.order) && HexHashes(tools)
    requires ManifestDigest(tools, manifest) == Some(own) && PackageDigest(tools, files, manifest) == Some(package)
    requires WithoutDerived(Filled(manifest, own, package)) == WithoutDerived(manifest)
    ensures SelfConsistent(tools, Filled(manifest, own, package), files)
  {
    hide WithoutDerived; hide Canonical; hide Excluded; hide Orders;
    var filled := Filled(manifest, own, package);
    assert PackageView(tools, files, filled) == PackageView(tools, files, manifest);
  }

  lemma LostSummaryShows(tools: Tools, view: Fields)
    requires ReadsBack(tools) && Canonical(Obj(view)) && "hashes" in view
    requires tools.sha(tools.encode(Obj(view))) == tools.sha(tools.encode(Obj(view - {"hashes"})))
      ==> tools.encode(Obj(view)) == tools.encode(Obj(view - {"hashes"}))
    ensures Digest(tools, Obj(view - {"hashes"})) != Digest(tools, Obj(view))
  {
    var rest := view - {"hashes"};
    forall k | k in rest ensures Canonical(rest[k]) { assert Canonical(view[k]); }
    assert tools.parse(tools.encode(Obj(view))) == Some(Obj(view));
    assert tools.parse(tools.encode(Obj(rest))) == Some(Obj(rest));
    assert "hashes" !in rest;
  }

  // ----------------------------------------------------------- the runtime manifest

  datatype Refusal =
    | Unreadable
    | NotAnObject
    | IndexMissing
    | IndexInconsistent
    | Contradiction(problem: Problem)

  /** A manifest that claims to summarise a run. */
  predicate IsRuntime(manifest: Fields) {
    exists k | k in {"status", "artifacts", "manifest_sha256", "package_sha256", "hashes"} :: k in manifest
  }

  ghost predicate RuntimeManifestOk(tools: Tools, files: Tree)
    requires Orders(tools.order)
  {
    && MANIFEST in files && tools.parse(files[MANIFEST]).Some? && tools.parse(files[MANIFEST]).value.Obj?
    && var manifest := tools.parse(files[MANIFEST]).value.fields;
    && ("status" in manifest || "artifacts" in manifest || "manifest_sha256" in manifest || "package_sha256" in manifest
        || "hashes" in manifest ==>
         && Lookup(manifest, "artifacts") == Obj(IndexOf(tools, files)) && IndexOf(tools, files) != map[]
         && SelfConsistent(tools, manifest, files))
  }

  /** What a package is refused for: the first thing that is wrong with it. */
  ghost predicate RefusedFor(tools: Tools, files: Tree, refusal: Refusal)
    requires Orders(tools.order)
  {
    if MANIFEST !in files || tools.parse(files[MANIFEST]).None? then refusal == Unreadable
    else if !tools.parse(files[MANIFEST]).value.Obj? then refusal == NotAnObject
    else
      var manifest := tools.parse(files[MANIFEST]).value.fields;
      var artifacts := Lookup(manifest, "artifacts");
      if artifacts == Obj(map[]) || !artifacts.Obj? then refusal == IndexMissing
      else if !Indexes(tools, files, artifacts.fields) then refusal == IndexInconsistent
      else
        && refusal.Contradiction? && Present(refusal.problem, tools, manifest, files)
        && (Present(ManifestHashMalformed, tools, manifest, files) ==> refusal.problem == ManifestHashMalformed)
        && (refusal.problem != ManifestHashMalformed && Present(PackageHashMalformed, tools, manifest, files) ==>
             refusal.problem == PackageHashMalformed)
        && (refusal.problem == PackageMismatch || refusal.problem == PackageUnhashable ==>
             forall p | Present(p, tools, manifest, files) :: p == refusal.problem)
        && (refusal.problem == ManifestMismatch || refusal.problem == ManifestUnhashable ==>
             !Present(SummaryInconsistent, tools, manifest, files))
  }

  lemma SameIndex(tools: Tools, files: Tree, a: Fields, b: Fields)
    requires Indexes(tools, files, a) && Indexes(tools, files, b)
    ensures a == b
  {
    hide Called;
    forall p ensures p in a <==> p in b {}
    forall p | p in a ensures a[p] == b[p] {}
  }

  method ValidateRuntimeManifest(tools: Tools, files: Tree) returns (refusal: Option<Refusal>)
    requires Orders(tools.order)
    ensures refusal.None? <==> RuntimeManifestOk(tools, files)
    ensures refusal.Some? ==> RefusedFor(tools, files, refusal.value)
  {
    hide Present; hide SelfConsistent; hide Indexes; hide IndexOf;
    if MANIFEST !in files { return Some(Unreadable); }
    var loaded := tools.parse(files[MANIFEST]);
    if loaded.None? { return Some(Unreadable); }
    if !loaded.value.Obj? { return Some(NotAnObject); }
    var manifest := loaded.value.fields;
    if !IsRuntime(manifest) { return None; }
    var artifacts := Lookup(manifest, "artifacts");
    if !artifacts.Obj? || artifacts.fields == map[] { return Some(IndexMissing); }
    var actual := ArtifactIndex(tools, files);
    if artifacts.fields != actual {
      if Indexes(tools, files, artifacts.fields) { SameIndex(tools, files, artifacts.fields, actual); }
      return Some(IndexInconsistent);
    }
    var problems := VerifyPackage(tools, manifest, files);
    if problems != [] {
      assert problems[0] in problems;
      return Some(Contradiction(problems[0]));
    }
    return None;
  }

  /** A marker write leaves a valid runtime package valid. */
  lemma MarkerWriteKeepsValid(tools: Tools, files: Tree, payload: Bytes)
    requires Orders(tools.order)
    ensures RuntimeManifestOk(tools, files[STATE := payload]) <==> RuntimeManifestOk(tools, files)
  {
    NestedManifestExcluded();
    hide Excluded; hide BaseName; hide SelfConsistent; hide IndexOf; hide IsRuntime; hide PackageDigest;
    var written := WithFile(files, STATE, Some(payload));
    assert |STATE| != |MANIFEST|;
    if MANIFEST in files && tools.parse(files[MANIFEST]).Some? && tools.parse(files[MANIFEST]).value.Obj? {
      var manifest := tools.parse(files[MANIFEST]).value.fields;
      ExcludedUnseen(tools, files, STATE, Some(payload), manifest);
      SameDigestSameVerdict(tools, manifest, written, files);
    }
  }

  lemma SameDigestSameVerdict(tools: Tools, manifest: Fields, f: Tree, g: Tree)
    requires Orders(tools.order) && PackageDigest(tools, f, manifest) == PackageDigest(tools, g, manifest)
    ensures SelfConsistent(tools, manifest, f) <==> SelfConsistent(tools, manifest, g)
  {
    hide PackageDigest; hide ManifestDigest; hide IsHexDigest;
  }
}
