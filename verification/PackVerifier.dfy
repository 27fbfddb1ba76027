/**
 The independent consumer of install packs, verify_manifest_and_extract in scripts/canary_ba_install.py,
 and its agreement with the renderer.
 */
module PackVerifier {
  import opened Wrappers
  import opened Text
  import opened PathOrder
  import opened InstallPack

  // ---- what is accepted ----

  /** A relative path without a parent step: pathlib drops empty and "." parts, so only ".." remains. */
  predicate SafePath(name: string) {
    (name == [] || name[0] != '/') && ".." !in Split(name, '/')
  }

  /** The fields a plan promises. */
  datatype Plan = Plan(packId: Option<string>, packDigest: Option<string>, serverName: string, endpoint: string)

  function Names<T>(s: seq<Keyed<T>>): (names: set<string>)
    ensures forall i :: 0 <= i < |s| ==> s[i].path in names
  {
    set i | 0 <= i < |s| :: s[i].path
  }

  /** The last value under a name: zipfile.read, and a dictionary filled in order. */
  function LastOf<T>(s: seq<Keyed<T>>, name: string): T
    requires name in Names(s)
  {
    var n := |s| - 1;
    if s[n].path == name then s[n].value else LastOf(s[..n], name)
  }

  /** Of several values under a name the one that no other comes after. */
  lemma {:induction false} LastOfIs<T>(s: seq<Keyed<T>>, name: string)
    requires name in Names(s)
    ensures exists i :: 0 <= i < |s| && s[i] == Keyed(name, LastOf(s, name)) && forall j :: i < j < |s| ==> s[j].path != name
  {
    var n := |s| - 1;
    if s[n].path != name {
      var k :| 0 <= k < |s| && s[k].path == name;
      assert s[..n][k] == s[k];
      LastOfIs(s[..n], name);
      var i :| 0 <= i < n && s[..n][i] == Keyed(name, LastOf(s[..n], name)) && forall j :: i < j < n ==> s[..n][j].path != name;
      assert s[i] == Keyed(name, LastOf(s, name)) && forall j :: i < j < |s| ==> s[j].path != name;
    }
  }

  predicate HeaderOk(m: Manifest, plan: Plan) {
    && m.schema == SCHEMA && m.head.packId == plan.packId && m.head.packDigest == plan.packDigest
    && m.head.serverName == plan.serverName && m.head.endpoint == plan.endpoint
    && !m.bearerEmbedded && !m.leaseEmbedded
  }

  /** int(size or -1) == len(body): a recorded size of zero counts as missing. */
  predicate SizeOk(size: nat, body: Body) { (if size == 0 then -1 else size) == |body| }

  predicate Verified(codec: Codec, body: Body, entry: Entry) {
    codec.digest(body) == entry.checksum && SizeOk(entry.size, body)
  }

  ghost predicate ManifestAccepts(codec: Codec, plan: Plan, zip: Zip, m: Manifest) {
    && HeaderOk(m, plan) && m.entries != []
    && (forall name :: name in Names(m.entries) ==> SafePath(name))
    && Names(zip) == Names(m.entries) + {MANIFEST_NAME}
    && forall name :: name in Names(m.entries) ==> name in Names(zip) && Verified(codec, LastOf(zip, name), LastOf(m.entries, name))
  }

  ghost predicate Accepts(codec: Codec, plan: Plan, zip: Zip) {
    && MANIFEST_NAME in Names(zip)
    && (forall name :: name in Names(zip) ==> SafePath(name))
    && codec.parse(LastOf(zip, MANIFEST_NAME)).Some?
    && ManifestAccepts(codec, plan, zip, codec.parse(LastOf(zip, MANIFEST_NAME)).value)
  }

  // ---- paths that lead out of the target directory ----

  /** An absolute path, or one with ".." as a whole step. */
  ghost predicate Escapes(name: string) {
    (name != [] && name[0] == '/') || exists i: nat :: i + 2 <= |name| && ParentAt(name, i)
  }

  /** The two dots at i are a step of their own. */
  predicate ParentAt(name: string, i: nat)
    requires i + 2 <= |name|
  {
    && name[i] == '.' && name[i + 1] == '.' && (i == 0 || name[i - 1] == '/')
    && (i + 2 == |name| || name[i + 2] == '/')
  }

  /** The first step, and what follows its slash. */
  lemma {:induction false} SplitFirst(s: string, n: nat)
    requires n <= |s| && '/' !in s[..n] && (n < |s| ==> s[n] == '/')
    ensures Split(s, '/') == [s[..n]] + if n < |s| then Split(s[n + 1..], '/') else []
  {
    if n < |s| {
      assert s == s[..n] + ['/'] + s[n + 1..];
      SplitAt(s[..n], '/', s[n + 1..]);
    } else {
      assert s[..n] == s;
      SplitWhole(s, '/');
    }
  }

  lemma {:induction false} FirstSlash(s: string, i: nat) returns (n: nat)
    requires i <= |s| && '/' !in s[..i]
    ensures i <= n <= |s| && '/' !in s[..n] && (n < |s| ==> s[n] == '/')
    decreases |s| - i
  {
    if i == |s| || s[i] == '/' {
      n := i;
    } else {
      assert s[..i + 1] == s[..i] + [s[i]];
      n := FirstSlash(s, i + 1);
    }
  }

  ghost predicate HasParent(s: string) { exists i: nat :: i + 2 <= |s| && ParentAt(s, i) }

  lemma {:induction false} ParentStepIff(s: string)
    ensures ".." in Split(s, '/') <==> HasParent(s)
    decreases |s|
  {
    hide Split;
    var n := FirstSlash(s, 0);
    SplitFirst(s, n);
    FirstIs(s, n);
    if n < |s| {
      ParentStepIff(s[n + 1..]);
      ParentShift(s, n);
    } else {
      NoSlash(s);
    }
  }

  lemma FirstIs(s: string, n: nat)
    requires n <= |s| && '/' !in s[..n] && (n < |s| ==> s[n] == '/')
    ensures s[..n] == ".." <==> |s| >= 2 && n == 2 && ParentAt(s, 0)
  {
  }

  /** With no slash the path is one step. */
  lemma NoSlash(s: string)
    requires '/' !in s
    ensures HasParent(s) <==> s == ".."
  {
    if HasParent(s) {
      var i: nat :| i + 2 <= |s| && ParentAt(s, i);
      OnlyStep(s, i);
    }
    ParentItself();
  }

  lemma OnlyStep(s: string, i: nat)
    requires '/' !in s && i + 2 <= |s| && ParentAt(s, i)
    ensures s == ".."
  {
  }

  lemma ParentItself()
    ensures HasParent("..")
  {
    assert ParentAt("..", 0);
  }

  lemma NoSlashBefore(s: string, n: nat)
    requires n <= |s| && '/' !in s[..n]
    ensures forall k :: 0 <= k < n ==> s[k] != '/'
  {
    forall k | 0 <= k < n ensures s[k] != '/' {
      assert s[..n][k] == s[k];
    }
  }

  /** A parent step is the first one, or lies after the first slash. */
  lemma ParentShift(s: string, n: nat)
    requires n < |s| && '/' !in s[..n] && s[n] == '/'
    ensures HasParent(s) <==> (|s| >= 2 && n == 2 && ParentAt(s, 0)) || HasParent(s[n + 1..])
  {
    var t := s[n + 1..];
    if HasParent(s) {
      var i: nat :| i + 2 <= |s| && ParentAt(s, i);
      if i > n {
        assert ParentAt(t, i - n - 1);
      } else {
        NoSlashBefore(s, n);
      }
    }
    if HasParent(t) {
      var i: nat :| i + 2 <= |t| && ParentAt(t, i);
      assert ParentAt(s, i + n + 1);
    }
  }

  lemma EscapesIff(name: string)
    ensures SafePath(name) <==> !Escapes(name)
  {
    hide Split;
    ParentStepIff(name);
  }

  // ---- the verifying code ----

  lemma NamesStep<T>(s: seq<Keyed<T>>, i: nat)
    requires i < |s|
    ensures Names(s[..i + 1]) == Names(s[..i]) + {s[i].path}
    ensures forall name :: name in Names(s[..i + 1]) ==>
      LastOf(s[..i + 1], name) == if s[i].path == name then s[i].value else LastOf(s[..i], name)
  {
    var t := s[..i + 1];
    assert t[..i] == s[..i];
    forall name | name in Names(t) ensures name in Names(s[..i]) + {s[i].path} {
      var k :| 0 <= k < |t| && t[k].path == name;
      if k < i {
        assert s[..i][k].path == name;
      }
    }
    forall name | name in Names(s[..i]) ensures name in Names(t) {
      var k :| 0 <= k < |s[..i]| && s[..i][k].path == name;
      assert t[k].path == name;
    }
    assert Names(t) == Names(s[..i]) + {s[i].path};
    forall name | name in Names(t)
      ensures LastOf(t, name) == if s[i].path == name then s[i].value else LastOf(s[..i], name)
    {
      assert t[|t| - 1] == s[i];
    }
  }

  method AllSafe<T>(s: seq<Keyed<T>>) returns (ok: bool)
    ensures ok <==> forall name :: name in Names(s) ==> SafePath(name)
  {
    hide SafePath;
    for i := 0 to |s|
      invariant forall k :: 0 <= k < i ==> SafePath(s[k].path)
    {
      if !SafePath(s[i].path) {
        return false;
      }
    }
    ok := true;
  }

  /** entry_by_path[path] = entry, for every entry in order. */
  method EntryByPath(entries: seq<Keyed<Entry>>) returns (byPath: map<string, Entry>)
    ensures byPath.Keys == Names(entries)
    ensures forall name :: name in byPath ==> byPath[name] == LastOf(entries, name)
  {
    byPath := map[];
    for i := 0 to |entries|
      invariant byPath.Keys == Names(entries[..i])
      invariant forall name :: name in byPath ==> byPath[name] == LastOf(entries[..i], name)
    {
      NamesStep(entries, i);
      byPath := byPath[entries[i].path := entries[i].value];
    }
    assert entries[..|entries|] == entries;
  }

  method ReadEntry(zip: Zip, name: string) returns (body: Body)
    requires name in Names(zip)
    ensures body == LastOf(zip, name)
  {
    var i := |zip|;
    assert zip[..i] == zip;
    while i > 0
      invariant i <= |zip| && name in Names(zip[..i]) && LastOf(zip[..i], name) == LastOf(zip, name)
    {
      NamesStep(zip, i - 1);
      if zip[i - 1].path == name {
        return zip[i - 1].value;
      }
      i := i - 1;
    }
    assert false;
    body := [];
  }

  method ZipNames(zip: Zip) returns (names: set<string>)
    ensures names == Names(zip)
  {
    names := {};
    for i := 0 to |zip|
      invariant names == Names(zip[..i])
    {
      NamesStep(zip, i);
      names := names + {zip[i].path};
    }
    assert zip[..|zip|] == zip;
  }

  datatype Verdict = Accepted(entries: nat, manifestEntries: nat) | Rejected

  /** verify_manifest_and_extract up to the extraction: the counts, or a rejection. */
  method VerifyManifest(codec: Codec, plan: Plan, zip: Zip) returns (verdict: Verdict)
    ensures verdict.Accepted? <==> Accepts(codec, plan, zip)
    ensures verdict.Accepted? ==>
      verdict == Accepted(|zip|, |Names(codec.parse(LastOf(zip, MANIFEST_NAME)).value.entries)|)
  {
    hide SafePath, Names, LastOf, Verified, HeaderOk;
    var names := ZipNames(zip);
    if MANIFEST_NAME !in names {
      return Rejected;
    }
    var safe := AllSafe(zip);
    if !safe {
      return Rejected;
    }
    var raw := ReadEntry(zip, MANIFEST_NAME);
    var parsed := codec.parse(raw);
    if parsed.None? {
      return Rejected;
    }
    var m := parsed.value;
    if !HeaderOk(m, plan) || m.entries == [] {
      return Rejected;
    }
    var safeEntries := AllSafe(m.entries);
    if !safeEntries {
      return Rejected;
    }
    var byPath := EntryByPath(m.entries);
    if names != byPath.Keys + {MANIFEST_NAME} {
      return Rejected;
    }
    var left := byPath.Keys;
    while left != {}
      invariant left <= byPath.Keys
      invariant forall name :: name in byPath && name !in left ==> Verified(codec, LastOf(zip, name), LastOf(m.entries, name))
      decreases |left|
    {
      var path :| path in left;
      var body := ReadEntry(zip, path);
      if !Verified(codec, body, byPath[path]) {
        return Rejected;
      }
      left := left - {path};
    }
    verdict := Accepted(|zip|, |byPath|);
    assert |byPath| == |byPath.Keys|;
  }

  // ---- agreement with the renderer ----

  lemma {:induction false} LastOfDistinct<T>(s: seq<Keyed<T>>, i: nat)
    requires Distinct(s) && i < |s|
    ensures LastOf(s, s[i].path) == s[i].value
    decreases |s|
  {
    var n := |s| - 1;
    if i < n {
      LastOfDistinct(s[..n], i);
    }
  }

  lemma NamesMapped<A, B>(s: seq<Keyed<A>>, t: seq<Keyed<B>>)
    requires |s| == |t| && forall i :: 0 <= i < |s| ==> t[i].path == s[i].path
    ensures Names(t) == Names(s)
  {
    forall name | name in Names(s) ensures name in Names(t) {
      var i :| 0 <= i < |s| && s[i].path == name;
      assert t[i].path == name;
    }
    forall name | name in Names(t) ensures name in Names(s) {
      var i :| 0 <= i < |t| && t[i].path == name;
      assert s[i].path == name;
    }
  }

  lemma NamesCons<T>(x: Keyed<T>, s: seq<Keyed<T>>)
    ensures Names([x] + s) == {x.path} + Names(s)
  {
    var t := [x] + s;
    forall name | name in Names(t) ensures name in {x.path} + Names(s) {
      var i :| 0 <= i < |t| && t[i].path == name;
      if i > 0 {
        assert s[i - 1].path == name;
      }
    }
    forall name | name in {x.path} + Names(s) ensures name in Names(t) {
      assert t[0].path == x.path;
      if name in Names(s) {
        var i :| 0 <= i < |s| && s[i].path == name;
        assert t[i + 1].path == name;
      }
    }
  }

  /** Every file of the layout has a body, and its path is safe to extract. */
  predicate Extractable(file: File) { file.value.body != [] && SafePath(file.path) }

  function PlanOf(head: Head): Plan { Plan(head.packId, head.packDigest, head.serverName, head.endpoint) }

  lemma ManifestNameSafe()
    ensures SafePath(MANIFEST_NAME)
  {
    assert MANIFEST_NAME[0] == 'M' && '/' !in MANIFEST_NAME;
    SplitWhole(MANIFEST_NAME, '/');
    assert ".."[0] != MANIFEST_NAME[0];
  }

  lemma PackDistinct(codec: Codec, head: Head, files: seq<File>)
    requires Distinct(files) && MANIFEST_NAME !in Names(files)
    ensures Distinct(PackOf(codec, head, files).zip) && Distinct(PackOf(codec, head, files).manifest.entries)
  {
    var zip := PackOf(codec, head, files).zip;
    SamePaths(files, PackOf(codec, head, files).manifest.entries);
    forall i, j | 0 <= i < j < |zip| ensures zip[i].path != zip[j].path {
      assert zip[j].path == files[j - 1].path && files[j - 1].path in Names(files);
      assert i > 0 ==> zip[i].path == files[i - 1].path;
    }
  }

  lemma PackNames(codec: Codec, head: Head, files: seq<File>)
    ensures var pack := PackOf(codec, head, files);
      Names(pack.zip) == Names(files) + {MANIFEST_NAME} && Names(pack.manifest.entries) == Names(files)
  {
    hide Names;
    var pack := PackOf(codec, head, files);
    NamesMapped(files, FileEntries(files));
    NamesMapped(files, pack.manifest.entries);
    NamesCons(pack.zip[0], FileEntries(files));
  }

  /** What the manifest and the ZIP of a pack hold under the path of file i. */
  ghost predicate Holds(codec: Codec, head: Head, pack: Pack, file: File) {
    && file.path in Names(pack.zip) && file.path in Names(pack.manifest.entries)
    && LastOf(pack.zip, file.path) == file.value.body
    && LastOf(pack.manifest.entries, file.path) == EntryOf(codec, head.profile, file).value
  }

  lemma PackHolds(codec: Codec, head: Head, files: seq<File>, i: nat)
    requires Distinct(files) && MANIFEST_NAME !in Names(files) && i < |files|
    ensures Holds(codec, head, PackOf(codec, head, files), files[i])
  {
    hide Names, LastOf, Distinct;
    var pack := PackOf(codec, head, files);
    PackDistinct(codec, head, files);
    assert pack.zip[i + 1] == FileEntries(files)[i];
    LastOfDistinct(pack.zip, i + 1);
    LastOfDistinct(pack.manifest.entries, i);
    assert pack.zip[i + 1].path in Names(pack.zip) && pack.manifest.entries[i].path in Names(pack.manifest.entries);
  }

  /** What the ZIP of a pack holds under each name. */
  lemma PackReads(codec: Codec, head: Head, files: seq<File>)
    requires Distinct(files) && MANIFEST_NAME !in Names(files)
    ensures var pack := PackOf(codec, head, files);
      && Names(pack.zip) == Names(files) + {MANIFEST_NAME} && Names(pack.manifest.entries) == Names(files)
      && LastOf(pack.zip, MANIFEST_NAME) == codec.marshal(pack.manifest)
      && forall i :: 0 <= i < |files| ==> Holds(codec, head, pack, files[i])
  {
    hide Names, LastOf, Distinct, Holds;
    PackNames(codec, head, files);
    PackDistinct(codec, head, files);
    LastOfDistinct(PackOf(codec, head, files).zip, 0);
    forall i | 0 <= i < |files| ensures Holds(codec, head, PackOf(codec, head, files), files[i]) {
      PackHolds(codec, head, files, i);
    }
  }

  /**
   The verifier accepts a rendered pack exactly when its layout is not empty and every file has a non-empty
   body under a safe path. An empty file is refused although its checksum and size are right.
   */
  lemma VerifierAgrees(codec: Codec, head: Head, files: seq<File>)
    requires Distinct(files) && MANIFEST_NAME !in Names(files) && ParsesBack(codec)
    ensures Accepts(codec, PlanOf(head), PackOf(codec, head, files).zip)
      <==> files != [] && forall i :: 0 <= i < |files| ==> Extractable(files[i])
  {
    hide SafePath, Names, LastOf, Distinct;
    var pack := PackOf(codec, head, files);
    PackReads(codec, head, files);
    ManifestNameSafe();
    assert codec.parse(codec.marshal(pack.manifest)) == Some(pack.manifest);
    if files != [] && forall i :: 0 <= i < |files| ==> Extractable(files[i]) {
      forall name | name in Names(files) ensures SafePath(name) && Verified(codec, LastOf(pack.zip, name), LastOf(pack.manifest.entries, name)) {
        var i := IndexOfName(files, name);
      }
    }
    if Accepts(codec, PlanOf(head), pack.zip) {
      forall i | 0 <= i < |files| ensures Extractable(files[i]) {
        assert files[i].path in Names(files);
        assert Verified(codec, LastOf(pack.zip, files[i].path), LastOf(pack.manifest.entries, files[i].path));
      }
    }
  }

  /** The plan promises this pack: its four fields are those of the pack's head. */
  predicate Promises(plan: Plan, head: Head) {
    && plan.packId == head.packId && plan.packDigest == head.packDigest
    && plan.serverName == head.serverName && plan.endpoint == head.endpoint
  }

  /**
   Under any plan a rendered pack, in whatever order its layout was and whatever the sort, is accepted exactly
   when the plan promises it, its layout is not empty and every file has a non-empty body under a safe path.
   */
  lemma AcceptedUnderPlanIff(codec: Codec, plan: Plan, head: Head, files: seq<File>, pack: Pack)
    requires Distinct(files) && MANIFEST_NAME !in Names(files) && ParsesBack(codec) && Packs(codec, head, files, pack)
    ensures Accepts(codec, plan, pack.zip)
      <==> Promises(plan, head) && files != [] && forall i :: 0 <= i < |files| ==> Extractable(files[i])
  {
    hide Extractable, Distinct, Packs;
    RenderedAccepted(codec, head, files, pack);
    PackedManifest(codec, head, files, pack);
    hide SafePath, Names, LastOf, Verified;
    assert codec.parse(codec.marshal(pack.manifest)) == Some(pack.manifest);
  }

  /** The verifier finds the manifest of the pack under its name. */
  lemma PackedManifest(codec: Codec, head: Head, files: seq<File>, pack: Pack)
    requires Distinct(files) && MANIFEST_NAME !in Names(files) && Packs(codec, head, files, pack)
    ensures MANIFEST_NAME in Names(pack.zip) && LastOf(pack.zip, MANIFEST_NAME) == codec.marshal(pack.manifest)
    ensures pack.manifest.head == head && pack.manifest.schema == SCHEMA
    ensures !pack.manifest.bearerEmbedded && !pack.manifest.leaseEmbedded
  {
    hide Names, LastOf, Distinct, Packs;
    var ordered := SortExists(files);
    SortedPack(codec, head, files, ordered, pack);
    DistinctPermutation(files, ordered);
    PermutationNames(files, ordered);
    PackReads(codec, head, ordered);
  }

  /** An archive entry that a file may be extracted from: its recorded size and checksum are those of its bytes. */
  predicate Checked(codec: Codec, body: Body, entry: Entry) {
    body != [] && entry.size == |body| && entry.checksum == codec.digest(body)
  }

  /** What acceptance of any archive means: the plan's pack, no embedded secrets, and checked files under safe paths. */
  lemma AcceptedMeans(codec: Codec, plan: Plan, zip: Zip)
    requires Accepts(codec, plan, zip)
    ensures "MANIFEST.json" in Names(zip) && codec.parse(LastOf(zip, "MANIFEST.json")).Some?
    ensures var m := codec.parse(LastOf(zip, "MANIFEST.json")).value;
      && m.schema == "lesserbody.agent_local_install_pack.v1" && m.head.packId == plan.packId
      && m.head.packDigest == plan.packDigest && m.head.serverName == plan.serverName && m.head.endpoint == plan.endpoint
      && m.bearerEmbedded == false && m.leaseEmbedded == false && m.entries != []
      && Names(zip) == Names(m.entries) + {"MANIFEST.json"}
      && (forall name :: name in Names(zip) ==> !Escapes(name))
      && forall name :: name in Names(m.entries) ==> name in Names(zip) && Checked(codec, LastOf(zip, name), LastOf(m.entries, name))
  {
    hide Names, LastOf, Escapes, Split;
    forall name | name in Names(zip) ensures !Escapes(name) {
      EscapesIff(name);
    }
    var m := codec.parse(LastOf(zip, MANIFEST_NAME)).value;
    forall name | name in Names(m.entries) ensures name in Names(zip) && Checked(codec, LastOf(zip, name), LastOf(m.entries, name)) {
      assert Verified(codec, LastOf(zip, name), LastOf(m.entries, name));
    }
  }

  lemma IndexOfName<T>(s: seq<Keyed<T>>, name: string) returns (i: nat)
    requires name in Names(s)
    ensures i < |s| && s[i].path == name
  {
    i :| i < |s| && s[i].path == name;
  }

  /** The pack of any layout order, rendered by any sort, is accepted under the same condition. */
  lemma RenderedAccepted(codec: Codec, head: Head, files: seq<File>, pack: Pack)
    requires Distinct(files) && MANIFEST_NAME !in Names(files) && ParsesBack(codec)
    requires Packs(codec, head, files, pack)
    ensures Accepts(codec, PlanOf(head), pack.zip) <==> files != [] && forall i :: 0 <= i < |files| ==> Extractable(files[i])
  {
    hide Accepts, Extractable, Packs, Names, Distinct;
    var ordered := SortExists(files);
    SortedPack(codec, head, files, ordered, pack);
    DistinctPermutation(files, ordered);
    PermutationNames(files, ordered);
    VerifierAgrees(codec, head, ordered);
    assert |files| == |multiset(files)| == |multiset(ordered)| == |ordered|;
    forall i | 0 <= i < |files| ensures files[i] in ordered {
      assert files[i] in multiset(ordered);
    }
    forall i | 0 <= i < |ordered| ensures ordered[i] in files {
      assert ordered[i] in multiset(files);
    }
  }

  lemma PermutationNames<T>(a: seq<Keyed<T>>, b: seq<Keyed<T>>)
    requires multiset(a) == multiset(b)
    ensures Names(a) == Names(b)
  {
    forall name | name in Names(a) ensures name in Names(b) {
      var i := IndexOfName(a, name);
      assert a[i] in multiset(b);
      var j :| 0 <= j < |b| && b[j] == a[i];
    }
    forall name | name in Names(b) ensures name in Names(a) {
      var i := IndexOfName(b, name);
      assert b[i] in multiset(a);
      var j :| 0 <= j < |a| && a[j] == b[i];
    }
  }

  /** Whatever archive is accepted with the manifest of a pack holds, under every path, the very bytes of that pack. */
  lemma AcceptedIsAuthentic(codec: Codec, head: Head, files: seq<File>, zip: Zip, i: nat)
    requires Distinct(files) && MANIFEST_NAME !in Names(files) && ParsesBack(codec) && InjectiveDigest(codec)
    requires Accepts(codec, PlanOf(head), zip) && i < |files|
    requires LastOf(zip, MANIFEST_NAME) == codec.marshal(PackOf(codec, head, files).manifest)
    ensures Names(zip) == Names(files) + {MANIFEST_NAME}
    ensures files[i].path in Names(zip) && LastOf(zip, files[i].path) == files[i].value.body
  {
    hide SafePath, Names, LastOf, Distinct;
    var pack := PackOf(codec, head, files);
    PackReads(codec, head, files);
    assert codec.parse(codec.marshal(pack.manifest)) == Some(pack.manifest);
    assert files[i].path in Names(files);
    assert Verified(codec, LastOf(zip, files[i].path), LastOf(pack.manifest.entries, files[i].path));
  }

  /**
   An accepted archive whose manifest came from one rendering came from no other request: its manifest fixes
   the normalized request, and with it the path and bytes of every file.
   */
  lemma AcceptedFixesRequest(f: CaseMap, layouts: map<string, seq<Keyed<FileSpec>>>, codec: Codec, req: Request, req': Request,
                             files: seq<File>, files': seq<File>, zip: Zip)
    requires ParsesBack(codec) && InjectiveDigest(codec)
    requires Identify(f, layouts, req).Identified? && Identify(f, layouts, req').Identified?
    requires Distinct(files) && MANIFEST_NAME !in Names(files) && Distinct(files') && MANIFEST_NAME !in Names(files')
    requires Accepts(codec, PlanOf(Identify(f, layouts, req).head), zip)
    requires LastOf(zip, MANIFEST_NAME) == codec.marshal(PackOf(codec, Identify(f, layouts, req).head, files).manifest)
    requires LastOf(zip, MANIFEST_NAME) == codec.marshal(PackOf(codec, Identify(f, layouts, req').head, files').manifest)
    ensures SameRequest(f, req, req') && |files| == |files'|
    ensures forall i :: 0 <= i < |files| ==> files[i].path == files'[i].path && files[i].value.body == files'[i].value.body
  {
    hide Identify, Accepts, Distinct, Names, LastOf, SameRequest;
    var head, head' := Identify(f, layouts, req).head, Identify(f, layouts, req').head;
    var m, m' := PackOf(codec, head, files).manifest, PackOf(codec, head', files').manifest;
    assert codec.parse(codec.marshal(m)) == Some(m) && codec.parse(codec.marshal(m')) == Some(m');
    HeadIdentifiesRequest(f, layouts, req, req');
    assert |files| == |m.entries| == |m'.entries| == |files'|;
    forall i | 0 <= i < |files|
      ensures files[i].path == files'[i].path && files[i].value.body == files'[i].value.body
    {
      AcceptedIsAuthentic(codec, head, files, zip, i);
      AcceptedIsAuthentic(codec, head', files', zip, i);
      assert m.entries[i] == EntryOf(codec, head.profile, files[i]) && m'.entries[i] == EntryOf(codec, head'.profile, files'[i]);
    }
  }

  // ---- the built-in layouts ----

  const CLAUDE_CODE_PATHS: seq<string> := [".mcp.json", "CLAUDE.md", ".lesser-body" + "/" + "install-marker.json", "INSTALL.md"]
  const CODEX_PATHS: seq<string> :=
    [".mcp.json", ".codex" + "/" + "config.toml", "AGENTS.md", ".lesser-body" + "/" + "install-marker.json", "INSTALL.md"]

  /** A name without slashes, other than the parent step. */
  predicate Step(s: string) { s != [] && '/' !in s && s != ".." }

  lemma StepSafe(s: string)
    requires Step(s)
    ensures SafePath(s)
  {
    SplitWhole(s, '/');
    assert s[0] in s;
  }

  lemma TwoStepsSafe(s: string, t: string)
    requires Step(s) && Step(t)
    ensures SafePath(s + "/" + t)
  {
    SplitWhole(t, '/');
    SplitAt(s, '/', t);
    assert s[0] in s && s + "/" + t == s + ['/'] + t && (s + "/" + t)[0] == s[0];
  }

  lemma DefaultSteps()
    ensures Step(".mcp.json") && Step("CLAUDE.md") && Step("INSTALL.md") && Step("AGENTS.md")
    ensures Step(".lesser-body") && Step("install-marker.json") && Step(".codex") && Step("config.toml")
  {
    assert |".."| == 2;
  }

  /** The two built-in layouts meet the conditions under which packs are deterministic and accepted. */
  lemma DefaultPathsQualify(paths: seq<string>, i: nat, j: nat)
    requires paths == CLAUDE_CODE_PATHS || paths == CODEX_PATHS
    requires i < |paths| && j < |paths|
    ensures SafePath(paths[i]) && paths[i] != MANIFEST_NAME && (i != j ==> paths[i] != paths[j])
  {
    hide SafePath, Step;
    DefaultSteps();
    StepSafe(".mcp.json");
    StepSafe("CLAUDE.md");
    StepSafe("INSTALL.md");
    StepSafe("AGENTS.md");
    TwoStepsSafe(".lesser-body", "install-marker.json");
    TwoStepsSafe(".codex", "config.toml");
    assert |paths[i]| == |paths[j]| ==> i == j || paths[i][0] != paths[j][0];
    assert |MANIFEST_NAME| == 13;
  }
}
