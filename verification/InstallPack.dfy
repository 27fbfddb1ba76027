/**
 Rendering an install pack, internal/installpack/renderer.go, and the independent verifier of
 scripts/canary_ba_install.py. A ZIP is its ordered list of entries; JSON, SHA-256 and the template engine
 are parameters.
 */
module PathOrder {
  import opened Text

  /** Something filed under a path. */
  datatype Keyed<+T> = Keyed(path: string, value: T)

  /** The order sort.Slice establishes: nobody is below an earlier one. */
  predicate Ascending<T>(s: seq<Keyed<T>>) {
    forall i, j :: 0 <= i < j < |s| ==> !Below(s[j].path, s[i].path)
  }

  predicate Distinct<T>(s: seq<Keyed<T>>) {
    forall i, j :: 0 <= i < j < |s| ==> s[i].path != s[j].path
  }

  /** What sort.Slice may return: it is not stable, so any ascending permutation. */
  ghost predicate Sorting<T>(s: seq<Keyed<T>>, sorted: seq<Keyed<T>>) {
    multiset(s) == multiset(sorted) && Ascending(sorted)
  }

  lemma {:induction false} DistinctPermutation<T>(a: seq<Keyed<T>>, b: seq<Keyed<T>>)
    requires Distinct(a) && multiset(a) == multiset(b)
    ensures Distinct(b)
  {
    forall i, j | 0 <= i < j < |b| ensures b[i].path != b[j].path {
      if b[i].path == b[j].path {
        assert b[i] in multiset(a) && b[j] in multiset(a);
        var k :| 0 <= k < |a| && a[k] == b[i];
        var l :| 0 <= l < |a| && a[l] == b[j];
        assert k == l;
        TwiceInMultiset(b, i, j);
        OnceInMultiset(a, k);
      }
    }
  }

  lemma TwiceInMultiset<T>(s: seq<T>, i: nat, j: nat)
    requires i < j < |s| && s[i] == s[j]
    ensures multiset(s)[s[i]] >= 2
  {
    assert s == s[..i] + [s[i]] + s[i + 1..j] + [s[j]] + s[j + 1..];
  }

  lemma {:induction false} OnceInMultiset<T>(s: seq<Keyed<T>>, k: nat)
    requires Distinct(s) && k < |s|
    ensures multiset(s)[s[k]] == 1
  {
    assert s == s[..k] + [s[k]] + s[k + 1..];
    assert s[k] !in s[..k] && s[k] !in s[k + 1..];
  }

  function Without<T>(s: seq<T>, k: nat): (rest: seq<T>)
    requires k < |s|
    ensures |rest| == |s| - 1
    ensures forall i :: 0 <= i < k ==> rest[i] == s[i]
    ensures forall i :: k <= i < |rest| ==> rest[i] == s[i + 1]
  {
    s[..k] + s[k + 1..]
  }

  lemma WithoutMultiset<T>(s: seq<T>, k: nat)
    requires k < |s|
    ensures multiset(s) == multiset(Without(s, k)) + multiset{s[k]}
  {
    assert s == s[..k] + [s[k]] + s[k + 1..];
  }

  lemma TailMultiset<T>(s: seq<T>)
    requires s != []
    ensures multiset(s) == multiset(s[1..]) + multiset{s[0]}
  {
    assert s == [s[0]] + s[1..];
  }

  lemma Cancel<T>(m: multiset<T>, n: multiset<T>, x: T)
    requires m + multiset{x} == n + multiset{x}
    ensures m == n
  {
    assert m == (m + multiset{x}) - multiset{x} && n == (n + multiset{x}) - multiset{x};
  }

  lemma Tail<T>(s: seq<Keyed<T>>)
    requires s != []
    ensures Distinct(s) ==> Distinct(s[1..])
    ensures Ascending(s) ==> Ascending(s[1..])
  {
    hide Below;
  }

  /** With distinct paths there is only one ascending permutation, so the sort algorithm does not matter. */
  lemma {:induction false} SortingUnique<T>(a: seq<Keyed<T>>, b: seq<Keyed<T>>)
    requires Distinct(a) && multiset(a) == multiset(b) && Ascending(a) && Ascending(b)
    ensures a == b
    decreases |a|
  {
    hide Distinct, Ascending;
    assert |a| == |multiset(a)| == |multiset(b)| == |b|;
    if a != [] {
      DistinctPermutation(a, b);
      FirstOf(a, b);
      Tail(a);
      Tail(b);
      TailMultiset(a);
      TailMultiset(b);
      Cancel(multiset(a[1..]), multiset(b[1..]), a[0]);
      SortingUnique(a[1..], b[1..]);
      assert a == [a[0]] + a[1..] && b == [b[0]] + b[1..];
    }
  }

  lemma FirstOf<T>(a: seq<Keyed<T>>, b: seq<Keyed<T>>)
    requires a != [] && b != [] && Distinct(a) && Distinct(b) && multiset(a) == multiset(b) && Ascending(a) && Ascending(b)
    ensures a[0] == b[0]
  {
    assert a[0] in multiset(b) && b[0] in multiset(a);
    var i :| 0 <= i < |b| && b[i] == a[0];
    var j :| 0 <= j < |a| && a[j] == b[0];
    BelowTotal(a[0].path, b[0].path);
  }

  lemma {:induction false} Inserted<T>(x: Keyed<T>, s: seq<Keyed<T>>) returns (r: seq<Keyed<T>>)
    requires Ascending(s)
    ensures Ascending(r) && multiset(r) == multiset(s) + multiset{x}
  {
    hide Below;
    if s == [] {
      r := [x];
    } else if Below(s[0].path, x.path) {
      BelowTotal(s[0].path, x.path);
      var rest := Inserted(x, s[1..]);
      TailMultiset(s);
      r := [s[0]] + rest;
      forall k | 0 <= k < |rest| ensures !Below(rest[k].path, s[0].path) {
        assert rest[k] in multiset(rest);
        assert rest[k] == x || rest[k] in multiset(s[1..]);
      }
    } else {
      r := [x] + s;
      forall k | 0 <= k < |s| ensures !Below(s[k].path, x.path) {
        if k > 0 {
          NotBelowChain(x.path, s[0].path, s[k].path);
        }
      }
    }
  }

  /** There is always a sorted order. */
  lemma {:induction false} SortExists<T>(s: seq<Keyed<T>>) returns (ordered: seq<Keyed<T>>)
    ensures Sorting(s, ordered)
  {
    if s == [] {
      ordered := [];
    } else {
      TailMultiset(s);
      ordered := SortExists(s[1..]);
      ordered := Inserted(s[0], ordered);
    }
  }

  /** sort.Slice by path: here an insertion sort, in place. */
  method SortSlice<T>(a: array<Keyed<T>>)
    modifies a
    ensures Sorting(old(a[..]), a[..])
  {
    for i := 0 to a.Length
      invariant Ascending(a[..i]) && multiset(a[..]) == multiset(old(a[..]))
    {
      InsertAt(a, i);
    }
    assert a[..a.Length] == a[..];
  }

  lemma SwapMultiset<T>(s: seq<T>, i: nat, j: nat)
    requires i < j < |s|
    ensures multiset(s[i := s[j]][j := s[i]]) == multiset(s)
  {
    assert s == s[..i] + [s[i]] + s[i + 1..j] + [s[j]] + s[j + 1..];
    assert s[i := s[j]][j := s[i]] == s[..i] + [s[j]] + s[i + 1..j] + [s[i]] + s[j + 1..];
  }

  /** Ascending up to i, apart from element j. */
  ghost predicate AscendingBut<T>(s: seq<Keyed<T>>, i: nat, j: nat)
    requires i < |s|
  {
    forall k, l :: 0 <= k < l <= i && l != j ==> !Below(s[l].path, s[k].path)
  }

  lemma SwapAscends<T>(s: seq<Keyed<T>>, i: nat, j: nat)
    requires 0 < j <= i < |s| && AscendingBut(s, i, j) && Below(s[j].path, s[j - 1].path)
    ensures AscendingBut(s[j - 1 := s[j]][j := s[j - 1]], i, j - 1)
  {
    var t := s[j - 1 := s[j]][j := s[j - 1]];
    forall k, l | 0 <= k < l <= i && l != j - 1 ensures !Below(t[l].path, t[k].path) {
      if l == j && k == j - 1 {
        BelowTotal(s[j].path, s[j - 1].path);
      } else if l == j {
        assert t[l] == s[j - 1] && t[k] == s[k];
      } else if k == j - 1 {
        assert t[l] == s[l] && t[k] == s[j];
      } else if k == j {
        assert t[l] == s[l] && t[k] == s[j - 1];
      }
    }
  }

  lemma Sunk<T>(s: seq<Keyed<T>>, i: nat, j: nat)
    requires j <= i < |s| && AscendingBut(s, i, j) && (j > 0 ==> !Below(s[j].path, s[j - 1].path))
    ensures Ascending(s[..i + 1])
  {
    forall k, l | 0 <= k < l <= i ensures !Below(s[l].path, s[k].path) {
      if l == j && k < j - 1 {
        NotBelowChain(s[k].path, s[j - 1].path, s[j].path);
      }
    }
  }

  /** Sinks element i into the ascending prefix before it. */
  method InsertAt<T>(a: array<Keyed<T>>, i: nat)
    requires i < a.Length && Ascending(a[..i])
    modifies a
    ensures Ascending(a[..i + 1]) && multiset(a[..]) == multiset(old(a[..]))
  {
    assert forall k :: 0 <= k < i ==> a[..][k] == a[..i][k];
    hide Below;
    var j: nat := i;
    while j > 0 && Below(a[j].path, a[j - 1].path)
      invariant j <= i
      invariant multiset(a[..]) == multiset(old(a[..]))
      invariant AscendingBut(a[..], i, j)
    {
      SwapMultiset(a[..], j - 1, j);
      SwapAscends(a[..], i, j);
      ghost var swapped := a[..][j - 1 := a[j]][j := a[j - 1]];
      a[j - 1], a[j] := a[j], a[j - 1];
      assert a[..] == swapped;
      j := j - 1;
    }
    Sunk(a[..], i, j);
    assert a[..][..i + 1] == a[..i + 1];
  }

  /** s <= t and t <= u give s <= u. */
  lemma NotBelowChain(s: string, t: string, u: string)
    requires !Below(t, s) && !Below(u, t)
    ensures !Below(u, s)
  {
    BelowTotal(s, t);
    BelowTotal(t, u);
    if Below(s, t) && Below(t, u) {
      BelowTransitive(s, t, u);
    }
    BelowTotal(s, u);
  }
}

module InstallPack {
  import opened Wrappers
  import opened Text
  import opened PathOrder
  import PackId
  import ServerName

  type Body = seq<bv8>

  datatype FileSpec = FileSpec(
    role: string, kind: string, mediaType: string, required: bool, description: string, template: string)

  /** A layout file with its rendered body, filed under its path. */
  datatype Rendered = Rendered(spec: FileSpec, body: Body)
  type File = Keyed<Rendered>

  datatype Entry = Entry(
    spec: FileSpec, size: nat, checksum: string, source: string, profile: string)

  /** The fields that identify a pack; blank optional fields are omitted from the JSON. */
  datatype Head = Head(
    profile: string, packId: Option<string>, packDigest: Option<string>, account: Option<string>, actor: string,
    ns: Option<string>, stageDomain: string, serverName: string, endpoint: string)

  datatype Manifest = Manifest(
    schema: string, head: Head, bearerEmbedded: bool, leaseEmbedded: bool, entries: seq<Keyed<Entry>>)

  const MANIFEST_NAME := "MANIFEST.json"
  const SCHEMA := "lesserbody.agent_local_install_pack.v1"
  const SOURCE := "lesser-body/internal/installpack"

  /** JSON and SHA-256: parse undoes marshal. */
  datatype Codec = Codec(marshal: Manifest -> Body, parse: Body -> Option<Manifest>, digest: Body -> string)

  ghost predicate ParsesBack(codec: Codec) { forall m :: codec.parse(codec.marshal(m)) == Some(m) }

  ghost predicate InjectiveDigest(codec: Codec) { forall a, b :: codec.digest(a) == codec.digest(b) ==> a == b }

  // ---- rendering ----

  datatype Request = Request(
    profile: string, stageDomain: string, actor: string, ns: string, account: string, packId: string, packDigest: string)

  function Present(s: string): Option<string> { if Trim(s) == "" then None else Some(Trim(s)) }

  datatype Error = BadProfile | BadStageDomain | BadActor | NoLayout | BadServerName | RenderFailed

  datatype Identified = Identified(head: Head) | Refused(error: Error)

  /** The checks of Render before any file is rendered, in their order. */
  function Identify(f: CaseMap, layouts: map<string, seq<Keyed<FileSpec>>>, req: Request): Identified {
    var profile := PackId.NormalizeClient(f, req.profile);
    var domain, actor := Normalize(f, req.stageDomain), Trim(req.actor);
    if !PackId.SupportedClient(profile) then Refused(BadProfile)
    else if !ServerName.ValidStageDomain(domain) then Refused(BadStageDomain)
    else if !ServerName.ValidActor(actor) then Refused(BadActor)
    else if profile !in layouts then Refused(NoLayout)
    else
      match ServerName.McpServerName(f, domain, actor)
      case Name(name) =>
        Identified(Head(profile, Present(req.packId), Present(req.packDigest), Present(req.account), actor,
                        Present(req.ns), domain, name, "https://api." + domain + "/mcp/" + actor))
      case _ => Refused(BadServerName)
  }

  function EntryOf(codec: Codec, profile: string, file: File): Keyed<Entry> {
    Keyed(file.path, Entry(file.value.spec, |file.value.body|, codec.digest(file.value.body), SOURCE, profile))
  }

  function Entries(codec: Codec, profile: string, files: seq<File>): (entries: seq<Keyed<Entry>>)
    ensures |entries| == |files|
    ensures forall i :: 0 <= i < |files| ==> entries[i] == EntryOf(codec, profile, files[i])
  {
    seq(|files|, i requires 0 <= i < |files| => EntryOf(codec, profile, files[i]))
  }

  function ManifestOf(head: Head, entries: seq<Keyed<Entry>>): Manifest {
    Manifest(SCHEMA, head, false, false, entries)
  }

  /** A ZIP: entries in order, each filed under its name. */
  type Zip = seq<Keyed<Body>>

  function FileEntries(files: seq<File>): (entries: Zip)
    ensures |entries| == |files|
    ensures forall i :: 0 <= i < |files| ==> entries[i] == Keyed(files[i].path, files[i].value.body)
  {
    seq(|files|, i requires 0 <= i < |files| => Keyed(files[i].path, files[i].value.body))
  }

  datatype Pack = Pack(manifest: Manifest, zip: Zip)

  /** The pack over files that are already in path order. */
  function PackOf(codec: Codec, head: Head, ordered: seq<File>): Pack {
    var manifest := ManifestOf(head, Entries(codec, head.profile, ordered));
    Pack(manifest, [Keyed(MANIFEST_NAME, codec.marshal(manifest))] + FileEntries(ordered))
  }

  /** What the source builds from a layout order: two sorts, each any ascending permutation. */
  ghost predicate Packs(codec: Codec, head: Head, files: seq<File>, pack: Pack) {
    && Sorting(Entries(codec, head.profile, files), pack.manifest.entries)
    && pack.manifest == ManifestOf(head, pack.manifest.entries)
    && pack.zip != [] && pack.zip[0] == Keyed(MANIFEST_NAME, codec.marshal(pack.manifest))
    && Sorting(FileEntries(files), pack.zip[1..])
  }

  lemma {:induction false} MapMultiset<A, B>(g: A -> B, a: seq<A>, b: seq<A>, ga: seq<B>, gb: seq<B>)
    requires multiset(a) == multiset(b) && |ga| == |a| && |gb| == |b|
    requires forall i :: 0 <= i < |a| ==> ga[i] == g(a[i])
    requires forall i :: 0 <= i < |b| ==> gb[i] == g(b[i])
    ensures multiset(ga) == multiset(gb)
    decreases |a|
  {
    assert |a| == |multiset(a)| == |multiset(b)| == |b|;
    if a != [] {
      assert a[0] in multiset(a);
      var k := IndexOf(b, a[0]);
      TailMultiset(a);
      TailMultiset(ga);
      WithoutMultiset(b, k);
      WithoutMultiset(gb, k);
      hide Without;
      Cancel(multiset(a[1..]), multiset(Without(b, k)), a[0]);
      MapMultiset(g, a[1..], Without(b, k), ga[1..], Without(gb, k));
    }
  }

  lemma IndexOf<A>(s: seq<A>, x: A) returns (k: nat)
    requires x in multiset(s)
    ensures k < |s| && s[k] == x
  {
    k :| k < |s| && s[k] == x;
  }

  lemma SamePaths<A, B>(s: seq<Keyed<A>>, t: seq<Keyed<B>>)
    requires |s| == |t| && forall i :: 0 <= i < |s| ==> t[i].path == s[i].path
    ensures Distinct(s) ==> Distinct(t)
    ensures Ascending(s) ==> Ascending(t)
  {
    hide Below;
  }

  lemma SortedEntries(codec: Codec, profile: string, files: seq<File>, ordered: seq<File>, entries: seq<Keyed<Entry>>)
    requires Distinct(files) && Sorting(files, ordered) && Sorting(Entries(codec, profile, files), entries)
    ensures entries == Entries(codec, profile, ordered)
  {
    hide Distinct, Ascending;
    DistinctPermutation(files, ordered);
    var g := (file: File) => EntryOf(codec, profile, file);
    MapMultiset(g, files, ordered, Entries(codec, profile, files), Entries(codec, profile, ordered));
    SamePaths(ordered, Entries(codec, profile, ordered));
    SortingUnique(Entries(codec, profile, ordered), entries);
  }

  lemma SortedBodies(files: seq<File>, ordered: seq<File>, entries: Zip)
    requires Distinct(files) && Sorting(files, ordered) && Sorting(FileEntries(files), entries)
    ensures entries == FileEntries(ordered)
  {
    hide Distinct, Ascending;
    DistinctPermutation(files, ordered);
    var g := (file: File) => Keyed(file.path, file.value.body);
    MapMultiset(g, files, ordered, FileEntries(files), FileEntries(ordered));
    SamePaths(ordered, FileEntries(ordered));
    SortingUnique(FileEntries(ordered), entries);
  }

  /** The files of a layout sorted once give both the manifest and the ZIP. */
  lemma SortedPack(codec: Codec, head: Head, files: seq<File>, ordered: seq<File>, pack: Pack)
    requires Distinct(files) && Sorting(files, ordered) && Packs(codec, head, files, pack)
    ensures pack == PackOf(codec, head, ordered)
  {
    hide Distinct, Sorting;
    SortedEntries(codec, head.profile, files, ordered, pack.manifest.entries);
    SortedBodies(files, ordered, pack.zip[1..]);
    assert pack.zip == [pack.zip[0]] + pack.zip[1..];
  }

  /** Manifest and ZIP do not depend on the order of the layout, nor on how the sort treats its input. */
  lemma LayoutOrderIrrelevant(codec: Codec, head: Head, files: seq<File>, files': seq<File>, pack: Pack, pack': Pack)
    requires Distinct(files) && multiset(files) == multiset(files')
    requires Packs(codec, head, files, pack) && Packs(codec, head, files', pack')
    ensures pack == pack'
  {
    hide Packs;
    var ordered := SortExists(files);
    DistinctPermutation(files, files');
    SortedPack(codec, head, files, ordered, pack);
    SortedPack(codec, head, files', ordered, pack');
  }

  // ---- the rendering code ----

  type Templates = (FileSpec, Head) -> Option<Body>

  /** The files of a layout with their bodies; None when one of them fails to render. */
  function RenderFiles(templates: Templates, head: Head, layout: seq<Keyed<FileSpec>>): Option<seq<File>> {
    if layout == [] then Some([])
    else
      var before :- RenderFiles(templates, head, layout[..|layout| - 1]);
      var spec := layout[|layout| - 1];
      var body :- templates(spec.value, head);
      Some(before + [Keyed(spec.path, Rendered(spec.value, body))])
  }

  /** Rendering keeps the paths of the layout, in order. */
  lemma {:induction false} RenderedPaths(templates: Templates, head: Head, layout: seq<Keyed<FileSpec>>)
    requires RenderFiles(templates, head, layout).Some?
    ensures var files := RenderFiles(templates, head, layout).value;
      |files| == |layout| && forall i :: 0 <= i < |files| ==> files[i].path == layout[i].path
  {
    if layout != [] {
      RenderedPaths(templates, head, layout[..|layout| - 1]);
    }
  }

  method ManifestEntries(codec: Codec, profile: string, files: seq<File>) returns (entries: seq<Keyed<Entry>>)
    ensures Sorting(Entries(codec, profile, files), entries)
  {
    entries := [];
    for i := 0 to |files|
      invariant entries == Entries(codec, profile, files)[..i]
    {
      entries := entries + [EntryOf(codec, profile, files[i])];
    }
    var a := new Keyed<Entry>[|entries|](i requires 0 <= i < |entries| => entries[i]);
    assert a[..] == Entries(codec, profile, files);
    SortSlice(a);
    entries := a[..];
  }

  method BuildZip(manifest: Body, files: seq<File>) returns (zip: Zip)
    ensures zip != [] && zip[0] == Keyed(MANIFEST_NAME, manifest) && Sorting(FileEntries(files), zip[1..])
  {
    var ordered := new File[|files|](i requires 0 <= i < |files| => files[i]);
    assert ordered[..] == files;
    SortSlice(ordered);
    ghost var sorted := ordered[..];
    zip := [Keyed(MANIFEST_NAME, manifest)];
    for i := 0 to ordered.Length
      invariant ordered[..] == sorted
      invariant zip == [Keyed(MANIFEST_NAME, manifest)] + FileEntries(sorted)[..i]
    {
      zip := zip + [Keyed(ordered[i].path, ordered[i].value.body)];
    }
    assert zip[1..] == FileEntries(sorted);
    MapMultiset((file: File) => Keyed(file.path, file.value.body), files, sorted, FileEntries(files), FileEntries(sorted));
    SamePaths(sorted, FileEntries(sorted));
  }

  datatype Result = Success(pack: Pack) | Failure(error: Error)

  method RenderLayout(templates: Templates, head: Head, layout: seq<Keyed<FileSpec>>) returns (files: Option<seq<File>>)
    ensures files == RenderFiles(templates, head, layout)
  {
    hide RenderFiles;
    var rendered: seq<File> := [];
    NothingRendered(templates, head);
    assert layout[..0] == [];
    for i := 0 to |layout|
      invariant RenderFiles(templates, head, layout[..i]) == Some(rendered)
    {
      RenderStep(templates, head, layout, i);
      var body := templates(layout[i].value, head);
      if body.None? {
        RenderFails(templates, head, layout, i + 1);
        return None;
      }
      rendered := rendered + [Keyed(layout[i].path, Rendered(layout[i].value, body.value))];
    }
    assert layout[..|layout|] == layout;
    files := Some(rendered);
  }

  /** Render: a pack of exactly the rendered layout, or the first failing check. */
  method Render(f: CaseMap, layouts: map<string, seq<Keyed<FileSpec>>>, templates: Templates, codec: Codec, req: Request)
    returns (result: Result)
    ensures match Identify(f, layouts, req)
      case Refused(error) => result == Failure(error)
      case Identified(head) =>
        head.profile in layouts
        && var files := RenderFiles(templates, head, layouts[head.profile]);
          if files.None? then result == Failure(RenderFailed)
          else result.Success? && Packs(codec, head, files.value, result.pack)
  {
    IdentifiedProfile(f, layouts, req);
    hide Packs, RenderFiles, Identify, Sorting;
    var identified := Identify(f, layouts, req);
    if identified.Refused? {
      return Failure(identified.error);
    }
    var head := identified.head;
    var rendered := RenderLayout(templates, head, layouts[head.profile]);
    if rendered.None? {
      return Failure(RenderFailed);
    }
    var entries := ManifestEntries(codec, head.profile, rendered.value);
    var manifest := ManifestOf(head, entries);
    var zip := BuildZip(codec.marshal(manifest), rendered.value);
    result := Success(Pack(manifest, zip));
    Packed(codec, head, rendered.value, result.pack);
  }

  lemma Packed(codec: Codec, head: Head, files: seq<File>, pack: Pack)
    requires Sorting(Entries(codec, head.profile, files), pack.manifest.entries)
    requires pack.manifest == ManifestOf(head, pack.manifest.entries)
    requires pack.zip != [] && pack.zip[0] == Keyed(MANIFEST_NAME, codec.marshal(pack.manifest))
    requires Sorting(FileEntries(files), pack.zip[1..])
    ensures Packs(codec, head, files, pack)
  {
  }

  lemma IdentifiedProfile(f: CaseMap, layouts: map<string, seq<Keyed<FileSpec>>>, req: Request)
    ensures Identify(f, layouts, req).Identified? ==> Identify(f, layouts, req).head.profile in layouts
  {
    hide PackId.NormalizeClient, ServerName.McpServerName, ServerName.ValidActor, ServerName.ValidStageDomain;
  }

  lemma NothingRendered(templates: Templates, head: Head)
    ensures RenderFiles(templates, head, []) == Some([])
  {
  }

  lemma RenderStep(templates: Templates, head: Head, layout: seq<Keyed<FileSpec>>, i: nat)
    requires i < |layout| && RenderFiles(templates, head, layout[..i]).Some?
    ensures RenderFiles(templates, head, layout[..i + 1])
      == var body := templates(layout[i].value, head);
         if body.None? then None
         else Some(RenderFiles(templates, head, layout[..i]).value + [Keyed(layout[i].path, Rendered(layout[i].value, body.value))])
  {
    assert layout[..i + 1][..i] == layout[..i];
  }

  lemma {:induction false} RenderFails(templates: Templates, head: Head, layout: seq<Keyed<FileSpec>>, n: nat)
    requires n <= |layout| && RenderFiles(templates, head, layout[..n]).None?
    ensures RenderFiles(templates, head, layout).None?
    decreases |layout| - n
  {
    if n < |layout| {
      assert layout[..n + 1][..n] == layout[..n];
      RenderFails(templates, head, layout, n + 1);
    } else {
      assert layout[..n] == layout;
    }
  }

  /** The no-server-name error of Render cannot happen: the checks before it make the name. */
  lemma AlwaysNamed(f: CaseMap, layouts: map<string, seq<Keyed<FileSpec>>>, req: Request)
    ensures Identify(f, layouts, req) != Refused(BadServerName)
    ensures Identify(f, layouts, req).Identified? ==>
      ServerName.Matches(ServerName.BRAND, Identify(f, layouts, req).head.serverName)
  {
    hide PackId.NormalizeClient, ServerName.McpServerName, ServerName.ValidActor, ServerName.ValidStageDomain, ServerName.Matches;
    var domain, actor := Normalize(f, req.stageDomain), Trim(req.actor);
    NormalizeIdempotent(f, req.stageDomain);
    ServerName.ServerNameInGrammar(f, domain, actor);
  }

  /** Two requests that identify the same pack. */
  ghost predicate SameRequest(f: CaseMap, req: Request, req': Request) {
    && PackId.NormalizeClient(f, req.profile) == PackId.NormalizeClient(f, req'.profile)
    && Normalize(f, req.stageDomain) == Normalize(f, req'.stageDomain) && Trim(req.actor) == Trim(req'.actor)
    && Trim(req.ns) == Trim(req'.ns) && Trim(req.account) == Trim(req'.account)
    && Trim(req.packId) == Trim(req'.packId) && Trim(req.packDigest) == Trim(req'.packDigest)
  }

  /** The identifying fields of a manifest determine the request, up to the normalization of each field. */
  lemma HeadIdentifiesRequest(f: CaseMap, layouts: map<string, seq<Keyed<FileSpec>>>, req: Request, req': Request)
    requires Identify(f, layouts, req).Identified? && Identify(f, layouts, req') == Identify(f, layouts, req)
    ensures SameRequest(f, req, req')
  {
    hide PackId.NormalizeClient, ServerName.McpServerName, ServerName.ValidActor, ServerName.ValidStageDomain, Trim, Normalize;
  }
}
