/**
 What a rendered install pack holds and what it is called, said on the request, the layout and the rendered
 bodies alone.
 */
module PackOutcomes {
  import opened Wrappers
  import opened Text
  import opened PathOrder
  import opened InstallPack
  import opened ServerName
  import PackId
  import RedemptionOutcomes

  // ---- the words of an actor ----

  predicate Gap(s: string) { forall c :: c in s ==> !('a' <= c <= 'z') && !('0' <= c <= '9') }

  /** The words in order, each with the gap before it. */
  function Woven(gaps: seq<string>, words: seq<string>): string
    requires |gaps| == |words|
  {
    if words == [] then ""
    else Woven(gaps[..|gaps| - 1], words[..|words| - 1]) + gaps[|gaps| - 1] + words[|words| - 1]
  }

  /** The words are the runs of lower-case letters and digits: what is between two of them is neither, and not empty. */
  ghost predicate Runs(s: string, words: seq<string>, gaps: seq<string>, tail: string) {
    && |gaps| == |words| && s == Woven(gaps, words) + tail && Gap(tail)
    && (forall g :: g in gaps ==> Gap(g)) && (forall i :: 1 <= i < |gaps| ==> gaps[i] != "")
    && forall w :: w in words ==> w != "" && forall c :: c in w ==> 'a' <= c <= 'z' || '0' <= c <= '9'
  }

  lemma {:induction false} WordsAreRuns(s: string) returns (gaps: seq<string>, tail: string)
    ensures Runs(s, Words(s), gaps, tail)
    ensures tail == "" <==> s == "" || EndsInWord(s)
  {
    if s == "" {
      gaps, tail := [], "";
    } else {
      var init, c := s[..|s| - 1], s[|s| - 1];
      assert s == init + [c];
      WordsSnoc(init, c);
      gaps, tail := WordsAreRuns(init);
      if !NameChar(c) {
        tail := tail + [c];
        assert s == Woven(gaps, Words(s)) + tail;
      } else if EndsInWord(init) {
        WovenExtended(gaps, Words(init), c);
        RunsExtended(Words(init), c);
      } else {
        WovenAppended(gaps, Words(init), tail, [c]);
        gaps, tail := gaps + [tail], "";
      }
    }
  }

  lemma WovenExtended(gaps: seq<string>, words: seq<string>, c: char)
    requires |gaps| == |words| && words != []
    ensures Woven(gaps, ExtendLast(words, c)) == Woven(gaps, words) + [c]
  {
    var after := ExtendLast(words, c);
    assert after[..|after| - 1] == words[..|words| - 1];
  }

  lemma RunsExtended(words: seq<string>, c: char)
    requires words != [] && NameChar(c) && forall w :: w in words ==> IsWord(w)
    ensures forall w :: w in ExtendLast(words, c) ==> IsWord(w)
  {
    assert words[|words| - 1] in words;
  }

  lemma WovenAppended(gaps: seq<string>, words: seq<string>, gap: string, word: string)
    requires |gaps| == |words|
    ensures Woven(gaps + [gap], words + [word]) == Woven(gaps, words) + gap + word
  {
    assert (gaps + [gap])[..|gaps|] == gaps && (words + [word])[..|words|] == words;
  }

  // ---- what can be named ----

  predicate DomainChar(c: char) { 'a' <= c <= 'z' || '0' <= c <= '9' || c == '-' || c == '.' }

  /** The character at a position, with a dot before and after the text. */
  function Around(s: string, i: int): char { if 0 <= i < |s| then s[i] else '.' }

  predicate Beside(c: char, d: char) { !(c == '.' && (d == '.' || d == '-')) && !(c == '-' && d == '.') }

  /** Lower-case letters, digits, dots and dashes; no dot or dash at an end or beside another dot. */
  predicate DomainText(s: string) {
    (forall i :: 0 <= i < |s| ==> DomainChar(s[i])) && forall i :: 0 <= i <= |s| ==> Beside(Around(s, i - 1), Around(s, i))
  }

  predicate AllLabels(s: string) { forall l :: l in Split(s, '.') ==> ValidLabel(l) }

  lemma {:induction false} LabelsIff(s: string)
    ensures AllLabels(s) <==> DomainText(s)
    decreases |s|
  {
    hide Split, ValidLabel, DomainText;
    var n := FirstDot(s, 0);
    if n < |s| {
      var rest := s[n + 1..];
      assert s == s[..n] + ['.'] + rest;
      SplitAt(s[..n], '.', rest);
      LabelsIff(rest);
      DomainSplits(s, n);
      LabelIff(s[..n]);
      assert AllLabels(s) <==> ValidLabel(s[..n]) && AllLabels(rest) by {
        assert Split(s, '.') == [s[..n]] + Split(rest, '.');
        MembersOfSum(s[..n], Split(rest, '.'));
      }
    } else {
      assert s[..n] == s;
      SplitWhole(s, '.');
      LabelIff(s);
      assert AllLabels(s) <==> ValidLabel(s);
    }
  }

  lemma MembersOfSum<T>(x: T, rest: seq<T>)
    ensures forall y :: y in [x] + rest <==> y == x || y in rest
  {
  }

  lemma {:induction false} FirstDot(s: string, i: nat) returns (n: nat)
    requires i <= |s| && '.' !in s[..i]
    ensures i <= n <= |s| && '.' !in s[..n] && (n < |s| ==> s[n] == '.')
    decreases |s| - i
  {
    if i == |s| || s[i] == '.' {
      n := i;
    } else {
      assert s[..i + 1] == s[..i] + [s[i]];
      n := FirstDot(s, i + 1);
    }
  }

  lemma LabelIff(s: string)
    requires '.' !in s
    ensures ValidLabel(s) <==> DomainText(s)
  {
    if DomainText(s) {
      assert Beside(Around(s, -1), Around(s, 0)) && Beside(Around(s, |s| - 1), Around(s, |s|));
      assert forall c :: c in s ==> DomainChar(c);
    }
    if ValidLabel(s) {
      assert forall i :: 0 <= i < |s| ==> s[i] in s;
    }
  }

  lemma DomainSplits(s: string, n: nat)
    requires n < |s| && s[n] == '.'
    ensures DomainText(s) <==> DomainText(s[..n]) && DomainText(s[n + 1..])
  {
    hide DomainChar, Beside;
    var a, b := s[..n], s[n + 1..];
    assert forall i :: i <= n ==> Around(s, i) == Around(a, i);
    assert forall i :: i >= n ==> Around(s, i) == Around(b, i - n - 1);
    assert forall i :: -1 <= i <= |b| ==> Around(b, i) == Around(s, i + n + 1);
    if DomainText(a) && DomainText(b) {
      DotAllowed();
      forall i | 0 <= i < |s| ensures DomainChar(s[i]) {
        assert i < n ==> DomainChar(a[i]);
        assert i > n ==> DomainChar(b[i - n - 1]);
      }
      forall i | 0 <= i <= |s| ensures Beside(Around(s, i - 1), Around(s, i)) {
        if i <= n {
          assert Beside(Around(a, i - 1), Around(a, i));
        } else {
          assert Beside(Around(b, i - n - 2), Around(b, i - n - 1));
        }
      }
    }
    if DomainText(s) {
      forall i | 0 <= i < |b| ensures DomainChar(b[i]) {
        assert DomainChar(s[i + n + 1]);
      }
      forall i | 0 <= i <= |b| ensures Beside(Around(b, i - 1), Around(b, i)) {
        assert Beside(Around(s, i + n), Around(s, i + n + 1));
      }
    }
  }

  lemma DotAllowed()
    ensures DomainChar('.')
  {
  }

  lemma {:induction false} LabelCount(s: string)
    ensures |Split(s, '.')| >= 2 <==> '.' in s
  {
    if '.' !in s {
      SplitWhole(s, '.');
    } else if |Split(s, '.')| == 1 {
      var part := Split(s, '.')[0];
      assert Split(s, '.') == [part] && part in Split(s, '.');
      SplitOne(s, '.', part);
      assert false;
    }
  }

  /** A stage domain has at least two labels and is not itself the API host. */
  lemma StageDomainIff(s: string)
    ensures ValidStageDomain(s) <==> DomainText(s) && '.' in s && !("api." <= s)
  {
    hide Split, ValidLabel, DomainText;
    LabelsIff(s);
    LabelCount(s);
    DomainNotEmpty(s);
  }

  lemma DomainNotEmpty(s: string)
    ensures DomainText(s) ==> s != ""
  {
    assert Around("", -1) == Around("", 0) == '.';
    assert DomainText("") ==> Beside(Around("", 0 - 1), Around("", 0));
  }

  /** Printable ASCII, except what a path segment escapes. */
  lemma PathSafeIff(c: char)
    ensures PathSafe(c) <==> '!' < c <= '~' && c !in "\"#%'()*,/;<>?[\\]^`{|}"
  {
  }

  // ---- the server name ----

  /** The stage in the name of a server: from the first label, when there are at least three. */
  function Stage(domain: string): string {
    var labels := Split(domain, '.');
    if |labels| >= 3 && (labels[0] == "dev" || labels[0] == "lab") then "_lab"
    else if |labels| >= 3 && (labels[0] == "staging" || labels[0] == "stage") then "_staging"
    else ""
  }

  function ActorWords(f: CaseMap, actor: string): seq<string> {
    var words := Words(Trim(ToLower(f, Trim(actor))));
    if words == [] then ["agent"] else words
  }

  /** All of the part if it fits, or else its longest beginning that fits and does not end in an underscore. */
  predicate Cut(part: string, room: int, cut: string) {
    && cut <= part && (|part| <= room ==> cut == part)
    && (|part| > room ==>
         && 0 < |cut| <= room && cut[|cut| - 1] != '_'
         && forall i :: |cut| <= i < room ==> part[i] == '_')
  }

  ghost predicate NameOutcome(f: CaseMap, domain: string, actor: string, name: string) {
    var prefix := "lesser_ka" + Stage(domain) + "_";
    exists cut :: name == prefix + cut && Cut(Join(ActorWords(f, actor)), 80 - |prefix|, cut)
  }

  lemma CutIs(part: string, room: nat)
    requires Component(part) && room >= 1
    ensures Cut(part, room, Truncated(part, room))
  {
    TruncatedIsComponent(part, room);
    if |part| > room {
      var cut := part[..room];
      if cut[room - 1] == '_' {
        var t := cut[..room - 1];
        assert part[0] != '_' && room >= 2 && part[room - 2] != '_';
        assert TrimUnderscores(t) == t;
        assert TrimUnderscores(cut) == t;
      }
    }
  }

  lemma StageIs(domain: string)
    ensures NamePrefix(StageEnvironmentToken(domain)) == "lesser_ka" + Stage(domain)
  {
    hide Split;
  }

  lemma ActorPartIs(f: CaseMap, actor: string)
    ensures ActorPart(f, Trim(actor)) == Join(ActorWords(f, actor)) && Component(Join(ActorWords(f, actor)))
  {
    hide Trim, ToLower, Words, Component;
    WordsJoinedFixed(Trim(ToLower(f, Trim(actor))));
    ActorPartIsComponent(f, Trim(actor));
    assert Join(["agent"]) == "agent";
  }

  lemma NameIs(f: CaseMap, stageDomain: string, actor: string)
    requires McpServerName(f, stageDomain, actor).Name?
    ensures NameOutcome(f, Normalize(f, stageDomain), actor, McpServerName(f, stageDomain, actor).name)
  {
    hide Normalize, ValidStageDomain, ValidActor, Words, Component, ActorPart, StageEnvironmentToken, Truncated, ActorWords, Cut, Stage;
    var domain := Normalize(f, stageDomain);
    StageIs(domain);
    StageLength(domain);
    ActorPartIs(f, actor);
    var part, prefix := ActorPart(f, Trim(actor)), "lesser_ka" + Stage(domain) + "_";
    CutIs(part, 80 - |prefix|);
    TruncatedIsComponent(part, 80 - |prefix|);
    NotEmpty(Truncated(part, 80 - |prefix|));
    assert McpServerName(f, stageDomain, actor).name == prefix + Truncated(part, 80 - |prefix|);
  }

  lemma NotEmpty(s: string)
    requires Component(s)
    ensures s != ""
  {
  }

  lemma StageLength(domain: string)
    ensures |"lesser_ka" + Stage(domain) + "_"| <= 18
    ensures |"lesser_ka" + Stage(domain)| + 1 == |"lesser_ka" + Stage(domain) + "_"|
  {
  }

  // ---- who the pack is for ----

  function Optional(s: string): Option<string> { if Trim(s) == "" then None else Some(Trim(s)) }

  /** The first check that fails, in the order in which they are made; otherwise these fields. */
  ghost predicate IdentityOutcome(f: CaseMap, layouts: map<string, seq<Keyed<FileSpec>>>, req: Request, identified: Identified) {
    var profile := RedemptionOutcomes.ClientName(f, req.profile);
    var domain, actor := ToLower(f, Trim(req.stageDomain)), Trim(req.actor);
    if profile != "claude_code" && profile != "codex" then identified == Refused(BadProfile)
    else if !ValidStageDomain(domain) then identified == Refused(Error.BadStageDomain)
    else if !ValidActor(actor) then identified == Refused(Error.BadActor)
    else if profile !in layouts then identified == Refused(NoLayout)
    else
      && identified.Identified? && NameOutcome(f, domain, actor, identified.head.serverName)
      && identified.head
         == Head(profile, Optional(req.packId), Optional(req.packDigest), Optional(req.account), actor, Optional(req.ns),
                 domain, identified.head.serverName, "https://api." + domain + "/mcp/" + actor)
  }

  lemma IdentifyIs(f: CaseMap, layouts: map<string, seq<Keyed<FileSpec>>>, req: Request)
    ensures IdentityOutcome(f, layouts, req, Identify(f, layouts, req))
  {
    hide Trim, ToLower, ValidStageDomain, ValidActor, PackId.NormalizeClient, PackId.SupportedClient, McpServerName, NameOutcome,
      RedemptionOutcomes.ClientName;
    RedemptionOutcomes.ClientIs(f, req.profile);
    RedemptionOutcomes.ClientIs(f, RedemptionOutcomes.ClientName(f, req.profile));
    AlwaysNamed(f, layouts, req);
    var domain, actor := Normalize(f, req.stageDomain), Trim(req.actor);
    NormalizeIdempotent(f, req.stageDomain);
    ServerNameInGrammar(f, domain, actor);
    if McpServerName(f, domain, actor).Name? {
      NameIs(f, domain, actor);
    }
  }

  // ---- what the pack holds ----

  /** Exactly the files of the layout, in order, each with the body its template gives; None when a template fails. */
  lemma {:induction false} RenderedIs(templates: Templates, head: Head, layout: seq<Keyed<FileSpec>>)
    ensures var files := RenderFiles(templates, head, layout);
      && (files.None? <==> exists i :: 0 <= i < |layout| && templates(layout[i].value, head).None?)
      && (files.Some? ==>
           && |files.value| == |layout|
           && forall i :: 0 <= i < |layout| ==>
                files.value[i]
                == Keyed(layout[i].path, Rendered(layout[i].value, templates(layout[i].value, head).value)))
  {
    if layout != [] {
      var n := |layout| - 1;
      RenderedIs(templates, head, layout[..n]);
      assert forall i :: 0 <= i < n ==> layout[..n][i] == layout[i];
    }
  }

  function Listed(codec: Codec, profile: string, file: File): Keyed<Entry> {
    Keyed(file.path, Entry(file.value.spec, |file.value.body|, codec.digest(file.value.body),
                           "lesser-body/internal/installpack", profile))
  }

  /**
   The manifest lists every file once with its size and checksum, the archive holds every file once after the
   manifest, both in path order, and neither holds anything else.
   */
  ghost predicate PackOutcome(codec: Codec, head: Head, files: seq<File>, pack: Pack) {
    var m, zip := pack.manifest, pack.zip;
    && m.schema == "lesserbody.agent_local_install_pack.v1" && m.head == head && !m.bearerEmbedded && !m.leaseEmbedded
    && |m.entries| == |files| && |zip| == 1 + |files|
    && zip[0] == Keyed("MANIFEST.json", codec.marshal(m))
    && (forall e :: e in m.entries <==> exists file :: file in files && e == Listed(codec, head.profile, file))
    && (forall e :: e in zip[1..] <==> exists file :: file in files && e == Keyed(file.path, file.value.body))
    && (forall i, j :: 0 <= i < j < |files| ==> !Below(m.entries[j].path, m.entries[i].path))
    && forall i, j :: 1 <= i < j < |zip| ==> !Below(zip[j].path, zip[i].path)
  }

  lemma EntriesHold(codec: Codec, profile: string, files: seq<File>, e: Keyed<Entry>)
    ensures e in Entries(codec, profile, files) <==> exists file :: file in files && e == Listed(codec, profile, file)
  {
    var entries := Entries(codec, profile, files);
    if file :| file in files && e == Listed(codec, profile, file) {
      var i :| 0 <= i < |files| && files[i] == file;
      assert entries[i] == e;
    }
    if e in entries {
      var i :| 0 <= i < |entries| && entries[i] == e;
      assert files[i] in files;
    }
  }

  lemma BodiesHold(files: seq<File>, e: Keyed<Body>)
    ensures e in FileEntries(files) <==> exists file :: file in files && e == Keyed(file.path, file.value.body)
  {
    var bodies := FileEntries(files);
    if file :| file in files && e == Keyed(file.path, file.value.body) {
      var i :| 0 <= i < |files| && files[i] == file;
      assert bodies[i] == e;
    }
    if e in bodies {
      var i :| 0 <= i < |bodies| && bodies[i] == e;
      assert files[i] in files;
    }
  }

  lemma PackContents(codec: Codec, head: Head, files: seq<File>, pack: Pack)
    requires Packs(codec, head, files, pack)
    ensures PackOutcome(codec, head, files, pack)
  {
    hide Below, Entries, FileEntries;
    SameSize(Entries(codec, head.profile, files), pack.manifest.entries);
    SameSize(FileEntries(files), pack.zip[1..]);
    forall e ensures e in pack.manifest.entries <==> exists file :: file in files && e == Listed(codec, head.profile, file) {
      EntriesHold(codec, head.profile, files, e);
      SameMember(Entries(codec, head.profile, files), pack.manifest.entries, e);
    }
    forall e ensures e in pack.zip[1..] <==> exists file :: file in files && e == Keyed(file.path, file.value.body) {
      BodiesHold(files, e);
      SameMember(FileEntries(files), pack.zip[1..], e);
    }
    forall i, j | 1 <= i < j < |pack.zip| ensures !Below(pack.zip[j].path, pack.zip[i].path) {
      assert pack.zip[1..][i - 1] == pack.zip[i] && pack.zip[1..][j - 1] == pack.zip[j];
    }
  }

  lemma SameSize<T>(s: seq<T>, t: seq<T>)
    requires multiset(s) == multiset(t)
    ensures |s| == |t|
  {
    assert |s| == |multiset(s)| == |multiset(t)| == |t|;
  }

  lemma SameMember<T>(s: seq<T>, t: seq<T>, x: T)
    requires multiset(s) == multiset(t)
    ensures x in s <==> x in t
  {
    assert x in s <==> x in multiset(s);
    assert x in t <==> x in multiset(t);
  }

  // ---- texts ----

  predicate FirstDifference(s: string, t: string, k: nat) {
    k <= |s| && k < |t| && s[..k] == t[..k] && (k == |s| || s[k] < t[k])
  }

  lemma DifferenceShifts(s: string, t: string, k: nat)
    requires s != [] && t != []
    ensures FirstDifference(s, t, k + 1) <==> s[0] == t[0] && FirstDifference(s[1..], t[1..], k)
  {
    if k < |s| && k < |t| {
      assert s[..k + 1] == [s[0]] + s[1..][..k] && t[..k + 1] == [t[0]] + t[1..][..k];
    }
  }

  /** Path order is decided by the first difference; a beginning comes before what it begins. */
  lemma {:induction false} BelowMeans(s: string, t: string)
    ensures Below(s, t) <==> exists k: nat :: FirstDifference(s, t, k)
  {
    hide FirstDifference;
    AtStart(s, t);
    if s != [] && t != [] {
      BelowMeans(s[1..], t[1..]);
      if k: nat :| FirstDifference(s[1..], t[1..], k) {
        DifferenceShifts(s, t, k);
      }
      if k: nat :| FirstDifference(s, t, k) {
        if k > 0 {
          DifferenceShifts(s, t, k - 1);
        }
      }
    }
  }

  lemma AtStart(s: string, t: string)
    ensures FirstDifference(s, t, 0) <==> t != [] && (s == [] || s[0] < t[0])
    ensures s == [] || t == [] ==> forall k: nat :: FirstDifference(s, t, k) ==> k == 0
  {
  }
}
