/** The MCP server name of a rendered pack: internal/installpack/names.go, with the normalizers of renderer.go. */
module ServerName {
  import opened Text

  const MAX_NAME_BYTES := 80
  const BRAND := "lesser_ka"
  const FALLBACK_ACTOR := "agent"

  // ---- the words of a text ----

  predicate NameChar(c: char) { 'a' <= c <= 'z' || '0' <= c <= '9' }

  predicate IsWord(w: string) { w != [] && forall c :: c in w ==> NameChar(c) }

  predicate EndsInWord(s: string) { s != [] && NameChar(s[|s| - 1]) }

  /** The maximal runs of name characters in s, in order. */
  function Words(s: string): (words: seq<string>)
    ensures forall w :: w in words ==> IsWord(w)
    ensures EndsInWord(s) ==> words != []
  {
    if s == [] then []
    else
      var init, c := s[..|s| - 1], s[|s| - 1];
      if !NameChar(c) then Words(init)
      else if !EndsInWord(init) then Words(init) + [[c]]
      else
        var before := Words(init);
        assert before[|before| - 1] in before;
        ExtendLast(before, c)
  }

  lemma WordsSnoc(s: string, c: char)
    ensures Words(s + [c]) ==
            if !NameChar(c) then Words(s)
            else if !EndsInWord(s) then Words(s) + [[c]]
            else ExtendLast(Words(s), c)
  {
    assert (s + [c])[..|s|] == s;
  }

  function ExtendLast(words: seq<string>, c: char): (r: seq<string>)
    requires words != []
  {
    words[..|words| - 1] + [words[|words| - 1] + [c]]
  }

  function Join(words: seq<string>): (r: string) {
    if words == [] then []
    else if |words| == 1 then words[0]
    else Join(words[..|words| - 1]) + ['_'] + words[|words| - 1]
  }

  /** [a-z0-9]+(_[a-z0-9]+)*, read as a condition on single positions. */
  predicate Component(s: string) {
    && s != [] && s[0] != '_' && s[|s| - 1] != '_'
    && (forall c :: c in s ==> NameChar(c) || c == '_')
    && (forall i :: 0 <= i < |s| - 1 ==> s[i] != '_' || s[i + 1] != '_')
  }

  lemma {:induction false} JoinIsComponent(words: seq<string>)
    requires words != [] && forall w :: w in words ==> IsWord(w)
    ensures Component(Join(words))
  {
    var last := words[|words| - 1];
    assert last in words && last[0] in last && last[|last| - 1] in last;
    if |words| > 1 {
      JoinIsComponent(words[..|words| - 1]);
      var j := Join(words[..|words| - 1]);
      var r := Join(words);
      forall i | 0 <= i < |r| - 1 ensures r[i] != '_' || r[i + 1] != '_' {
        if i > |j| {
          assert r[i] == last[i - |j| - 1] && last[i - |j| - 1] in last;
        } else if i == |j| {
          assert r[i + 1] == last[0];
        }
      }
    } else {
      forall i | 0 <= i < |last| - 1 ensures last[i] != '_' {
        assert last[i] in last;
      }
    }
  }

  // ---- safeNameComponent ----

  function TrimUnderscores(s: string): (r: string)
    ensures |r| <= |s|
  {
    if s != [] && s[0] == '_' then TrimUnderscores(s[1..])
    else if s != [] && s[|s| - 1] == '_' then TrimUnderscores(s[..|s| - 1])
    else s
  }

  function Lead(s: string): string { if s != [] && !NameChar(s[0]) then "_" else "" }

  function Trail(s: string): string { if Words(s) != [] && !EndsInWord(s) then "_" else "" }

  /** What the builder holds after reading s: the joined words, with an underscore at either end where s has other text. */
  function Built(s: string): (r: string) {
    Lead(s) + Join(Words(s)) + Trail(s)
  }

  predicate EndsInUnderscore(r: string) { r != [] && r[|r| - 1] == '_' }

  lemma JoinExtended(before: seq<string>, c: char)
    requires before != []
    ensures Join(ExtendLast(before, c)) == Join(before) + [c]
  {
    var after := ExtendLast(before, c);
    assert after[..|after| - 1] == before[..|before| - 1];
  }

  lemma {:induction false} NoWords(s: string)
    requires Words(s) == []
    ensures forall c :: c in s ==> !NameChar(c)
  {
    if s != [] {
      NoWords(s[..|s| - 1]);
      assert s == s[..|s| - 1] + [s[|s| - 1]];
    }
  }

  /** The builder ends in an underscore exactly when it has read something and the last thing was no name character. */
  lemma BuiltEnd(s: string)
    ensures EndsInUnderscore(Built(s)) <==> s != [] && !EndsInWord(s)
    ensures Words(s) == [] ==> Built(s) == Lead(s) && (s != [] ==> Lead(s) == "_")
  {
    NoWordsIff(s);
    var j := Join(Words(s));
    if Words(s) != [] {
      JoinIsComponent(Words(s));
      assert s != [];
      assert Built(s)[|Built(s)| - 1] == (Lead(s) + j + Trail(s))[|Lead(s)| + |j| + |Trail(s)| - 1];
    }
  }

  lemma LeadStep(s: string, c: char)
    ensures Lead(s + [c]) == if s == [] then (if NameChar(c) then "" else "_") else Lead(s)
  {
    if s != [] {
      assert (s + [c])[0] == s[0];
    }
  }

  /** A name character is always appended. */
  lemma BuiltName(s: string, c: char)
    requires NameChar(c)
    ensures Built(s + [c]) == Built(s) + [c]
  {
    WordsSnoc(s, c);
    LeadStep(s, c);
    NoWordsIff(s);
    var l, j := Lead(s), Join(Words(s));
    if Words(s) == [] {
      assert Join([[c]]) == [c];
      assert Built(s + [c]) == l + [c] + "";
    } else if EndsInWord(s) {
      JoinExtended(Words(s), c);
      assert Built(s + [c]) == l + (j + [c]) + "";
    } else {
      JoinAppend(Words(s), [c]);
      assert Built(s + [c]) == l + (j + ['_'] + [c]) + "";
    }
  }

  /** Any other character is an underscore, unless the builder ends in one already. */
  lemma BuiltOther(s: string, c: char)
    requires !NameChar(c)
    ensures Built(s + [c]) == if EndsInUnderscore(Built(s)) then Built(s) else Built(s) + ['_']
  {
    WordsSnoc(s, c);
    LeadStep(s, c);
    BuiltEnd(s);
    assert !EndsInWord(s + [c]);
    if Words(s) != [] {
      assert s != [];
    }
  }

  lemma JoinAppend(words: seq<string>, w: string)
    requires words != []
    ensures Join(words + [w]) == Join(words) + ['_'] + w
  {
    assert (words + [w])[..|words|] == words;
  }

  lemma NoWordsIff(s: string)
    ensures Words(s) == [] ==> !EndsInWord(s) && (s != [] ==> !NameChar(s[0]))
  {
    if Words(s) == [] && s != [] {
      NoWords(s);
      assert s[0] in s;
    }
  }

  lemma TrimBuilt(s: string)
    ensures TrimUnderscores(Built(s)) == Join(Words(s))
  {
    var j := Join(Words(s));
    if j == [] {
      if Words(s) != [] {
        JoinIsComponent(Words(s));
      }
      assert Built(s) == "" || Built(s) == "_";
      assert TrimUnderscores("_") == "";
    } else {
      JoinIsComponent(Words(s));
      assert TrimUnderscores(j) == j;
      var left := ['_'] + j;
      assert left[1..] == j;
      var right := j + ['_'];
      assert right[..|right| - 1] == j && right[0] == j[0];
      var both := ['_'] + j + ['_'];
      assert both[1..] == right;
      assert Built(s) == j || Built(s) == left || Built(s) == right || Built(s) == both;
    }
  }

  /** The config-key-safe part of a component: its lower-case words joined by underscores. */
  function SafeNameComponent(f: CaseMap, s: string): (r: string) {
    WordsJoined(Trim(ToLower(f, s)))
  }

  function WordsJoined(t: string): (r: string) {
    Join(Words(t))
  }

  /** safeNameComponent, loop for loop. */
  method ComputeSafeNameComponent(f: CaseMap, s: string) returns (r: string)
    ensures r == SafeNameComponent(f, s)
  {
    var t := Trim(ToLower(f, s));
    if t == "" {
      return "";
    }
    r := CollapseOthers(t);
  }

  method CollapseOthers(t: string) returns (r: string)
    ensures r == WordsJoined(t)
  {
    var built := "";
    var lastUnderscore := false;
    for i := 0 to |t|
      invariant built == Built(t[..i])
      invariant lastUnderscore == EndsInUnderscore(built)
    {
      assert t[..i + 1] == t[..i] + [t[i]];
      if NameChar(t[i]) {
        BuiltName(t[..i], t[i]);
        built := built + [t[i]];
        lastUnderscore := false;
        continue;
      }
      BuiltOther(t[..i], t[i]);
      if !lastUnderscore {
        built := built + ['_'];
        lastUnderscore := true;
      }
    }
    assert t[..|t|] == t;
    TrimBuilt(t);
    r := TrimUnderscores(built);
  }

  // ---- words of a component; idempotence ----

  lemma {:induction false} WordsAppend(s: string, w: string)
    requires IsWord(w) && !EndsInWord(s)
    ensures Words(s + w) == Words(s) + [w] && EndsInWord(s + w)
  {
    var init, c := w[..|w| - 1], w[|w| - 1];
    assert c in w && w == init + [c];
    assert s + w == (s + init) + [c];
    WordsSnoc(s + init, c);
    if init != [] {
      assert forall d :: d in init ==> d in w;
      WordsAppend(s, init);
      ExtendAppended(Words(s), init, c);
    } else {
      assert s + init == s;
    }
  }

  lemma ExtendAppended(words: seq<string>, w: string, c: char)
    ensures ExtendLast(words + [w], c) == words + [w + [c]]
  {
  }

  lemma {:induction false} WordsOfJoin(words: seq<string>)
    requires forall w :: w in words ==> IsWord(w)
    ensures Words(Join(words)) == words
  {
    if words != [] {
      var init, last := words[..|words| - 1], words[|words| - 1];
      assert words == init + [last];
      if init == [] {
        WordsAppend([], last);
        assert [] + last == last;
      } else {
        WordsOfJoin(init);
        WordsSnoc(Join(init), '_');
        WordsAppend(Join(init) + ['_'], last);
      }
    }
  }

  /** Joined words are empty or a component, are trimmed, and have themselves as joined words. */
  lemma WordsJoinedFixed(t: string)
    ensures var r := WordsJoined(t);
      && (r != [] ==> Component(r)) && (Words(t) != [] ==> r != [])
      && Trimmed(r) && (forall c :: c in r ==> NameChar(c) || c == '_')
      && WordsJoined(r) == r
  {
    var words := Words(t);
    if words != [] {
      JoinIsComponent(words);
      var r := Join(words);
      assert r[0] in r && r[|r| - 1] in r;
    }
    WordsOfJoin(words);
  }

  lemma SafeNameComponentIdempotent(f: CaseMap, s: string)
    ensures SafeNameComponent(f, SafeNameComponent(f, s)) == SafeNameComponent(f, s)
  {
    var r := SafeNameComponent(f, s);
    WordsJoinedFixed(Trim(ToLower(f, s)));
    forall c | c in r ensures f(c) == c {
      assert LawAt(f, c);
    }
    LowerFixed(f, r);
  }

  // ---- MCPServerName ----

  predicate DnsChar(c: char) { NameChar(c) || c == '-' }

  predicate ValidLabel(l: string) {
    l != [] && l[0] != '-' && l[|l| - 1] != '-' && forall c :: c in l ==> DnsChar(c)
  }

  /** Every l is [a-z0-9-], so a scheme, path, query or fragment is refused with the labels. */
  predicate ValidStageDomain(domain: string) {
    && domain != []
    && !("api." <= domain)
    && var labels := Split(domain, '.');
    |labels| >= 2 && forall l :: l in labels ==> ValidLabel(l)
  }

  /** The characters url.PathEscape leaves alone in a path segment. */
  predicate PathSafe(c: char) {
    || 'a' <= c <= 'z' || 'A' <= c <= 'Z' || '0' <= c <= '9'
    || c in {'-', '_', '.', '~', '$', '&', '+', '=', ':', '@'}
  }

  /** actorFromLocalID and normalizeActor apply the same test to the trimmed actor. */
  predicate ValidActor(actor: string) {
    && actor != []
    && (forall c :: c in actor ==> PathSafe(c))
    && (forall i :: 0 <= i < |actor| - 1 ==> actor[i] != '.' || actor[i + 1] != '.')
  }

  function StageEnvironmentToken(domain: string): (r: string)
    ensures r in ["", "lab", "staging"]
  {
    var labels := Split(domain, '.');
    if |labels| < 3 then ""
    else if labels[0] in ["dev", "lab"] then "lab"
    else if labels[0] in ["staging", "stage"] then "staging"
    else ""
  }

  datatype NameResult = Name(name: string) | BadStageDomain | BadActor | NoRoom

  function NamePrefix(environment: string): (r: string)
    ensures |r| == |BRAND| + (if environment == "" then 0 else |environment| + 1)
  {
    if environment == "" then BRAND else BRAND + ['_'] + environment
  }

  function ActorPart(f: CaseMap, actor: string): (r: string) {
    var part := SafeNameComponent(f, actor);
    if part == "" then FALLBACK_ACTOR else part
  }

  /** The actor component cut to the budget; "" stands for the case that the code replaces by the fallback. */
  function Truncated(part: string, budget: int): (r: string)
    requires |part| > budget ==> budget >= 0
  {
    if |part| > budget then TrimUnderscores(part[..budget]) else part
  }

  function McpServerName(f: CaseMap, stageDomain: string, actor: string): (r: NameResult) {
    var domain := Normalize(f, stageDomain);
    if !ValidStageDomain(domain) then BadStageDomain
    else if !ValidActor(Trim(actor)) then BadActor
    else Assemble(NamePrefix(StageEnvironmentToken(domain)), ActorPart(f, Trim(actor)))
  }

  function Assemble(prefix: string, part: string): (r: NameResult) {
    var budget := MAX_NAME_BYTES - |prefix| - 1;
    if |part| > budget && budget <= 0 then NoRoom
    else
      var cut := Truncated(part, budget);
      Name(prefix + ['_'] + (if cut == "" then FALLBACK_ACTOR else cut))
  }

  function Repeated(words: seq<string>): (r: string) {
    if words == [] then [] else ['_'] + words[0] + Repeated(words[1..])
  }

  /** The verifier's regular expression ^lesser_ka(?:_[a-z0-9]+)+$. */
  ghost predicate Matches(brand: string, name: string) {
    exists words: seq<string> ::
      words != [] && (forall w :: w in words ==> IsWord(w)) && name == brand + Repeated(words)
  }

  lemma {:induction false} RepeatedAppend(words: seq<string>, w: string)
    ensures Repeated(words + [w]) == Repeated(words) + ['_'] + w
  {
    if words == [] {
      assert (words + [w])[1..] == [];
    } else {
      assert (words + [w])[1..] == words[1..] + [w];
      RepeatedAppend(words[1..], w);
    }
  }

  lemma {:induction false} ComponentIsJoined(s: string) returns (words: seq<string>)
    requires Component(s)
    ensures words != [] && (forall w :: w in words ==> IsWord(w)) && ['_'] + s == Repeated(words)
  {
    if i :| 0 <= i < |s| && s[i] == '_' && forall k :: i < k < |s| ==> s[k] != '_' {
      var last := s[i + 1..];
      assert forall c :: c in s[..i] ==> c in s;
      assert Component(s[..i]) by {
        assert s[i - 1] != '_';
      }
      var init := ComponentIsJoined(s[..i]);
      forall c | c in last ensures NameChar(c) {
        var k :| 0 <= k < |last| && last[k] == c;
        assert s[i + 1 + k] == c && c in s;
      }
      RepeatedAppend(init, last);
      words := init + [last];
      assert s == s[..i] + ['_'] + last;
    } else {
      if '_' in s {
        LastUnderscore(s);
        assert false;
      }
      words := [s];
      assert words[1..] == [];
    }
  }

  lemma {:induction false} LastUnderscore(s: string)
    requires '_' in s
    ensures exists i :: 0 <= i < |s| && s[i] == '_' && forall k :: i < k < |s| ==> s[k] != '_'
  {
    if s[|s| - 1] != '_' {
      var t := s[..|s| - 1];
      assert '_' in t;
      LastUnderscore(t);
      var i :| 0 <= i < |t| && t[i] == '_' && forall k :: i < k < |t| ==> t[k] != '_';
      assert s[i] == '_' && forall k :: i < k < |s| ==> s[k] != '_';
    }
  }

  /** Cutting a component leaves a component: the fallback after the cut is never needed. */
  lemma TruncatedIsComponent(part: string, budget: nat)
    requires Component(part) && budget >= 1
    ensures Component(Truncated(part, budget)) && |Truncated(part, budget)| <= budget
  {
    if |part| > budget {
      var cut := part[..budget];
      assert forall c :: c in cut ==> c in part;
      assert cut[0] != '_';
      if cut[budget - 1] == '_' {
        var t := cut[..budget - 1];
        assert forall c :: c in t ==> c in cut;
        assert budget >= 2 && t[budget - 2] != '_';
        assert TrimUnderscores(t) == t;
        assert TrimUnderscores(cut) == t;
      }
    }
  }

  lemma ActorPartIsComponent(f: CaseMap, actor: string)
    ensures Component(ActorPart(f, actor))
  {
    WordsJoinedFixed(Trim(ToLower(f, actor)));
    FallbackIsComponent();
  }

  lemma FallbackIsComponent()
    ensures Component(FALLBACK_ACTOR)
  {
  }

  lemma PrefixedMatches(brand: string, environment: string, part: string)
    requires environment == "" || IsWord(environment)
    requires Component(part)
    ensures Matches(brand, (if environment == "" then brand else brand + ['_'] + environment) + ['_'] + part)
  {
    var words := ComponentIsJoined(part);
    if environment == "" {
      assert brand + ['_'] + part == brand + Repeated(words);
    } else {
      var all := [environment] + words;
      assert all[1..] == words;
      assert brand + ['_'] + environment + ['_'] + part == brand + Repeated(all);
    }
  }

  /**
   Every name fits the byte limit and the verifier's grammar, and a name is refused exactly for an
   unusable stage domain or actor: the no-room error cannot happen.
   */
  lemma ServerNameInGrammar(f: CaseMap, stageDomain: string, actor: string)
    ensures var r := McpServerName(f, stageDomain, actor);
      && !r.NoRoom?
      && (r.Name? <==> ValidStageDomain(Normalize(f, stageDomain)) && ValidActor(Trim(actor)))
      && (r.Name? ==> |r.name| <= MAX_NAME_BYTES && Matches(BRAND, r.name))
  {
    var environment := StageEnvironmentToken(Normalize(f, stageDomain));
    ActorPartIsComponent(f, Trim(actor));
    AssembledName(environment, ActorPart(f, Trim(actor)));
  }

  lemma AssembledName(environment: string, part: string)
    requires environment == "" || environment == "lab" || environment == "staging"
    requires Component(part)
    ensures var r := Assemble(NamePrefix(environment), part);
      r.Name? && |r.name| <= MAX_NAME_BYTES && Matches(BRAND, r.name)
  {
    var budget := MAX_NAME_BYTES - |NamePrefix(environment)| - 1;
    TruncatedIsComponent(part, budget);
    PrefixedMatches(BRAND, environment, Truncated(part, budget));
  }
}
