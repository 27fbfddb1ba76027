/**
 One inbound request through the session recovery, said on the requests that are sent and the response that is
 returned, header by header. Serve is the runtime behind it.
 */
module SessionOutcomes {
  import opened Wrappers
  import opened Text
  import opened HttpHeaders
  import opened SessionRecovery

  // ---- headers ----

  /** A spelling of this name: the same but for case and surrounding white space. */
  predicate Spells(fold: CaseMap, key: string, name: string) { MapChars(fold, Trim(key)) == MapChars(fold, name) }

  /** The header has this one value under this one spelling, and every other header is as it was. */
  ghost predicate Sets(fold: CaseMap, before: Values, after: Values, name: string, value: string) {
    && name in after && after[name] == [value]
    && (forall key :: key in after && Spells(fold, key, name) ==> key == name)
    && (forall key :: key in before && !Spells(fold, key, name) ==> key in after && after[key] == before[key])
    && forall key :: key in after && key != name ==> key in before && after[key] == before[key]
  }

  predicate PlainName(name: string) { name != "" && forall c :: c in name ==> 'a' <= c <= 'z' || c == '-' }

  lemma PlainIs(lower: CaseMap, name: string)
    requires PlainName(name)
    ensures Trim(name) == name && Normalize(lower, name) == name
  {
    assert name[0] in name && name[|name| - 1] in name;
    assert Trimmed(name);
    forall c | c in name ensures lower(c) == c {
      assert LawAt(lower, c);
    }
    LowerFixed(lower, name);
  }

  lemma WithSets(fold: CaseMap, lower: CaseMap, headers: Values, name: string, value: string)
    requires PlainName(name)
    ensures Sets(fold, headers, With(fold, lower, headers, name, value), name, value)
  {
    hide Trim, Normalize, MapChars;
    PlainIs(lower, name);
  }

  /** The first value that is not blank, trimmed; empty when there is none. */
  lemma {:induction false} FirstOfIs(values: seq<string>)
    ensures FirstOf(values) == "" <==> forall i :: 0 <= i < |values| ==> Trim(values[i]) == ""
    ensures FirstOf(values) != "" ==> exists i :: 0 <= i < |values| && FirstOf(values) == Trim(values[i])
                                                  && forall j :: 0 <= j < i ==> Trim(values[j]) == ""
  {
    hide Trim;
    if values != [] && Trim(values[0]) == "" {
      var rest := values[1..];
      FirstOfIs(rest);
      assert forall i :: 0 <= i < |rest| ==> values[i + 1] == rest[i];
      assert forall i :: 1 <= i < |values| ==> values[i] == rest[i - 1];
      if FirstOf(values) != "" {
        var i :| 0 <= i < |rest| && FirstOf(rest) == Trim(rest[i]) && forall j :: 0 <= j < i ==> Trim(rest[j]) == "";
        assert FirstOf(values) == Trim(values[i + 1]) && forall j :: 0 <= j < i + 1 ==> Trim(values[j]) == "";
      }
    }
  }

  // ---- the internal requests ----

  /** The six headers that do not go with the internal initialize. */
  predicate Left(fold: CaseMap, key: string) {
    || Spells(fold, key, "content-length") || Spells(fold, key, "last-event-id") || Spells(fold, key, "mcp-method")
    || Spells(fold, key, "mcp-name") || Spells(fold, key, "mcp-session-id") || Spells(fold, key, "transfer-encoding")
  }

  predicate Replaced(fold: CaseMap, key: string) { Spells(fold, key, "accept") || Spells(fold, key, "content-type") }

  /** The internal initialize: its own method, body, accept and content type, without the six headers. */
  ghost predicate IsInitialize<R>(fold: CaseMap, codec: Codec, v: View<R>, version: string, sent: View<R>) {
    && sent.method_ == "POST" && sent.body == codec.initialize(version) && !sent.isBase64 && sent.rest == v.rest
    && "accept" in sent.headers && sent.headers["accept"] == ["application/json, text/event-stream"]
    && "content-type" in sent.headers && sent.headers["content-type"] == ["application/json"]
    && (forall key :: key in sent.headers ==> !Left(fold, key))
    && (forall key :: key in sent.headers && Replaced(fold, key) ==> key == "accept" || key == "content-type")
    && (forall key :: key in v.headers && !Left(fold, key) && !Replaced(fold, key) ==>
          key in sent.headers && sent.headers[key] == v.headers[key])
    && forall key :: key in sent.headers && key != "accept" && key != "content-type" ==>
         key in v.headers && sent.headers[key] == v.headers[key]
  }

  /** The replay: the original request with the one session header. */
  ghost predicate IsReplay<R>(fold: CaseMap, v: View<R>, session: string, sent: View<R>) {
    && sent.method_ == v.method_ && sent.body == v.body && sent.isBase64 == v.isBase64 && sent.rest == v.rest
    && Sets(fold, v.headers, sent.headers, "mcp-session-id", session)
  }

  /** The same response with one more header; an error stays an error. */
  ghost predicate Marks(fold: CaseMap, from: Result, result: Result, name: string, value: string) {
    match from
    case HandlerError => result == HandlerError
    case Answered(r) =>
      && result.Answered? && result.response.status == r.status && result.response.body == r.body
      && result.response.streaming == r.streaming && Sets(fold, r.headers, result.response.headers, name, value)
  }

  /** The answer that stands for a dead session. */
  predicate Dead(codec: Codec, result: Result) {
    result.Answered? && result.response.status == 404 && !result.response.streaming && codec.notFound(result.response.body)
  }

  /** No session can be read from this answer. */
  ghost predicate Useless(fold: CaseMap, result: Result) {
    || result.HandlerError? || result.response.status != 200 || IsFirst(fold, result.response.headers, "mcp-session-id", "")
  }

  ghost predicate Useful(fold: CaseMap, result: Result, session: string) {
    && result.Answered? && result.response.status == 200 && session != ""
    && IsFirst(fold, result.response.headers, "mcp-session-id", session)
  }

  /** Passed through; a stream told not to cache; a failed replacement; or the replay in a fresh session. */
  ghost predicate Outcome<R(!new)>(fold: CaseMap, spec: Spec, turns: nat -> Turn, oauth: bool, v: View<R>, s: State<R>, k: nat,
                                   after: State<R>, calls: nat, result: Result) {
    var (s1, r1) := Serve(spec, s, v, turns(k));
    if !oauth || !Dead(spec.codec, r1) then after == s1 && calls == 1 && result == r1
    else if Spells(fold, v.method_, "GET") then after == s1 && calls == 1 && Marks(fold, r1, result, "cache-control", "no-store")
    else
      exists version, initialize ::
        && IsFirst(fold, v.headers, "mcp-protocol-version", version) && IsInitialize(fold, spec.codec, v, version, initialize)
        && Recovery(fold, spec, turns, v, s1, k, initialize, after, calls, result)
  }

  ghost predicate Recovery<R(!new)>(fold: CaseMap, spec: Spec, turns: nat -> Turn, v: View<R>, s1: State<R>, k: nat,
                                    initialize: View<R>, after: State<R>, calls: nat, result: Result) {
    var (s2, r2) := Serve(spec, s1, initialize, turns(k + 1));
    || (Useless(fold, r2) && after == s2 && calls == 2
        && result == Answered(Response(500, spec.codec.internalError, false, map[])))
    || exists session, replay ::
         && Useful(fold, r2, session) && IsReplay(fold, v, session, replay)
         && Replay(fold, spec, turns, s2, k, session, replay, after, calls, result)
  }

  ghost predicate Replay<R>(fold: CaseMap, spec: Spec, turns: nat -> Turn, s2: State<R>, k: nat, session: string,
                            replay: View<R>, after: State<R>, calls: nat, result: Result) {
    var (s3, r3) := Serve(spec, s2, replay, turns(k + 2));
    after == s3 && calls == 3 && Marks(fold, r3, result, "mcp-session-id", session)
  }

  // ---- the relation of the middleware says no less ----

  lemma {:induction false} DroppedGone(fold: CaseMap, headers: Values, names: seq<string>, key: string)
    ensures key in WithoutAll(fold, headers, names) <==> key in headers && forall i :: 0 <= i < |names| ==> !Names(fold, key, names[i])
    ensures key in WithoutAll(fold, headers, names) ==> WithoutAll(fold, headers, names)[key] == headers[key]
    decreases |names|
  {
    hide Names;
    if names != [] {
      var n := |names| - 1;
      DroppedGone(fold, headers, names[..n], key);
      assert forall i :: 0 <= i < n ==> names[..n][i] == names[i];
    }
  }

  lemma LeftIs(fold: CaseMap, key: string)
    ensures Left(fold, key) <==> exists i :: 0 <= i < |DROPPED| && Names(fold, key, DROPPED[i])
  {
    hide Trim, MapChars;
    DroppedTrim();
    assert DROPPED[0] == "content-length" && DROPPED[1] == "last-event-id" && DROPPED[2] == "mcp-method"
      && DROPPED[3] == "mcp-name" && DROPPED[4] == "mcp-session-id" && DROPPED[5] == "transfer-encoding";
  }

  lemma DroppedTrim()
    ensures |DROPPED| == 6 && forall i :: 0 <= i < |DROPPED| ==> Trim(DROPPED[i]) == DROPPED[i]
  {
    assert forall i :: 0 <= i < |DROPPED| ==> Trimmed(DROPPED[i]);
  }

  lemma ListedNames()
    ensures PlainName("accept") && PlainName("content-type") && PlainName("cache-control") && PlainName("mcp-session-id")
    ensures Trim("GET") == "GET"
  {
    assert Trimmed("GET");
  }

  /** Names of different lengths have no common spelling. */
  lemma Unlike(fold: CaseMap, key: string, name: string, other: string)
    requires Spells(fold, key, name) && |name| != |other|
    ensures !Spells(fold, key, other)
  {
    hide Trim;
  }

  lemma AcceptStays(fold: CaseMap, key: string)
    ensures !(Spells(fold, key, "accept") && Spells(fold, key, "content-type"))
    ensures Replaced(fold, key) ==> !Left(fold, key)
  {
    hide Trim, MapChars, Spells;
    Lengths();
    if Spells(fold, key, "accept") {
      Unlike(fold, key, "accept", "content-type");
    }
    if Replaced(fold, key) {
      var name := if Spells(fold, key, "accept") then "accept" else "content-type";
      Unlike(fold, key, name, "content-length");
      Unlike(fold, key, name, "last-event-id");
      Unlike(fold, key, name, "mcp-method");
      Unlike(fold, key, name, "mcp-name");
      Unlike(fold, key, name, "mcp-session-id");
      Unlike(fold, key, name, "transfer-encoding");
    }
  }

  lemma Lengths()
    ensures |"accept"| == 6 && |"content-type"| == 12
    ensures |"content-length"| == 14 && |"last-event-id"| == 13 && |"mcp-method"| == 10 && |"mcp-name"| == 8
    ensures |"mcp-session-id"| == 14 && |"transfer-encoding"| == 17
  {
  }

  lemma SpelledAlike(fold: CaseMap, lower: CaseMap)
    ensures Spells(fold, "accept", "accept") && Spells(fold, "content-type", "content-type")
    ensures "accept" != "content-type"
  {
    hide Trim, Normalize;
    ListedNames();
    PlainIs(lower, "accept");
    PlainIs(lower, "content-type");
    Lengths();
  }

  lemma InitializeIs<R>(fold: CaseMap, lower: CaseMap, codec: Codec, v: View<R>, version: string)
    ensures IsInitialize(fold, codec, v, version, InitializeView(fold, lower, codec, v, version))
  {
    hide Trim, Normalize, MapChars, With, WithoutAll, Left, Spells;
    var h0 := WithoutAll(fold, v.headers, DROPPED);
    var h1 := With(fold, lower, h0, "accept", "application/json, text/event-stream");
    var h2 := With(fold, lower, h1, "content-type", "application/json");
    ListedNames();
    WithSets(fold, lower, h0, "accept", "application/json, text/event-stream");
    WithSets(fold, lower, h1, "content-type", "application/json");
    SpelledAlike(fold, lower);
    AcceptStays(fold, "accept");
    AcceptStays(fold, "content-type");
    forall key ensures key in h0 <==> key in v.headers && !Left(fold, key)
      ensures key in h0 ==> h0[key] == v.headers[key]
      ensures !(Spells(fold, key, "accept") && Spells(fold, key, "content-type"))
    {
      DroppedGone(fold, v.headers, DROPPED, key);
      LeftIs(fold, key);
      AcceptStays(fold, key);
    }
  }

  lemma ReplayIs<R>(fold: CaseMap, lower: CaseMap, v: View<R>, session: string)
    ensures IsReplay(fold, v, session, ReplayView(fold, lower, v, session))
  {
    ListedNames();
    WithSets(fold, lower, v.headers, "mcp-session-id", session);
  }

  lemma MarksIs(fold: CaseMap, lower: CaseMap, from: Result, name: string, value: string)
    requires PlainName(name)
    ensures Marks(fold, from, SetHeader(fold, lower, from, name, value), name, value)
  {
    hide With;
    if from.Answered? {
      WithSets(fold, lower, from.response.headers, name, value);
    }
  }

  lemma RecoversMeans<R(!new)>(fold: CaseMap, lower: CaseMap, spec: Spec, turns: nat -> Turn, oauth: bool, v: View<R>,
                               s: State<R>, k: nat, path: Path, after: State<R>, calls: nat, result: Result)
    requires Recovers(fold, lower, spec, turns, oauth, v, s, k, path, after, calls, result)
    ensures Outcome(fold, spec, turns, oauth, v, s, k, after, calls, result)
  {
    hide Serve, With, IsFirst, Trim, MapChars, InitializeView, ReplayView, SetHeader, Marks, IsInitialize, IsReplay;
    ListedNames();
    var (s1, r1) := Serve(spec, s, v, turns(k));
    MarksIs(fold, lower, r1, "cache-control", "no-store");
    if !path.Passed? {
      var initialize := InitializeView(fold, lower, spec.codec, v, path.version);
      InitializeIs(fold, lower, spec.codec, v, path.version);
      var (s2, r2) := Serve(spec, s1, initialize, turns(k + 1));
      if path.Replayed? {
        var replay := ReplayView(fold, lower, v, path.session);
        ReplayIs(fold, lower, v, path.session);
        MarksIs(fold, lower, Serve(spec, s2, replay, turns(k + 2)).1, "mcp-session-id", path.session);
        assert Replay(fold, spec, turns, s2, k, path.session, replay, after, calls, result);
      }
      assert Recovery(fold, spec, turns, v, s1, k, initialize, after, calls, result);
    }
  }
}
