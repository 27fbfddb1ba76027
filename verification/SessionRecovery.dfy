/**
 Recovery of dead MCP sessions for OAuth principals, internal/mcpapp/session_recovery.go, around a runtime
 that rejects a dead session before it dispatches anything.
 */
module HttpHeaders {
  import opened Text

  type Values = map<string, seq<string>>

  /** strings.EqualFold: fold sends every code point to one representative of its simple-folding orbit. */
  predicate EqualFold(fold: CaseMap, a: string, b: string) { MapChars(fold, a) == MapChars(fold, b) }

  /** A header key that stands for this name. */
  predicate Names(fold: CaseMap, key: string, name: string) { EqualFold(fold, Trim(key), Trim(name)) }

  function Without(fold: CaseMap, headers: Values, name: string): Values {
    map key | key in headers && !Names(fold, key, name) :: headers[key]
  }

  /** The map with this one header, under its lower-case key, and every spelling of it gone. */
  function With(fold: CaseMap, lower: CaseMap, headers: Values, name: string, value: string): Values {
    Without(fold, headers, name)[Normalize(lower, name) := [value]]
  }

  /** The first value with text in it, trimmed. */
  function FirstOf(values: seq<string>): (v: string)
    ensures Trimmed(v)
  {
    if values == [] then "" else if Trim(values[0]) != "" then Trim(values[0]) else FirstOf(values[1..])
  }

  /** firstHeaderValue: map order is not fixed, so several spellings of a name may give several answers. */
  ghost predicate IsFirst(fold: CaseMap, headers: Values, name: string, v: string) {
    if v == "" then forall key :: key in headers && EqualFold(fold, Trim(key), name) ==> FirstOf(headers[key]) == ""
    else exists key :: key in headers && EqualFold(fold, Trim(key), name) && FirstOf(headers[key]) == v
  }

  /** After With there is exactly one spelling, so the lookup is determined. */
  lemma WithDetermines(fold: CaseMap, lower: CaseMap, headers: Values, name: string, value: string, v: string)
    requires Trimmed(name) && Normalize(lower, name) == name
    requires IsFirst(fold, With(fold, lower, headers, name, value), name, v)
    ensures v == Trim(value)
    ensures forall key :: key in With(fold, lower, headers, name, value) && Names(fold, key, name) ==> key == name
    ensures With(fold, lower, headers, name, value)[name] == [value]
  {
    hide Trim, Normalize, MapChars;
    var after := With(fold, lower, headers, name, value);
    assert name in after && EqualFold(fold, Trim(name), name);
    assert [value][1..] == [] && FirstOf([value]) == Trim(value);
  }

  /** Other headers are left alone. */
  lemma WithKeepsOthers(fold: CaseMap, lower: CaseMap, headers: Values, name: string, value: string, key: string)
    requires key in headers && !Names(fold, key, name) && key != Normalize(lower, name)
    ensures key in With(fold, lower, headers, name, value) && With(fold, lower, headers, name, value)[key] == headers[key]
  {
  }

  /** A header map that requests share by reference. */
  class HeaderMap {
    var entries: Values

    constructor (entries: Values)
      ensures this.entries == entries
    {
      this.entries := entries;
    }

    /** removeHeaders: deletes every spelling, in whatever order the keys come. */
    method Remove(fold: CaseMap, name: string)
      modifies this
      ensures entries == Without(fold, old(entries), name)
    {
      hide Trim, MapChars;
      var left := entries.Keys;
      while left != {}
        invariant left <= old(entries).Keys
        invariant entries == map key | key in old(entries) && (key in left || !Names(fold, key, name)) :: old(entries)[key]
        decreases |left|
      {
        var key :| key in left;
        if EqualFold(fold, Trim(key), Trim(name)) {
          entries := entries - {key};
        }
        left := left - {key};
      }
    }

    /** setRequestHeader on existing headers. */
    method Set(fold: CaseMap, lower: CaseMap, name: string, value: string)
      modifies this
      ensures entries == With(fold, lower, old(entries), name, value)
    {
      hide Trim, MapChars, Normalize, Without;
      Remove(fold, name);
      entries := entries[Normalize(lower, name) := [value]];
    }
  }
}

module SessionRecovery {
  import opened Wrappers
  import opened Text
  import opened HttpHeaders

  const SESSION := "mcp-session-id"
  const VERSION := "mcp-protocol-version"

  type Body = seq<bv8>

  /** A request; its headers are shared by reference, the rest (path, query, cookies) by value. */
  datatype Request<R> = Request(method_: string, body: Body, isBase64: bool, headers: HeaderMap, rest: R)

  /** What a handler sees of a request. */
  datatype View<R> = View(method_: string, body: Body, isBase64: bool, headers: Values, rest: R)

  ghost function ViewOf<R>(r: Request<R>): View<R>
    reads r.headers
  {
    View(r.method_, r.body, r.isBase64, r.headers.entries, r.rest)
  }

  datatype Response = Response(status: int, body: Body, streaming: bool, headers: Values)

  /** A response, or a handler error. */
  datatype Result = Answered(response: Response) | HandlerError

  /** JSON as this code uses it: initialize bodies, and the body {"error":"session not found"}. */
  datatype Codec = Codec(initialize: string -> Body, isInitialize: Body -> bool, notFound: Body -> bool, rejection: Body, internalError: Body)

  ghost predicate Lawful(codec: Codec) {
    codec.notFound(codec.rejection) && forall v :: codec.isInitialize(codec.initialize(v))
  }

  predicate SaysNotFound(codec: Codec, result: Result) {
    result.Answered? && result.response.status == 404 && !result.response.streaming && codec.notFound(result.response.body)
  }

  /** What the environment decides for one call: which sessions have expired, and how the call turns out. */
  datatype Turn = Turn(expired: set<string>, session: Option<string>, answer: Result)

  /** The runtime's state: live sessions, requests seen, and requests dispatched. */
  datatype State<R> = State(live: set<string>, seen: seq<View<R>>, dispatched: seq<View<R>>)

  /** The runtime: session is its own lookup of the session header. */
  datatype Spec = Spec(codec: Codec, session: Values -> string)

  ghost predicate LawfulSpec(fold: CaseMap, spec: Spec) {
    Lawful(spec.codec) && forall headers :: IsFirst(fold, headers, SESSION, spec.session(headers))
  }

  predicate Initializes<R>(spec: Spec, v: View<R>) { v.method_ == "POST" && spec.codec.isInitialize(v.body) }

  /** One call of the runtime: initialize opens a session; anything else needs a live one to be dispatched. */
  function Serve<R>(spec: Spec, s: State<R>, v: View<R>, turn: Turn): (State<R>, Result) {
    var live := s.live - turn.expired;
    if Initializes(spec, v) then
      match turn.session
      case Some(id) => (State(live + {id}, s.seen + [v], s.dispatched), Answered(Response(200, [], false, map[SESSION := [id]])))
      case None => (State(live, s.seen + [v], s.dispatched), turn.answer)
    else if spec.session(v.headers) in live then (State(live, s.seen + [v], s.dispatched + [v]), turn.answer)
    else (State(live, s.seen + [v], s.dispatched), Answered(Response(404, spec.codec.rejection, false, map[])))
  }

  class Context<R> {
    var request: Request<R>
    const oauth: bool

    constructor (request: Request<R>, oauth: bool)
      ensures this.request == request && this.oauth == oauth
    {
      this.request, this.oauth := request, oauth;
    }
  }

  class Runtime<R> {
    const spec: Spec
    const turns: nat -> Turn
    var cursor: nat
    var state: State<R>

    constructor (spec: Spec, turns: nat -> Turn)
      ensures this.spec == spec && this.turns == turns && cursor == 0 && state == State({}, [], [])
    {
      this.spec, this.turns, cursor, state := spec, turns, 0, State({}, [], []);
    }

    /** The wrapped handler. */
    method Handle(ctx: Context<R>) returns (result: Result)
      modifies this
      ensures cursor == old(cursor) + 1
      ensures (state, result) == Serve(spec, old(state), ViewOf(ctx.request), turns(old(cursor)))
    {
      var v := View(ctx.request.method_, ctx.request.body, ctx.request.isBase64, ctx.request.headers.entries, ctx.request.rest);
      var (next, answer) := Serve(spec, state, v, turns(cursor));
      state, result, cursor := next, answer, cursor + 1;
    }
  }

  // ---- what the middleware sends ----

  const DROPPED: seq<string> := ["content-length", "last-event-id", "mcp-method", "mcp-name", SESSION, "transfer-encoding"]

  function WithoutAll(fold: CaseMap, headers: Values, names: seq<string>): Values
    decreases |names|
  {
    if names == [] then headers
    else Without(fold, WithoutAll(fold, headers, names[..|names| - 1]), names[|names| - 1])
  }

  /** The internal initialize request, for the protocol version of the original one. */
  function InitializeView<R>(fold: CaseMap, lower: CaseMap, codec: Codec, v: View<R>, version: string): View<R> {
    View("POST", codec.initialize(version), false,
         With(fold, lower, With(fold, lower, WithoutAll(fold, v.headers, DROPPED), "accept", "application/json, text/event-stream"),
              "content-type", "application/json"),
         v.rest)
  }

  /** The replay: the original request with only the session header replaced. */
  function ReplayView<R>(fold: CaseMap, lower: CaseMap, v: View<R>, session: string): View<R> {
    v.(headers := With(fold, lower, v.headers, SESSION, session))
  }

  predicate IsStream(fold: CaseMap, method_: string) { EqualFold(fold, Trim(method_), "GET") }

  /** The middleware's own lookup of a header, in some map order. */
  method FirstHeaderValue(fold: CaseMap, headers: Values, name: string) returns (v: string)
    ensures IsFirst(fold, headers, name, v)
  {
    hide Trim, MapChars;
    var left := headers.Keys;
    while left != {}
      invariant left <= headers.Keys
      invariant forall key :: key in headers && key !in left && EqualFold(fold, Trim(key), name) ==> FirstOf(headers[key]) == ""
      decreases |left|
    {
      var key :| key in left;
      if EqualFold(fold, Trim(key), name) && FirstOf(headers[key]) != "" {
        return FirstOf(headers[key]);
      }
      left := left - {key};
    }
    v := "";
  }

  /** cloneAppTheoryRequest: new headers, so that edits do not reach the original request. */
  method CloneRequest<R>(r: Request<R>) returns (out: Request<R>)
    ensures fresh(out.headers) && ViewOf(out) == ViewOf(r)
  {
    var headers := new HeaderMap(r.headers.entries);
    out := r.(headers := headers);
  }

  /** invokeMCPHandlerWithRequest: the handler sees this request, and the context gets its own one back. */
  method InvokeWith<R>(ctx: Context<R>, next: Runtime<R>, request: Request<R>) returns (result: Result)
    modifies ctx, next
    ensures ctx.request == old(ctx.request)
    ensures next.cursor == old(next.cursor) + 1
    ensures (next.state, result) == Serve(next.spec, old(next.state), old(ViewOf(request)), next.turns(old(next.cursor)))
  {
    hide Serve;
    var original := ctx.request;
    ctx.request := request;
    result := next.Handle(ctx);
    ctx.request := original;
  }

  /** replacementSessionInitializeRequest. */
  method InitializeRequest<R>(fold: CaseMap, lower: CaseMap, codec: Codec, original: Request<R>) returns (request: Request<R>, ghost version: string)
    ensures fresh(request.headers) && IsFirst(fold, original.headers.entries, VERSION, version)
    ensures ViewOf(request) == InitializeView(fold, lower, codec, ViewOf(original), version)
  {
    hide With, Without, IsFirst;
    var protocol := FirstHeaderValue(fold, original.headers.entries, VERSION);
    version := protocol;
    request := CloneRequest(original);
    request := request.(method_ := "POST", body := codec.initialize(protocol), isBase64 := false);
    var headers := request.headers;
    for i := 0 to |DROPPED|
      invariant headers.entries == WithoutAll(fold, original.headers.entries, DROPPED[..i])
    {
      assert DROPPED[..i + 1][..i] == DROPPED[..i];
      headers.Remove(fold, DROPPED[i]);
    }
    assert DROPPED[..|DROPPED|] == DROPPED;
    headers.Set(fold, lower, "accept", "application/json, text/event-stream");
    headers.Set(fold, lower, "content-type", "application/json");
  }

  // ---- the middleware ----

  function SetHeader(fold: CaseMap, lower: CaseMap, result: Result, name: string, value: string): Result {
    if result.HandlerError? then result
    else Answered(result.response.(headers := With(fold, lower, result.response.headers, name, value)))
  }

  /** The replacement session, when the internal initialize succeeded. */
  ghost predicate Replacement(fold: CaseMap, result: Result, session: string) {
    result.Answered? && result.response.status == 200 && session != "" && IsFirst(fold, result.response.headers, SESSION, session)
  }

  ghost predicate NoReplacement(fold: CaseMap, result: Result) {
    !result.Answered? || result.response.status != 200 || IsFirst(fold, result.response.headers, SESSION, "")
  }

  /** Where a recovery ended: after the call itself, after a failed initialize, or after the replay. */
  datatype Path = Passed | InitializeFailed(version: string) | Replayed(version: string, session: string)

  /** One inbound request through the middleware, from state s and turn k of the runtime. */
  ghost predicate Recovers<R>(fold: CaseMap, lower: CaseMap, spec: Spec, turns: nat -> Turn, oauth: bool, v: View<R>,
                              s: State<R>, k: nat, path: Path, after: State<R>, calls: nat, result: Result) {
    var (s1, r1) := Serve(spec, s, v, turns(k));
    if !oauth || !SaysNotFound(spec.codec, r1) then path.Passed? && after == s1 && calls == 1 && result == r1
    else if IsStream(fold, v.method_) then
      path.Passed? && after == s1 && calls == 1 && result == SetHeader(fold, lower, r1, "cache-control", "no-store")
    else
      !path.Passed? && IsFirst(fold, v.headers, VERSION, path.version)
      && var (s2, r2) := Serve(spec, s1, InitializeView(fold, lower, spec.codec, v, path.version), turns(k + 1));
        if path.InitializeFailed? then
          NoReplacement(fold, r2) && after == s2 && calls == 2
          && result == Answered(Response(500, spec.codec.internalError, false, map[]))
        else
          && Replacement(fold, r2, path.session)
          && var (s3, r3) := Serve(spec, s2, ReplayView(fold, lower, v, path.session), turns(k + 2));
            after == s3 && calls == 3 && result == SetHeader(fold, lower, r3, SESSION, path.session)
  }

  /** initializeReplacementMCPSession. */
  method InitializeReplacement<R>(fold: CaseMap, lower: CaseMap, ctx: Context<R>, next: Runtime<R>)
    returns (session: Option<string>, ghost version: string, ghost answer: Result)
    modifies ctx, next
    ensures ctx.request == old(ctx.request) && next.cursor == old(next.cursor) + 1
    ensures IsFirst(fold, old(ctx.request.headers.entries), VERSION, version)
    ensures (next.state, answer) == Serve(next.spec, old(next.state),
      InitializeView(fold, lower, next.spec.codec, old(ViewOf(ctx.request)), version), next.turns(old(next.cursor)))
    ensures session.Some? ==> Replacement(fold, answer, session.value)
    ensures session.None? ==> NoReplacement(fold, answer)
  {
    hide Serve, IsFirst, With, WithoutAll, InitializeView;
    var request;
    request, version := InitializeRequest(fold, lower, next.spec.codec, ctx.request);
    var reply := InvokeWith(ctx, next, request);
    answer := reply;
    if reply.HandlerError? || reply.response.status != 200 {
      return None, version, answer;
    }
    var id := FirstHeaderValue(fold, reply.response.headers, SESSION);
    session := if id == "" then None else Some(id);
  }

  /** withOAuthSessionRecovery. Every exit leaves the context with its original request. */
  method Recover<R>(fold: CaseMap, lower: CaseMap, ctx: Context<R>, next: Runtime<R>) returns (result: Result, ghost path: Path)
    modifies ctx, next
    ensures ctx.request == old(ctx.request) && ViewOf(ctx.request) == old(ViewOf(ctx.request))
    ensures next.cursor >= old(next.cursor)
    ensures Recovers(fold, lower, next.spec, next.turns, ctx.oauth, old(ViewOf(ctx.request)), old(next.state), old(next.cursor),
                     path, next.state, next.cursor - old(next.cursor), result)
  {
    hide Serve, IsFirst, With, WithoutAll, InitializeView, SaysNotFound, IsStream, ReplayView, Replacement, NoReplacement;
    path := Passed;
    result := next.Handle(ctx);
    if result.HandlerError? || !ctx.oauth || !SaysNotFound(next.spec.codec, result) {
      NotFoundAnswers(next.spec.codec, result);
      return;
    }
    if IsStream(fold, ctx.request.method_) {
      result := SetHeader(fold, lower, result, "cache-control", "no-store");
      return;
    }
    var session;
    ghost var version, answer;
    session, version, answer := InitializeReplacement(fold, lower, ctx, next);
    if session.None? {
      result, path := Answered(Response(500, next.spec.codec.internalError, false, map[])), InitializeFailed(version);
      return;
    }
    var replay := CloneRequest(ctx.request);
    replay.headers.Set(fold, lower, SESSION, session.value);
    assert ViewOf(replay) == ReplayView(fold, lower, ViewOf(ctx.request), session.value) by { ReplayOf(fold, lower, ViewOf(ctx.request), session.value); }
    result := InvokeWith(ctx, next, replay);
    result, path := SetHeader(fold, lower, result, SESSION, session.value), Replayed(version, session.value);
  }

  lemma NotFoundAnswers(codec: Codec, result: Result)
    ensures SaysNotFound(codec, result) ==> result.Answered?
  {
  }

  lemma ReplayOf<R>(fold: CaseMap, lower: CaseMap, v: View<R>, session: string)
    ensures ReplayView(fold, lower, v, session) == v.(headers := With(fold, lower, v.headers, SESSION, session))
  {
  }

  // ---- what recovery guarantees ----

  /** The inbound request is dispatched at most once, provided no dispatched answer looks like a dead session. */
  lemma DispatchedAtMostOnce<R>(fold: CaseMap, lower: CaseMap, spec: Spec, turns: nat -> Turn, oauth: bool, v: View<R>,
                                s: State<R>, k: nat, path: Path, after: State<R>, calls: nat, result: Result)
    requires LawfulSpec(fold, spec) && Recovers(fold, lower, spec, turns, oauth, v, s, k, path, after, calls, result)
    requires !SaysNotFound(spec.codec, turns(k).answer)
    ensures |s.dispatched| <= |after.dispatched| <= |s.dispatched| + 1
    ensures |after.dispatched| == |s.dispatched| + 1 ==>
      after.dispatched == s.dispatched + [if path.Replayed? then ReplayView(fold, lower, v, path.session) else v]
  {
    hide With, IsFirst, WithoutAll, IsStream, SaysNotFound, SetHeader;
    if !path.Passed? {
      assert spec.codec.isInitialize(spec.codec.initialize(path.version));
    }
  }

  /** A GET, the listener of a stream, never opens a session: the runtime sees the request alone. */
  lemma StreamNeverRebound<R>(fold: CaseMap, lower: CaseMap, spec: Spec, turns: nat -> Turn, oauth: bool, v: View<R>,
                              s: State<R>, k: nat, path: Path, after: State<R>, calls: nat, result: Result)
    requires Recovers(fold, lower, spec, turns, oauth, v, s, k, path, after, calls, result)
    requires IsStream(fold, v.method_)
    ensures calls == 1 && after.seen == s.seen + [v] && after.live <= s.live + (if Initializes(spec, v) then SessionsOf(turns(k)) else {})
  {
    hide With, IsFirst, IsStream, SaysNotFound, SetHeader;
  }

  function SessionsOf(turn: Turn): set<string> { if turn.session.Some? then {turn.session.value} else {} }

  lemma SessionNormal(lower: CaseMap)
    ensures Trimmed(SESSION) && Normalize(lower, SESSION) == SESSION
  {
    assert Trimmed(SESSION);
    forall c | c in SESSION ensures lower(c) == c {
      assert LawAt(lower, c);
    }
    LowerFixed(lower, SESSION);
  }

  /**
   The replay carries the original method, body and remaining headers, exactly one session header whatever
   its spelling was, and the runtime reads the fresh session from it.
   */
  lemma ReplayCarriesFreshSession<R>(fold: CaseMap, lower: CaseMap, spec: Spec, v: View<R>, session: string)
    requires LawfulSpec(fold, spec) && Trimmed(session)
    ensures var replay := ReplayView(fold, lower, v, session);
      && replay.method_ == v.method_ && replay.body == v.body && replay.isBase64 == v.isBase64 && replay.rest == v.rest
      && spec.session(replay.headers) == session
      && SESSION in replay.headers && replay.headers[SESSION] == [session]
      && (forall key :: key in replay.headers && Names(fold, key, SESSION) ==> key == SESSION)
      && (forall key :: key in v.headers && !Names(fold, key, SESSION) ==> key in replay.headers && replay.headers[key] == v.headers[key])
  {
    hide Trim, Normalize, IsFirst, MapChars;
    SessionNormal(lower);
    var replay := ReplayView(fold, lower, v, session);
    assert IsFirst(fold, replay.headers, SESSION, spec.session(replay.headers));
    WithDetermines(fold, lower, v.headers, SESSION, session, spec.session(replay.headers));
    forall key | key in v.headers && !Names(fold, key, SESSION)
      ensures key in replay.headers && replay.headers[key] == v.headers[key]
    {
      WithKeepsOthers(fold, lower, v.headers, SESSION, session, key);
    }
  }

  /** A header map with the session header alone has one answer. */
  lemma OnlySession(fold: CaseMap, id: string, v: string)
    ensures IsFirst(fold, map[SESSION := [id]], SESSION, v) <==> v == Trim(id)
  {
    hide Trim, MapChars;
    SessionNormal(fold);
    assert [id][1..] == [] && FirstOf([id]) == Trim(id) && Trim(SESSION) == SESSION;
    var headers := map[SESSION := [id]];
    assert SESSION in headers && EqualFold(fold, Trim(SESSION), SESSION);
  }

  // ---- when a request is dispatched twice ----

  /** The request is dispatched in its live session, and the answer reads like that of a dead one. */
  ghost predicate Imitated<R>(fold: CaseMap, spec: Spec, oauth: bool, v: View<R>, s: State<R>, turn: Turn) {
    && oauth && !IsStream(fold, v.method_) && !Initializes(spec, v)
    && spec.session(v.headers) in s.live - turn.expired && SaysNotFound(spec.codec, turn.answer)
  }

  /** The session that a recovery can read from the answer to its initialize: the one opened, or one in another 200 answer. */
  ghost predicate Offered(fold: CaseMap, turn: Turn, session: string) {
    session != ""
    && match turn.session
       case Some(id) => session == Trim(id)
       case None => turn.answer.Answered? && turn.answer.response.status == 200
                    && IsFirst(fold, turn.answer.response.headers, SESSION, session)
  }

  /** The sessions alive at the third call. */
  function LiveAtReplay<R>(s: State<R>, first: Turn, second: Turn, third: Turn): set<string> {
    s.live - first.expired - second.expired + SessionsOf(second) - third.expired
  }

  lemma FirstTrimmed(fold: CaseMap, headers: Values, name: string, v: string)
    requires IsFirst(fold, headers, name, v)
    ensures Trimmed(v)
  {
    hide Trim, MapChars;
  }

  lemma FirstExists(fold: CaseMap, headers: Values, name: string) returns (v: string)
    ensures IsFirst(fold, headers, name, v)
  {
    hide Trim, MapChars;
    if key :| key in headers && EqualFold(fold, Trim(key), name) && FirstOf(headers[key]) != "" {
      v := FirstOf(headers[key]);
    } else {
      v := "";
    }
  }

  lemma OfferedTrimmed(fold: CaseMap, turn: Turn, session: string)
    requires Offered(fold, turn, session)
    ensures Trimmed(session)
  {
    hide Trim, Trimmed, IsFirst;
    if turn.session.None? {
      FirstTrimmed(fold, turn.answer.response.headers, SESSION, session);
    }
  }

  /** What an initialize answers, and the session that is read from it. */
  lemma InitializeServes<R>(fold: CaseMap, lower: CaseMap, spec: Spec, v: View<R>, version: string, s: State<R>, turn: Turn,
                            session: string)
    requires Lawful(spec.codec)
    ensures var (after, answer) := Serve(spec, s, InitializeView(fold, lower, spec.codec, v, version), turn);
      && after.live == s.live - turn.expired + SessionsOf(turn) && after.dispatched == s.dispatched
      && (Replacement(fold, answer, session) <==> Offered(fold, turn, session))
      && (turn.session.Some? && Trim(turn.session.value) != "" ==> !NoReplacement(fold, answer))
  {
    hide Trim, IsFirst, With, WithoutAll;
    assert spec.codec.isInitialize(spec.codec.initialize(version));
    if turn.session.Some? {
      OnlySession(fold, turn.session.value, session);
      OnlySession(fold, turn.session.value, "");
    }
  }

  /** The replay is dispatched exactly when its session is alive. */
  lemma ReplayServes<R>(fold: CaseMap, lower: CaseMap, spec: Spec, v: View<R>, session: string, s: State<R>, turn: Turn)
    requires LawfulSpec(fold, spec) && Trimmed(session)
    ensures var replay := ReplayView(fold, lower, v, session);
      Serve(spec, s, replay, turn).0.dispatched
      == if !Initializes(spec, v) && session in s.live - turn.expired then s.dispatched + [replay] else s.dispatched
  {
    hide With, Trimmed, LawfulSpec;
    ReplayCarriesFreshSession(fold, lower, spec, v, session);
  }

  lemma FirstServes<R>(fold: CaseMap, spec: Spec, oauth: bool, v: View<R>, s: State<R>, turn: Turn)
    requires LawfulSpec(fold, spec)
    ensures var (after, answer) := Serve(spec, s, v, turn);
      && |after.dispatched| <= |s.dispatched| + 1
      && (oauth && !IsStream(fold, v.method_) && SaysNotFound(spec.codec, answer) ==>
            && after.live == s.live - turn.expired
            && after.dispatched == if Imitated(fold, spec, oauth, v, s, turn) then s.dispatched + [v] else s.dispatched)
      && (Imitated(fold, spec, oauth, v, s, turn) ==> SaysNotFound(spec.codec, answer))
  {
    hide IsStream, IsFirst;
  }

  /** The state in which the three calls of a recovery leave the runtime. */
  ghost function AfterReplay<R>(fold: CaseMap, lower: CaseMap, spec: Spec, turns: nat -> Turn, v: View<R>, s: State<R>, k: nat,
                                version: string, session: string): (State<R>, Result)
  {
    var after := Serve(spec, Serve(spec, s, v, turns(k)).0, InitializeView(fold, lower, spec.codec, v, version), turns(k + 1)).0;
    Serve(spec, after, ReplayView(fold, lower, v, session), turns(k + 2))
  }

  lemma ReplayCounts<R>(fold: CaseMap, lower: CaseMap, spec: Spec, turns: nat -> Turn, oauth: bool, v: View<R>,
                        s: State<R>, k: nat, version: string, session: string)
    requires LawfulSpec(fold, spec) && oauth && !IsStream(fold, v.method_)
    requires SaysNotFound(spec.codec, Serve(spec, s, v, turns(k)).1) && Trimmed(session)
    ensures var dispatched := AfterReplay(fold, lower, spec, turns, v, s, k, version, session).0.dispatched;
      var first := Imitated(fold, spec, oauth, v, s, turns(k));
      var second := !Initializes(spec, v) && session in LiveAtReplay(s, turns(k), turns(k + 1), turns(k + 2));
      dispatched == s.dispatched + (if first then [v] else []) + (if second then [ReplayView(fold, lower, v, session)] else [])
  {
    hide Serve, IsStream, SaysNotFound, InitializeView, ReplayView, Imitated, Initializes, IsFirst, Trimmed, Replacement, Offered;
    FirstServes(fold, spec, oauth, v, s, turns(k));
    var s1 := Serve(spec, s, v, turns(k)).0;
    InitializeServes(fold, lower, spec, v, version, s1, turns(k + 1), session);
    var s2 := Serve(spec, s1, InitializeView(fold, lower, spec.codec, v, version), turns(k + 1)).0;
    ReplayServes(fold, lower, spec, v, session, s2, turns(k + 2));
  }

  /**
   One recovery: the inbound request is dispatched twice exactly when a dispatched answer imitated a dead
   session and the session it was replayed in was alive; that session was offered by the second answer.
   */
  lemma TwiceInRun<R>(fold: CaseMap, lower: CaseMap, spec: Spec, turns: nat -> Turn, oauth: bool, v: View<R>,
                      s: State<R>, k: nat, path: Path, after: State<R>, calls: nat, result: Result)
    requires LawfulSpec(fold, spec) && Recovers(fold, lower, spec, turns, oauth, v, s, k, path, after, calls, result)
    ensures |after.dispatched| == |s.dispatched| + 2 <==>
      && Imitated(fold, spec, oauth, v, s, turns(k)) && path.Replayed?
      && path.session in LiveAtReplay(s, turns(k), turns(k + 1), turns(k + 2))
    ensures path.Replayed? ==> Offered(fold, turns(k + 1), path.session)
  {
    hide Serve, With, WithoutAll, IsStream, SaysNotFound, SetHeader, InitializeView, ReplayView, Initializes, Offered, Replacement,
      IsFirst, LawfulSpec, LiveAtReplay;
    FirstServes(fold, spec, oauth, v, s, turns(k));
    var s1 := Serve(spec, s, v, turns(k)).0;
    SpecLaws(fold, spec);
    if path.InitializeFailed? {
      InitializeServes(fold, lower, spec, v, path.version, s1, turns(k + 1), "");
    } else if path.Replayed? {
      InitializeServes(fold, lower, spec, v, path.version, s1, turns(k + 1), path.session);
      OfferedTrimmed(fold, turns(k + 1), path.session);
      ReplayCounts(fold, lower, spec, turns, oauth, v, s, k, path.version, path.session);
      ImitatedCall(fold, spec, oauth, v, s, turns(k));
    }
  }

  lemma SpecLaws(fold: CaseMap, spec: Spec)
    requires LawfulSpec(fold, spec)
    ensures Lawful(spec.codec)
  {
  }

  lemma ImitatedCall<R>(fold: CaseMap, spec: Spec, oauth: bool, v: View<R>, s: State<R>, turn: Turn)
    ensures Imitated(fold, spec, oauth, v, s, turn) ==> !Initializes(spec, v)
  {
  }

  /** Some run of the middleware dispatches the request twice; runs differ in the order of header maps alone. */
  ghost predicate CanDispatchTwice<R(!new)>(fold: CaseMap, lower: CaseMap, spec: Spec, turns: nat -> Turn, oauth: bool,
                                            v: View<R>, s: State<R>, k: nat) {
    exists path, after, calls, result ::
      Recovers(fold, lower, spec, turns, oauth, v, s, k, path, after, calls, result) && |after.dispatched| == |s.dispatched| + 2
  }

  ghost predicate OfferedAlive<R(!new)>(fold: CaseMap, s: State<R>, first: Turn, second: Turn, third: Turn) {
    exists session :: Offered(fold, second, session) && session in LiveAtReplay(s, first, second, third)
  }

  /**
   A request can be dispatched twice exactly when the answer to it imitates a dead session and the answer to
   the initialize offers a session that is alive at the replay.
   */
  lemma TwiceIff<R(!new)>(fold: CaseMap, lower: CaseMap, spec: Spec, turns: nat -> Turn, oauth: bool, v: View<R>,
                          s: State<R>, k: nat)
    requires LawfulSpec(fold, spec)
    ensures CanDispatchTwice(fold, lower, spec, turns, oauth, v, s, k) <==>
      Imitated(fold, spec, oauth, v, s, turns(k)) && OfferedAlive(fold, s, turns(k), turns(k + 1), turns(k + 2))
  {
    hide Recovers, Imitated, Offered, LiveAtReplay, LawfulSpec;
    if CanDispatchTwice(fold, lower, spec, turns, oauth, v, s, k) {
      var path, after, calls, result :|
        Recovers(fold, lower, spec, turns, oauth, v, s, k, path, after, calls, result) && |after.dispatched| == |s.dispatched| + 2;
      TwiceInRun(fold, lower, spec, turns, oauth, v, s, k, path, after, calls, result);
    }
    if Imitated(fold, spec, oauth, v, s, turns(k)) && OfferedAlive(fold, s, turns(k), turns(k + 1), turns(k + 2)) {
      var session :| Offered(fold, turns(k + 1), session) && session in LiveAtReplay(s, turns(k), turns(k + 1), turns(k + 2));
      var path, after, result := ReplayRun(fold, lower, spec, turns, oauth, v, s, k, session);
      TwiceInRun(fold, lower, spec, turns, oauth, v, s, k, path, after, 3, result);
    }
  }

  /** Any session on offer can be the one a recovery replays in. */
  lemma ReplayRun<R>(fold: CaseMap, lower: CaseMap, spec: Spec, turns: nat -> Turn, oauth: bool, v: View<R>,
                     s: State<R>, k: nat, session: string)
    returns (path: Path, after: State<R>, result: Result)
    requires LawfulSpec(fold, spec) && Imitated(fold, spec, oauth, v, s, turns(k)) && Offered(fold, turns(k + 1), session)
    ensures path.Replayed? && path.session == session
    ensures Recovers(fold, lower, spec, turns, oauth, v, s, k, path, after, 3, result)
  {
    hide Serve, With, WithoutAll, IsStream, SaysNotFound, InitializeView, ReplayView, Initializes, Offered, Replacement,
      IsFirst, LawfulSpec;
    FirstServes(fold, spec, oauth, v, s, turns(k));
    SpecLaws(fold, spec);
    var version := FirstExists(fold, v.headers, VERSION);
    InitializeServes(fold, lower, spec, v, version, Serve(spec, s, v, turns(k)).0, turns(k + 1), session);
    var (last, answer) := AfterReplay(fold, lower, spec, turns, v, s, k, version, session);
    path, after, result := Replayed(version, session), last, SetHeader(fold, lower, answer, SESSION, session);
  }

  /** A tool whose own answer reads like a dead session, and a runtime that opens a session for the recovery. */
  function ImitatingTurns(codec: Codec, id: string): nat -> Turn {
    k => if k == 0 then Turn({}, None, Answered(Response(404, codec.rejection, false, map[])))
         else Turn({}, Some(id), HandlerError)
  }

  /** It happens: every such request is dispatched twice, first as it came and then as the replay. */
  lemma DoubleDispatch<R(!new)>(fold: CaseMap, lower: CaseMap, spec: Spec, v: View<R>, id: string,
                                path: Path, after: State<R>, calls: nat, result: Result)
    requires LawfulSpec(fold, spec) && !IsStream(fold, v.method_) && !Initializes(spec, v) && Trimmed(id) && id != ""
    requires Recovers(fold, lower, spec, ImitatingTurns(spec.codec, id), true, v, State({spec.session(v.headers)}, [], []), 0,
                      path, after, calls, result)
    ensures CanDispatchTwice(fold, lower, spec, ImitatingTurns(spec.codec, id), true, v, State({spec.session(v.headers)}, [], []), 0)
    ensures path == Replayed(path.version, id) && after.dispatched == [v, ReplayView(fold, lower, v, id)]
  {
    hide Recovers, IsStream, Initializes, LawfulSpec, Trimmed, ReplayView, Serve, InitializeView;
    var s: State<R>, turns := State({spec.session(v.headers)}, [], []), ImitatingTurns(spec.codec, id);
    SpecLaws(fold, spec);
    assert Imitated(fold, spec, true, v, s, turns(0));
    assert Offered(fold, turns(1), id) && id in LiveAtReplay(s, turns(0), turns(1), turns(2));
    TwiceIff(fold, lower, spec, turns, true, v, s, 0);
    ImitatedReplays(fold, lower, spec, turns, true, v, s, 0, path, after, calls, result, id);
    FirstServes(fold, spec, true, v, s, turns(0));
    ReplayCounts(fold, lower, spec, turns, true, v, s, 0, path.version, id);
  }

  /** When the initialize opens a session, an imitated request is replayed in that one. */
  lemma ImitatedReplays<R>(fold: CaseMap, lower: CaseMap, spec: Spec, turns: nat -> Turn, oauth: bool, v: View<R>,
                           s: State<R>, k: nat, path: Path, after: State<R>, calls: nat, result: Result, id: string)
    requires LawfulSpec(fold, spec) && Recovers(fold, lower, spec, turns, oauth, v, s, k, path, after, calls, result)
    requires Imitated(fold, spec, oauth, v, s, turns(k)) && turns(k + 1).session == Some(id) && Trimmed(id) && id != ""
    ensures path == Replayed(path.version, id)
    ensures after == AfterReplay(fold, lower, spec, turns, v, s, k, path.version, id).0
  {
    hide With, WithoutAll, IsStream, SaysNotFound, ReplayView, IsFirst, LawfulSpec, Initializes, Trimmed, SetHeader, InitializeView;
    FirstServes(fold, spec, oauth, v, s, turns(k));
    SpecLaws(fold, spec);
    var s1 := Serve(spec, s, v, turns(k)).0;
    InitializeServes(fold, lower, spec, v, path.version, s1, turns(k + 1), if path.Replayed? then path.session else "");
  }

  /** A request of an OAuth principal in a dead session is dispatched once, in the session opened for it. */
  lemma DeadSessionRecovered<R>(fold: CaseMap, lower: CaseMap, spec: Spec, turns: nat -> Turn, v: View<R>,
                                s: State<R>, k: nat, path: Path, after: State<R>, calls: nat, result: Result, id: string)
    requires LawfulSpec(fold, spec) && Recovers(fold, lower, spec, turns, true, v, s, k, path, after, calls, result)
    requires !IsStream(fold, v.method_) && !Initializes(spec, v) && spec.session(v.headers) !in s.live
    requires turns(k + 1).session == Some(id) && id != "" && Trimmed(id) && id !in turns(k + 2).expired
    ensures path.Replayed? && path.session == id && after.dispatched == s.dispatched + [ReplayView(fold, lower, v, id)]
    ensures result == SetHeader(fold, lower, turns(k + 2).answer, SESSION, id)
  {
    hide With, WithoutAll, IsStream, SetHeader, Trim, IsFirst, Trimmed;
    assert spec.codec.isInitialize(spec.codec.initialize(path.version));
    var headers := map[SESSION := [id]];
    if path.Replayed? {
      OnlySession(fold, id, path.session);
    } else if IsFirst(fold, headers, SESSION, "") {
      OnlySession(fold, id, "");
    }
    ReplayCarriesFreshSession(fold, lower, spec, v, id);
  }

  lemma {:induction false} WithoutAllDrops(fold: CaseMap, headers: Values, names: seq<string>, i: nat, key: string)
    requires i < |names| && key in WithoutAll(fold, headers, names)
    ensures !Names(fold, key, names[i])
    decreases |names|
  {
    hide Names;
    if i < |names| - 1 {
      WithoutAllDrops(fold, headers, names[..|names| - 1], i, key);
    }
  }

  lemma LengthsDiffer(fold: CaseMap, key: string, name: string)
    requires |Trim(key)| != |Trim(name)|
    ensures !Names(fold, key, name)
  {
    hide Trim;
  }

  lemma KeyLengths(lower: CaseMap, i: nat)
    requires i < |DROPPED|
    ensures |Trim(Normalize(lower, "accept"))| == 6 && |Trim(Normalize(lower, "content-type"))| == 12
    ensures |Trim(DROPPED[i])| == |DROPPED[i]| && |DROPPED[i]| !in {6, 12}
  {
    assert Trimmed("accept") && Trimmed("content-type") && Trimmed(DROPPED[i]);
    hide Trim, Normalize;
    NormalLength(lower, "accept");
    NormalLength(lower, "content-type");
  }

  lemma NormalLength(lower: CaseMap, s: string)
    requires Trimmed(s)
    ensures Trim(Normalize(lower, s)) == Normalize(lower, s) && |Normalize(lower, s)| == |s|
  {
    hide Trim;
  }

  /** The internal initialize request names no session and resumes no stream, however the original spelled its headers. */
  lemma InitializeIsFresh<R>(fold: CaseMap, lower: CaseMap, codec: Codec, v: View<R>, version: string, i: nat, key: string)
    requires i < |DROPPED| && key in InitializeView(fold, lower, codec, v, version).headers
    ensures !Names(fold, key, DROPPED[i])
  {
    hide Trim, Normalize, Names;
    KeyLengths(lower, i);
    if key == Normalize(lower, "accept") || key == Normalize(lower, "content-type") {
      LengthsDiffer(fold, key, DROPPED[i]);
    } else {
      WithoutAllDrops(fold, v.headers, DROPPED, i, key);
    }
  }
}
