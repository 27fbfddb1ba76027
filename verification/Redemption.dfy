/**
 From an install plan to the redeemed pack: internal/baserver/baserver.go builds the render request and
 the grant binding, internal/instanceapp/installer_grants.go rebuilds the request from a consumed grant.
 */
module Redemption {
  import opened Wrappers
  import opened Text
  import opened ContentKeys
  import opened DownloadGrant
  import GrantWorld
  import InstallPack
  import PackId
  import PathOrder
  import ServerName

  const DEFAULT_NAMESPACE := "equaltoai"
  const ROUTE := "/instance/ba/mcp"

  // ---- content and requests ----

  /** What the content store returns for one agent; rendered is None when the document does not render. */
  datatype SoulContent = SoulContent(state: State, rendered: Option<string>, version: int)
  datatype Instructions = Instructions(text: string, version: int, state: State)
  datatype Content = Content(soul: Option<SoulContent>, instructions: Option<Instructions>)

  /** The hashed fields of packInputDigest. */
  datatype Payload = Payload(
    account: string, actor: string, ns: string, agentId: string, client: string,
    soul: string, soulVersion: int, soulState: State, instructions: string, instructionsVersion: int, instructionsState: State)

  /** The configured stage domain, the content store and the digest. */
  datatype Env = Env(stageDomain: Option<string>, content: (string, string) -> Content, digest: Payload -> string)

  /** A digest is "sha256:" and lower-case hexadecimal. */
  ghost predicate PlainDigest(f: CaseMap, d: string) { d != "" && Normalize(f, d) == d }

  ghost predicate Lawful(f: CaseMap, env: Env) { forall p :: PlainDigest(f, env.digest(p)) }

  datatype Request = Request(
    profile: string, stageDomain: string, actor: string, ns: string, account: string, packId: string,
    packDigest: string, soul: string, instructions: string)

  datatype Args = Args(
    ns: string, account: string, agentId: string, actor: string, client: string, profile: string,
    packId: string, packDigest: string)

  datatype Error =
    | AccountRequired | AgentIdRequired | BadActor | BadClient | ProfileMismatch | BadEndpoint | BadPackId
    | SoulMissing | SoulUnpublished | SoulUnrenderable | InstructionsMissing

  datatype Built = Built(request: Request) | Refused(error: Error)

  function ActorFromLocalId(localId: string): Option<string> {
    if ServerName.ValidActor(Trim(localId)) then Some(Trim(localId)) else None
  }

  function NamespaceOf(f: CaseMap, ns: string): string {
    if Normalize(f, ns) == "" then DEFAULT_NAMESPACE else Normalize(f, ns)
  }

  function OrElse(value: string, other: string): string { if value == "" then other else value }

  function PayloadOf(account: string, actor: string, ns: string, agentId: string, client: string, rendered: string,
                     soul: SoulContent, instructions: Instructions): Payload {
    Payload(account, actor, ns, agentId, client, rendered, soul.version, soul.state,
            instructions.text, instructions.version, instructions.state)
  }

  /** The content part of BuildPackInput, with everything else resolved. */
  function WithContent(env: Env, req: Request, agentId: string, client: string): Built {
    var content := env.content(req.account, agentId);
    match content.soul
    case None => Refused(SoulMissing)
    case Some(soul) =>
      if soul.state != Published then Refused(SoulUnpublished)
      else if soul.rendered.None? then Refused(SoulUnrenderable)
      else if content.instructions.None? then Refused(InstructionsMissing)
      else
        var text := content.instructions.value;
        var payload := PayloadOf(req.account, req.actor, req.ns, agentId, client, soul.rendered.value, soul, text);
        Built(req.(soul := soul.rendered.value, instructions := text.text,
                   packDigest := if req.packDigest == "" then env.digest(payload) else req.packDigest))
  }

  function BuildPackInput(f: CaseMap, env: Env, input: Args): Built {
    var account, agentId := Normalize(f, input.account), Trim(input.agentId);
    var actor := ActorFromLocalId(input.actor);
    var client := OrElse(PackId.NormalizeClient(f, input.client), PackId.NormalizeClient(f, input.profile));
    var profile := OrElse(input.profile, client);
    var packId := if Trim(input.packId) != "" then Some(Trim(input.packId)) else PackId.PackIdForAgent(f, agentId, client);
    if account == "" then Refused(AccountRequired)
    else if agentId == "" then Refused(AgentIdRequired)
    else if actor.None? then Refused(BadActor)
    else if !PackId.SupportedClient(client) then Refused(BadClient)
    else if PackId.NormalizeClient(f, profile) != client then Refused(ProfileMismatch)
    else if env.stageDomain.None? then Refused(BadEndpoint)
    else if packId.None? then Refused(BadPackId)
    else
      WithContent(env, Request(profile, env.stageDomain.value, actor.value, NamespaceOf(f, input.ns), account,
                               packId.value, Trim(input.packDigest), "", ""), agentId, client)
  }

  // ---- planning ----

  datatype Planned = Planned(request: Request, binding: Binding) | NotPlanned

  /** handleAgentLocalInstallPlan: the request it renders and the binding it issues a grant for. */
  function Plan(f: CaseMap, env: Env, ns: string, account: string, agentId: string, localId: string, client: string): Planned {
    var c := PackId.NormalizeClient(f, client);
    var actor, packId := ActorFromLocalId(localId), PackId.PackIdForAgent(f, agentId, c);
    if Normalize(f, account) == "" || Trim(agentId) == "" || !PackId.SupportedClient(c) || actor.None? || packId.None? then NotPlanned
    else
      match BuildPackInput(f, env, Args(NamespaceOf(f, ns), Normalize(f, account), Trim(agentId), actor.value, c, c, packId.value, ""))
      case Refused(_) => NotPlanned
      case Built(req) =>
        Planned(req, Binding(Normalize(f, account), actor.value, NamespaceOf(f, ns), ROUTE, c, c, req.packId, req.packDigest))
  }

  /** BuildInstallerPack: the request rebuilt from the binding of a consumed grant. */
  function Redeem(f: CaseMap, env: Env, providerNs: string, b: Binding): Built {
    match PackId.AgentIdFromPackId(b.packId)
    case None => Refused(BadPackId)
    case Some(agentId) =>
      BuildPackInput(f, env, Args(OrElse(Trim(b.ns), providerNs), b.account, agentId, b.actor, b.client, b.profile, b.packId, b.packDigest))
  }

  // ---- what a plan contains ----

  /** Lower-casing a valid actor gives a valid actor. */
  lemma LowerActor(f: CaseMap, actor: string)
    requires ServerName.ValidActor(actor)
    ensures ServerName.ValidActor(ToLower(f, actor)) && Trimmed(actor) && Normalize(f, actor) == ToLower(f, actor)
  {
    var lower := ToLower(f, actor);
    forall i | 0 <= i < |actor| ensures lower[i] == AsciiLower(actor[i]) && ServerName.PathSafe(actor[i]) {
      assert actor[i] in actor && LawAt(f, actor[i]);
    }
    assert !IsSpace(actor[0]) && !IsSpace(actor[|actor| - 1]);
    forall c | c in lower ensures ServerName.PathSafe(c) {
      var i :| 0 <= i < |lower| && lower[i] == c;
    }
    forall i | 0 <= i < |lower| - 1 ensures lower[i] != '.' || lower[i + 1] != '.' {
      assert actor[i] != '.' || actor[i + 1] != '.';
    }
  }

  lemma NamespacePlain(f: CaseMap, ns: string)
    ensures Normalize(f, NamespaceOf(f, ns)) == NamespaceOf(f, ns) && NamespaceOf(f, ns) != "" && Trim(NamespaceOf(f, ns)) != ""
  {
    NormalizeIdempotent(f, ns);
    assert Trimmed(DEFAULT_NAMESPACE);
    forall c | c in DEFAULT_NAMESPACE ensures f(c) == c {
      assert LawAt(f, c);
    }
    LowerFixed(f, DEFAULT_NAMESPACE);
  }

  // ---- redemption ----

  /** Arguments that BuildPackInput leaves as they are. */
  ghost predicate Settled(f: CaseMap, a: Args) {
    && a.account != "" && Normalize(f, a.account) == a.account && a.agentId != "" && Trim(a.agentId) == a.agentId
    && ServerName.ValidActor(a.actor) && PackId.SupportedClient(a.client) && a.profile == a.client
    && a.ns != "" && Normalize(f, a.ns) == a.ns && a.packId != "" && Trim(a.packId) == a.packId && Trim(a.packDigest) == a.packDigest
  }

  lemma ValidActorTrimmed(actor: string)
    requires ServerName.ValidActor(actor)
    ensures Trim(actor) == actor
  {
    hide Trim;
    assert actor[0] in actor && actor[|actor| - 1] in actor;
  }

  lemma BuildSettled(f: CaseMap, env: Env, a: Args)
    requires Settled(f, a)
    ensures BuildPackInput(f, env, a)
      == if env.stageDomain.None? then Refused(BadEndpoint)
         else WithContent(env, Request(a.client, env.stageDomain.value, a.actor, a.ns, a.account, a.packId, a.packDigest, "", ""),
                          a.agentId, a.client)
  {
    hide Trim, Normalize, PackId.NormalizeClient, WithContent, ServerName.ValidActor, PackId.SupportedClient, PackId.PackIdForAgent;
    ValidActorTrimmed(a.actor);
    PackId.SupportedPlain(f, a.client);
  }

  /** The settled arguments of a plan. */
  function PlanArgs(f: CaseMap, ns: string, account: string, agentId: string, localId: string, client: string, packId: string): Args {
    var c := PackId.NormalizeClient(f, client);
    Args(NamespaceOf(f, ns), Normalize(f, account), Trim(agentId), Trim(localId), c, c, packId, "")
  }

  lemma PlanSettled(f: CaseMap, env: Env, ns: string, account: string, agentId: string, localId: string, client: string)
    returns (packId: string)
    requires Plan(f, env, ns, account, agentId, localId, client).Planned?
    ensures var a := PlanArgs(f, ns, account, agentId, localId, client, packId);
      && Settled(f, a) && PackId.AgentIdFromPackId(packId) == Some(a.agentId)
      && PackId.PackIdForAgent(f, agentId, a.client) == Some(packId)
      && Plan(f, env, ns, account, agentId, localId, client)
         == match BuildPackInput(f, env, a)
            case Refused(_) => NotPlanned
            case Built(req) =>
              Planned(req, Binding(a.account, a.actor, a.ns, ROUTE, a.client, a.client, req.packId, req.packDigest))
  {
    hide Trim, Normalize, PackId.NormalizeClient, ServerName.ValidActor, PackId.SupportedClient, PackId.PackIdForAgent,
      PackId.AgentIdFromPackId, BuildPackInput, NamespaceOf;
    var c := PackId.NormalizeClient(f, client);
    packId := PackId.PackIdForAgent(f, agentId, c).value;
    PackId.RoundTrip(f, agentId, c, packId);
    NormalizeIdempotent(f, account);
    NamespacePlain(f, ns);
    ValidActorTrimmed(Trim(localId));
    TrimTwice(agentId);
  }

  /** The content step keeps every other field, and fills in the digest when there is none. */
  lemma ContentKeeps(env: Env, req: Request, agentId: string, client: string)
    requires WithContent(env, req, agentId, client).Built?
    ensures var built := WithContent(env, req, agentId, client).request;
      && built == req.(soul := built.soul, instructions := built.instructions, packDigest := built.packDigest)
      && (req.packDigest != "" ==> built.packDigest == req.packDigest)
      && (req.packDigest == "" ==> exists p :: built.packDigest == env.digest(p))
    ensures forall actor, digest :: digest != "" ==>
      WithContent(env, req.(actor := actor, packDigest := digest), agentId, client)
      == Built(WithContent(env, req, agentId, client).request.(actor := actor, packDigest := digest))
  {
  }

  /** The stored form of a planned binding: everything but the actor is already in normal form. */
  lemma PlannedBinding(f: CaseMap, b: Binding, a: Args)
    requires Settled(f, a) && PlainDigest(f, b.packDigest)
    requires b == Binding(a.account, a.actor, a.ns, ROUTE, a.client, a.client, a.packId, b.packDigest)
    ensures NormalizeBinding(f, b) == Some(b.(actor := ToLower(f, a.actor)))
  {
    hide Trim, Normalize, ServerName.ValidActor, PackId.SupportedClient;
    LowerActor(f, a.actor);
    PackId.SupportedPlain(f, a.client);
    LowerNonEmpty(f, a.actor);
    assert Trim(ROUTE) == ROUTE by { assert Trimmed(ROUTE); }
  }

  lemma LowerNonEmpty(f: CaseMap, actor: string)
    requires ServerName.ValidActor(actor)
    ensures ToLower(f, actor) != ""
  {
    assert |ToLower(f, actor)| == |actor| > 0;
  }

  /** A plan in full: its settled arguments, the request they build, and the binding its grant is stored with. */
  lemma PlanParts(f: CaseMap, env: Env, ns: string, account: string, agentId: string, localId: string, client: string)
    returns (a: Args)
    requires Lawful(f, env) && Plan(f, env, ns, account, agentId, localId, client).Planned?
    ensures Settled(f, a) && PackId.AgentIdFromPackId(a.packId) == Some(a.agentId)
    ensures a.account == Normalize(f, account) && a.agentId == Trim(agentId) && a.actor == Trim(localId) && a.packDigest == ""
    ensures var planned := Plan(f, env, ns, account, agentId, localId, client);
      && BuildPackInput(f, env, a) == Built(planned.request) && PlainDigest(f, planned.request.packDigest)
      && planned.request.actor == a.actor
      && planned.binding
         == Binding(a.account, a.actor, a.ns, ROUTE, a.client, a.client, a.packId, planned.request.packDigest)
      && NormalizeBinding(f, planned.binding)
         == Some(Binding(a.account, ToLower(f, a.actor), a.ns, ROUTE, a.client, a.client, a.packId, planned.request.packDigest))
  {
    hide Trim, Normalize, ToLower, PackId.NormalizeClient, ServerName.ValidActor, PackId.SupportedClient,
      PackId.PackIdForAgent, PackId.AgentIdFromPackId, BuildPackInput, NamespaceOf, Plan, WithContent, NormalizeBinding, Settled;
    var packId := PlanSettled(f, env, ns, account, agentId, localId, client);
    a := PlanArgs(f, ns, account, agentId, localId, client, packId);
    BuildSettled(f, env, a);
    var base := Request(a.client, env.stageDomain.value, a.actor, a.ns, a.account, a.packId, "", "", "");
    ContentKeeps(env, base, a.agentId, a.client);
    var planned := Plan(f, env, ns, account, agentId, localId, client);
    var p :| planned.request.packDigest == env.digest(p);
    assert PlainDigest(f, env.digest(p));
    PlannedBinding(f, planned.binding, a);
  }

  /** The binding that a planned grant is stored with, and the request that redeeming it rebuilds. */
  ghost predicate RedeemsTo(f: CaseMap, env: Env, providerNs: string, planned: Planned, actor: string)
    requires planned.Planned?
  {
    && NormalizeBinding(f, planned.binding) == Some(planned.binding.(actor := actor))
    && Redeem(f, env, providerNs, planned.binding.(actor := actor)) == Built(planned.request.(actor := actor))
  }

  /**
   While the content records are unchanged, redeeming the grant of a plan rebuilds the planned request with
   the actor lower-cased. So it is the planned request exactly when the actor is its own lower case.
   */
  lemma RedemptionExact(f: CaseMap, env: Env, ns: string, account: string, agentId: string, localId: string, client: string,
                        providerNs: string)
    requires Lawful(f, env) && Plan(f, env, ns, account, agentId, localId, client).Planned?
    ensures var planned := Plan(f, env, ns, account, agentId, localId, client);
      && planned.request.actor == Trim(localId)
      && RedeemsTo(f, env, providerNs, planned, ToLower(f, Trim(localId)))
      && (Redeem(f, env, providerNs, NormalizeBinding(f, planned.binding).value) == Built(planned.request)
          <==> ToLower(f, Trim(localId)) == Trim(localId))
  {
    hide Trim, Normalize, ToLower, PackId.NormalizeClient, ServerName.ValidActor, PackId.SupportedClient,
      PackId.PackIdForAgent, PackId.AgentIdFromPackId, BuildPackInput, NamespaceOf, Plan, WithContent, NormalizeBinding;
    var a := PlanParts(f, env, ns, account, agentId, localId, client);
    BuildSettled(f, env, a);
    var base := Request(a.client, env.stageDomain.value, a.actor, a.ns, a.account, a.packId, "", "", "");
    var planned := Plan(f, env, ns, account, agentId, localId, client);
    RebuildsRequest(f, env, providerNs, a, base, planned.binding.packDigest);
  }

  /** Redeeming builds from settled arguments: the plan's, with the actor lower-cased and this digest. */
  lemma RedeemSettles(f: CaseMap, env: Env, providerNs: string, a: Args, digest: string)
    requires Settled(f, a) && Normalize(f, digest) == digest && PackId.AgentIdFromPackId(a.packId) == Some(a.agentId)
    ensures var redeemed := a.(actor := ToLower(f, a.actor), packDigest := digest);
      && Settled(f, redeemed)
      && Redeem(f, env, providerNs,
                Binding(a.account, ToLower(f, a.actor), a.ns, ROUTE, a.client, a.client, a.packId, digest))
         == BuildPackInput(f, env, redeemed)
  {
    hide Trim, Normalize, ToLower, ServerName.ValidActor, PackId.SupportedClient, PackId.AgentIdFromPackId, BuildPackInput;
    LowerActor(f, a.actor);
    NormalTrims(f, a.ns);
    NormalTrims(f, digest);
  }

  /** Rebuilding from the stored binding, field by field. */
  lemma RebuildsRequest(f: CaseMap, env: Env, providerNs: string, a: Args, base: Request, digest: string)
    requires Settled(f, a) && env.stageDomain.Some? && PlainDigest(f, digest)
    requires PackId.AgentIdFromPackId(a.packId) == Some(a.agentId)
    requires base == Request(a.client, env.stageDomain.value, a.actor, a.ns, a.account, a.packId, "", "", "")
    requires WithContent(env, base, a.agentId, a.client).Built?
    ensures Redeem(f, env, providerNs,
                   Binding(a.account, ToLower(f, a.actor), a.ns, ROUTE, a.client, a.client, a.packId, digest))
      == Built(WithContent(env, base, a.agentId, a.client).request.(actor := ToLower(f, a.actor), packDigest := digest))
  {
    hide Trim, Normalize, ToLower, ServerName.ValidActor, PackId.SupportedClient, PackId.AgentIdFromPackId, BuildPackInput,
      WithContent, Redeem, Settled;
    RedeemSettles(f, env, providerNs, a, digest);
    BuildSettled(f, env, a.(actor := ToLower(f, a.actor), packDigest := digest));
    ContentKeeps(env, base, a.agentId, a.client);
    assert base.(actor := ToLower(f, a.actor), packDigest := digest)
      == Request(a.client, env.stageDomain.value, ToLower(f, a.actor), a.ns, a.account, a.packId, digest, "", "");
  }

  lemma NormalTrims(f: CaseMap, s: string)
    requires Normalize(f, s) == s
    ensures Trim(s) == s
  {
    hide Trim;
  }

  /** The digest is carried, not recomputed: whatever the content is by now, the pack still names the planned one. */
  lemma RedeemKeepsDigest(f: CaseMap, env: Env, providerNs: string, b: Binding)
    requires Redeem(f, env, providerNs, b).Built? && Trim(b.packDigest) != "" && Trim(b.packId) != ""
    ensures var req := Redeem(f, env, providerNs, b).request;
      && req.packDigest == Trim(b.packDigest) && req.packId == Trim(b.packId) && req.account == Normalize(f, b.account)
      && exists agentId :: PackId.AgentIdFromPackId(b.packId) == Some(agentId)
           && env.content(req.account, Trim(agentId)).soul.Some?
           && env.content(req.account, Trim(agentId)).soul.value.state == Published
           && env.content(req.account, Trim(agentId)).soul.value.rendered == Some(req.soul)
  {
    hide Trim, Normalize, ToLower, PackId.NormalizeClient, ServerName.ValidActor, PackId.SupportedClient,
      PackId.PackIdForAgent, PackId.AgentIdFromPackId, NamespaceOf;
    var agentId := PackId.AgentIdFromPackId(b.packId).value;
    assert PackId.AgentIdFromPackId(b.packId) == Some(agentId);
  }

  ghost predicate InjectiveDigest(env: Env) { forall p, q :: env.digest(p) == env.digest(q) ==> p == q }

  /** What a plan hashes. */
  lemma PlanHashes(f: CaseMap, env: Env, ns: string, account: string, agentId: string, localId: string, client: string)
    requires Plan(f, env, ns, account, agentId, localId, client).Planned?
    ensures var planned := Plan(f, env, ns, account, agentId, localId, client);
      var content := env.content(Normalize(f, account), Trim(agentId));
      && content.soul.Some? && content.instructions.Some? && content.soul.value.state == Published
      && planned.request.packDigest == env.digest(
           Payload(Normalize(f, account), Trim(localId), NamespaceOf(f, ns), Trim(agentId), PackId.NormalizeClient(f, client),
                   planned.request.soul, content.soul.value.version, Published,
                   planned.request.instructions, content.instructions.value.version, content.instructions.value.state))
      && content.soul.value.rendered == Some(planned.request.soul) && content.instructions.value.text == planned.request.instructions
  {
    hide Trim, Normalize, PackId.NormalizeClient, ServerName.ValidActor, PackId.SupportedClient, PackId.PackIdForAgent,
      PackId.AgentIdFromPackId, BuildPackInput, NamespaceOf, Plan;
    var packId := PlanSettled(f, env, ns, account, agentId, localId, client);
    BuildSettled(f, env, PlanArgs(f, ns, account, agentId, localId, client, packId));
  }

  // ---- does the digest still describe the pack? ----

  /** The stored grant of this plan can be redeemed when the configuration and the content are these. */
  ghost predicate Redeems(f: CaseMap, env: Env, providerNs: string, planned: Planned) {
    planned.Planned? && NormalizeBinding(f, planned.binding).Some?
    && Redeem(f, env, providerNs, NormalizeBinding(f, planned.binding).value).Built?
  }

  function RedeemedRequest(f: CaseMap, env: Env, providerNs: string, planned: Planned): Request
    requires Redeems(f, env, providerNs, planned)
  {
    Redeem(f, env, providerNs, NormalizeBinding(f, planned.binding).value).request
  }

  /** The digest of what a redemption renders: what it would compute if the grant carried none. */
  function DigestNow(f: CaseMap, env: Env, providerNs: string, planned: Planned): Option<string>
    requires Redeems(f, env, providerNs, planned)
  {
    match Redeem(f, env, providerNs, NormalizeBinding(f, planned.binding).value.(packDigest := ""))
    case Built(req) => Some(req.packDigest)
    case Refused(_) => None
  }

  function HashedPayload(a: Args, actor: string, soul: SoulContent, instructions: Instructions): Payload
    requires soul.rendered.Some?
  {
    PayloadOf(a.account, actor, a.ns, a.agentId, a.client, soul.rendered.value, soul, instructions)
  }

  /** What WithContent reads, when it succeeds. */
  ghost predicate Renderable(content: Content) {
    content.soul.Some? && content.soul.value.state == Published && content.soul.value.rendered.Some? && content.instructions.Some?
  }

  /** Settled arguments that build: the content behind them, and the digest they would have without one of their own. */
  lemma BuiltDigest(f: CaseMap, env: Env, a: Args)
    requires Settled(f, a) && BuildPackInput(f, env, a).Built?
    ensures env.stageDomain.Some? && Renderable(env.content(a.account, a.agentId))
    ensures var content, plain := env.content(a.account, a.agentId), a.(packDigest := "");
      && BuildPackInput(f, env, a).request.soul == content.soul.value.rendered.value
      && BuildPackInput(f, env, plain).Built?
      && BuildPackInput(f, env, plain).request.packDigest
         == env.digest(HashedPayload(a, a.actor, content.soul.value, content.instructions.value))
  {
    hide Trim, Normalize, ServerName.ValidActor, PackId.SupportedClient, BuildPackInput;
    BuildSettled(f, env, a);
    EmptyTrimmed();
    BuildSettled(f, env, a.(packDigest := ""));
  }

  lemma StoredNames(f: CaseMap, a: Args, digest: string)
    requires Settled(f, a) && PlainDigest(f, digest)
    ensures Trim(digest) == digest != "" && Trim(a.packId) == a.packId != ""
  {
    hide Trim, Normalize, ServerName.ValidActor, PackId.SupportedClient;
    NormalTrims(f, digest);
  }

  lemma EmptyTrimmed()
    ensures Trim("") == ""
  {
  }

  /** The same payload means the same actor and the same content. */
  lemma SamePayload(a: Args, actor: string, actor': string, content: Content, content': Content)
    requires Renderable(content) && Renderable(content')
    ensures HashedPayload(a, actor, content.soul.value, content.instructions.value)
         == HashedPayload(a, actor', content'.soul.value, content'.instructions.value)
      <==> actor == actor' && content == content'
  {
  }

  /**
   A redeemed pack carries the digest of its plan, whatever the content is by then. That digest is the digest
   of what the pack contains exactly when the content is still that of the plan, rendered soul, instructions and
   versions alike, and the actor is its own lower case.
   */
  lemma DigestDescribesIff(f: CaseMap, env: Env, env': Env, ns: string, account: string, agentId: string, localId: string,
                           client: string, providerNs: string)
    requires Lawful(f, env) && InjectiveDigest(env) && env'.digest == env.digest
    requires Redeems(f, env', providerNs, Plan(f, env, ns, account, agentId, localId, client))
    ensures var planned := Plan(f, env, ns, account, agentId, localId, client);
      && RedeemedRequest(f, env', providerNs, planned).packDigest == planned.request.packDigest
      && DigestNow(f, env', providerNs, planned).Some?
      && (DigestNow(f, env', providerNs, planned) == Some(planned.request.packDigest)
          <==> env'.content(Normalize(f, account), Trim(agentId)) == env.content(Normalize(f, account), Trim(agentId))
               && ToLower(f, Trim(localId)) == Trim(localId))
  {
    hide Trim, Normalize, ToLower, PackId.NormalizeClient, ServerName.ValidActor, PackId.SupportedClient,
      PackId.PackIdForAgent, PackId.AgentIdFromPackId, BuildPackInput, NamespaceOf, Plan, NormalizeBinding, Redeem, Settled,
      InjectiveDigest;
    var planned := Plan(f, env, ns, account, agentId, localId, client);
    var a := PlanParts(f, env, ns, account, agentId, localId, client);
    var lower, digest := ToLower(f, a.actor), planned.request.packDigest;
    EmptyNormal(f);
    RedeemSettles(f, env', providerNs, a, digest);
    RedeemSettles(f, env', providerNs, a, "");
    BuiltDigest(f, env, a);
    assert a.(packDigest := "") == a;
    BuiltDigest(f, env', a.(actor := lower, packDigest := digest));
    StoredNames(f, a, digest);
    RedeemKeepsDigest(f, env', providerNs, NormalizeBinding(f, planned.binding).value);
    var content, content' := env.content(a.account, a.agentId), env'.content(a.account, a.agentId);
    SamePayload(a, a.actor, lower, content, content');
    DigestSame(env, HashedPayload(a, a.actor, content.soul.value, content.instructions.value),
               HashedPayload(a, lower, content'.soul.value, content'.instructions.value));
  }

  lemma DigestSame(env: Env, p: Payload, q: Payload)
    requires InjectiveDigest(env)
    ensures env.digest(p) == env.digest(q) <==> p == q
  {
  }

  lemma EmptyNormal(f: CaseMap)
    ensures Normalize(f, "") == ""
  {
    EmptyTrimmed();
  }

  /** The same content, with the soul rewritten in its next version. */
  function Rewritten(env: Env, text: string): Env {
    env.(content := (account, agentId) =>
      var c := env.content(account, agentId);
      match c.soul
      case None => c
      case Some(soul) => c.(soul := Some(soul.(rendered := Some(text), version := soul.version + 1))))
  }

  lemma RewrittenContent(env: Env, text: string, account: string, agentId: string)
    requires Renderable(env.content(account, agentId))
    ensures var later := Rewritten(env, text);
      && later.stageDomain == env.stageDomain && later.digest == env.digest
      && Renderable(later.content(account, agentId))
      && later.content(account, agentId).soul.value.rendered == Some(text)
      && later.content(account, agentId) != env.content(account, agentId)
  {
  }

  /**
   Whatever was planned: when the soul is rewritten before the redemption, the pack holds the new soul under
   the digest of the old one.
   */
  lemma RewrittenUndetected(f: CaseMap, env: Env, ns: string, account: string, agentId: string, localId: string,
                            client: string, providerNs: string, text: string)
    requires Lawful(f, env) && InjectiveDigest(env)
    requires Plan(f, env, ns, account, agentId, localId, client).Planned?
    ensures var planned := Plan(f, env, ns, account, agentId, localId, client);
      && Redeems(f, Rewritten(env, text), providerNs, planned)
      && RedeemedRequest(f, Rewritten(env, text), providerNs, planned).soul == text
      && RedeemedRequest(f, Rewritten(env, text), providerNs, planned).packDigest == planned.request.packDigest
      && DigestNow(f, Rewritten(env, text), providerNs, planned) != Some(planned.request.packDigest)
  {
    hide Trim, Normalize, ToLower, BuildPackInput, Plan, NormalizeBinding, Settled, InjectiveDigest, Redeem, Rewritten,
      Renderable, HashedPayload, DigestNow, PackId.AgentIdFromPackId, Lawful, PlainDigest;
    var a := PlanParts(f, env, ns, account, agentId, localId, client);
    var planned := Plan(f, env, ns, account, agentId, localId, client);
    var redeemed := a.(actor := ToLower(f, a.actor), packDigest := planned.request.packDigest);
    BuiltDigest(f, env, a);
    RewrittenContent(env, text, a.account, a.agentId);
    PlannedDigestNormal(f, planned.request.packDigest);
    RedeemSettles(f, Rewritten(env, text), providerNs, a, planned.request.packDigest);
    RewrittenBuilds(f, Rewritten(env, text), redeemed);
    BuiltDigest(f, Rewritten(env, text), redeemed);
    DigestDescribesIff(f, env, Rewritten(env, text), ns, account, agentId, localId, client, providerNs);
  }

  lemma PlannedDigestNormal(f: CaseMap, digest: string)
    requires PlainDigest(f, digest)
    ensures Normalize(f, digest) == digest
  {
  }

  lemma RewrittenBuilds(f: CaseMap, env: Env, a: Args)
    requires Settled(f, a) && env.stageDomain.Some? && Renderable(env.content(a.account, a.agentId))
    ensures BuildPackInput(f, env, a).Built?
  {
    hide Trim, Normalize, ServerName.ValidActor, PackId.SupportedClient, BuildPackInput;
    BuildSettled(f, env, a);
  }

  /** Plans with the same digest are plans for the same agent, client, soul and instructions. */
  lemma DigestIdentifiesPlan(f: CaseMap, env: Env, ns: string, account: string, agentId: string, localId: string, client: string,
                             ns': string, account': string, agentId': string, localId': string, client': string)
    requires InjectiveDigest(env)
    requires Plan(f, env, ns, account, agentId, localId, client).Planned?
    requires Plan(f, env, ns', account', agentId', localId', client').Planned?
    requires Plan(f, env, ns, account, agentId, localId, client).request.packDigest
          == Plan(f, env, ns', account', agentId', localId', client').request.packDigest
    ensures Plan(f, env, ns, account, agentId, localId, client) == Plan(f, env, ns', account', agentId', localId', client')
  {
    hide Trim, Normalize, PackId.NormalizeClient, ServerName.ValidActor, PackId.SupportedClient, PackId.PackIdForAgent,
      PackId.AgentIdFromPackId, BuildPackInput, NamespaceOf, Plan;
    PlanHashes(f, env, ns, account, agentId, localId, client);
    PlanHashes(f, env, ns', account', agentId', localId', client');
    var packId := PlanSettled(f, env, ns, account, agentId, localId, client);
    var packId' := PlanSettled(f, env, ns', account', agentId', localId', client');
    PackIdSame(f, agentId, agentId', PackId.NormalizeClient(f, client));
  }

  lemma PackIdSame(f: CaseMap, agentId: string, agentId': string, client: string)
    requires Trim(agentId) == Trim(agentId')
    ensures PackId.PackIdForAgent(f, agentId, client) == PackId.PackIdForAgent(f, agentId', client)
  {
    hide Trim, PackId.NormalizeClient, PackId.SupportedClient;
  }

  // ---- the rendered pack ----

  /** The identifying part of a render request, and what its templates see besides. */
  function RenderRequest(req: Request): InstallPack.Request {
    InstallPack.Request(req.profile, req.stageDomain, req.actor, req.ns, req.account, req.packId, req.packDigest)
  }

  type Layouts = map<string, seq<PathOrder.Keyed<InstallPack.FileSpec>>>
  type Templates = (string, string) -> InstallPack.Templates

  /** This pack may be the rendering of this request. */
  ghost predicate RendersTo(f: CaseMap, layouts: Layouts, templates: Templates,
                            codec: InstallPack.Codec, req: Request, files: seq<InstallPack.File>, pack: InstallPack.Pack) {
    var id := InstallPack.Identify(f, layouts, RenderRequest(req));
    && id.Identified? && id.head.profile in layouts
    && InstallPack.RenderFiles(templates(req.soul, req.instructions), id.head, layouts[id.head.profile]) == Some(files)
    && InstallPack.Packs(codec, id.head, files, pack)
  }

  lemma HeadActor(f: CaseMap, layouts: Layouts, req: InstallPack.Request)
    ensures var id := InstallPack.Identify(f, layouts, req); id.Identified? ==> id.head.actor == Trim(req.actor)
  {
    hide PackId.NormalizeClient, ServerName.McpServerName, ServerName.ValidActor, ServerName.ValidStageDomain, Trim, Normalize;
  }

  /** Packs with the same ZIP have the same identifying fields: they are all in the manifest. */
  lemma ZipIdentifies(codec: InstallPack.Codec, h1: InstallPack.Head, h2: InstallPack.Head, files1: seq<InstallPack.File>,
                      files2: seq<InstallPack.File>, pack1: InstallPack.Pack, pack2: InstallPack.Pack)
    requires InstallPack.ParsesBack(codec) && pack1.zip == pack2.zip
    requires InstallPack.Packs(codec, h1, files1, pack1) && InstallPack.Packs(codec, h2, files2, pack2)
    ensures h1 == h2
  {
    assert codec.parse(codec.marshal(pack1.manifest)) == Some(pack1.manifest);
    assert codec.parse(codec.marshal(pack2.manifest)) == Some(pack2.manifest);
  }

  ghost predicate DistinctLayouts(layouts: Layouts) { forall p :: p in layouts ==> PathOrder.Distinct(layouts[p]) }

  lemma RenderedDistinct(f: CaseMap, layouts: Layouts, templates: Templates, codec: InstallPack.Codec, req: Request,
                         files: seq<InstallPack.File>, pack: InstallPack.Pack)
    requires DistinctLayouts(layouts) && RendersTo(f, layouts, templates, codec, req, files, pack)
    ensures PathOrder.Distinct(files)
  {
    hide InstallPack.Identify, InstallPack.Packs, InstallPack.RenderFiles, PathOrder.Distinct;
    var head := InstallPack.Identify(f, layouts, RenderRequest(req)).head;
    InstallPack.RenderedPaths(templates(req.soul, req.instructions), head, layouts[head.profile]);
    InstallPack.SamePaths(layouts[head.profile], files);
  }

  /** Renderings of requests that differ in the actor at most have the same ZIP exactly when the actors are the same. */
  lemma ActorShows(f: CaseMap, layouts: Layouts, templates: Templates, codec: InstallPack.Codec, req: Request, actor: string,
                   files: seq<InstallPack.File>, pack: InstallPack.Pack, files': seq<InstallPack.File>, pack': InstallPack.Pack)
    requires ServerName.ValidActor(req.actor) && ServerName.ValidActor(actor) && InstallPack.ParsesBack(codec)
    requires DistinctLayouts(layouts)
    requires RendersTo(f, layouts, templates, codec, req, files, pack)
    requires RendersTo(f, layouts, templates, codec, req.(actor := actor), files', pack')
    ensures pack'.zip == pack.zip <==> actor == req.actor
  {
    hide PackId.NormalizeClient, ServerName.McpServerName, ServerName.ValidActor, ServerName.ValidStageDomain, Trim, Normalize,
      InstallPack.Identify, InstallPack.Packs, InstallPack.RenderFiles, PathOrder.Distinct, DistinctLayouts;
    HeadActor(f, layouts, RenderRequest(req));
    HeadActor(f, layouts, RenderRequest(req.(actor := actor)));
    ValidActorTrimmed(req.actor);
    ValidActorTrimmed(actor);
    RenderedDistinct(f, layouts, templates, codec, req, files, pack);
    var head := InstallPack.Identify(f, layouts, RenderRequest(req)).head;
    var head' := InstallPack.Identify(f, layouts, RenderRequest(req.(actor := actor))).head;
    if pack'.zip == pack.zip {
      ZipIdentifies(codec, head, head', files, files', pack, pack');
    }
    if actor == req.actor {
      assert req.(actor := actor) == req;
      InstallPack.LayoutOrderIrrelevant(codec, head, files, files', pack, pack');
    }
  }

  /** A pack that redeeming the stored grant of this plan may give. */
  ghost predicate RedeemedPack(f: CaseMap, env: Env, providerNs: string, planned: Planned, layouts: Layouts,
                               templates: Templates, codec: InstallPack.Codec,
                               files: seq<InstallPack.File>, pack: InstallPack.Pack) {
    Redeems(f, env, providerNs, planned)
    && RendersTo(f, layouts, templates, codec, RedeemedRequest(f, env, providerNs, planned), files, pack)
  }

  ghost predicate InjectiveChecksum(checksum: InstallPack.Zip -> string) {
    forall a, b :: checksum(a) == checksum(b) ==> a == b
  }

  /**
   The ZIP redeemed from a planned grant, with unchanged content, is the ZIP that was planned, and has the
   checksum that the plan announced, exactly when lower-casing leaves the trimmed local id alone.
   */
  lemma RedeemedZip(f: CaseMap, env: Env, ns: string, account: string, agentId: string, localId: string, client: string,
                    providerNs: string, layouts: Layouts, templates: Templates, codec: InstallPack.Codec,
                    checksum: InstallPack.Zip -> string, files: seq<InstallPack.File>, pack: InstallPack.Pack,
                    files': seq<InstallPack.File>, pack': InstallPack.Pack)
    requires Lawful(f, env) && Plan(f, env, ns, account, agentId, localId, client).Planned?
    requires DistinctLayouts(layouts) && InstallPack.ParsesBack(codec) && InjectiveChecksum(checksum)
    requires RendersTo(f, layouts, templates, codec, Plan(f, env, ns, account, agentId, localId, client).request, files, pack)
    requires RedeemedPack(f, env, providerNs, Plan(f, env, ns, account, agentId, localId, client), layouts, templates, codec,
                          files', pack')
    ensures pack'.zip == pack.zip <==> ToLower(f, Trim(localId)) == Trim(localId)
    ensures checksum(pack'.zip) == checksum(pack.zip) <==> ToLower(f, Trim(localId)) == Trim(localId)
  {
    hide Trim, Normalize, ToLower, ServerName.ValidActor, Plan, NormalizeBinding, Redeem, RendersTo, DistinctLayouts;
    RedemptionExact(f, env, ns, account, agentId, localId, client, providerNs);
    var planned := Plan(f, env, ns, account, agentId, localId, client);
    PlannedActors(f, env, ns, account, agentId, localId, client);
    assert RedeemedRequest(f, env, providerNs, planned) == planned.request.(actor := ToLower(f, Trim(localId)));
    ActorShows(f, layouts, templates, codec, planned.request, ToLower(f, Trim(localId)), files, pack, files', pack');
  }

  lemma PlannedActors(f: CaseMap, env: Env, ns: string, account: string, agentId: string, localId: string, client: string)
    requires Lawful(f, env) && Plan(f, env, ns, account, agentId, localId, client).Planned?
    ensures ServerName.ValidActor(Trim(localId)) && ServerName.ValidActor(ToLower(f, Trim(localId)))
  {
    hide Trim, ToLower, ServerName.ValidActor, Plan, NormalizeBinding, BuildPackInput;
    var a := PlanParts(f, env, ns, account, agentId, localId, client);
    LowerActor(f, a.actor);
  }

  // ---- the download URL ----

  datatype Param = TokenParam | AccountParam | ActorParam | NamespaceParam | ClientParam | ProfileParam | PackIdParam | PackDigestParam

  /** The query of a download URL; URL encoding is taken to round-trip. */
  type Query = map<Param, string>

  /** DownloadURLForGrant: the query parameters of an issued grant. */
  function UrlQuery(token: string, b: Binding): Query {
    map[TokenParam := Trim(token), AccountParam := b.account, ActorParam := b.actor, NamespaceParam := b.ns,
        ClientParam := b.client, ProfileParam := b.profile, PackIdParam := b.packId, PackDigestParam := b.packDigest]
  }

  function Get(q: Query, p: Param): string { if p in q then q[p] else "" }

  /** installerGrantBindingFromQuery: the route is fixed, everything else comes from the URL. */
  function BindingFromQuery(q: Query): Binding {
    Binding(Get(q, AccountParam), Get(q, ActorParam), Get(q, NamespaceParam), ROUTE, Get(q, ClientParam),
            Get(q, ProfileParam), Get(q, PackIdParam), Get(q, PackDigestParam))
  }

  function UrlInput(grantId: string, q: Query): DownloadGrant.Input {
    DownloadGrant.Input(grantId, Trim(Get(q, TokenParam)), BindingFromQuery(q))
  }

  /**
   Following the URL of a grant issued for a plan presents exactly what is stored: it is accepted for the
   grant's whole lifetime.
   */
  lemma UrlMatchesGrant(f: CaseMap, h: Digest, env: Env, ns: string, account: string, agentId: string, localId: string,
                        client: string, id: string, token: string, ttl: int, issued: int, now: int)
    requires Lawful(f, env) && Plan(f, env, ns, account, agentId, localId, client).Planned?
    requires Trim(id) != "" && Trim(token) != ""
    ensures var planned := Plan(f, env, ns, account, agentId, localId, client);
      NormalizeBinding(f, planned.binding).Some?
      && var i := GrantWorld.DownloadIssue(NormalizeBinding(f, planned.binding).value, token, issued, ttl);
        var input := UrlInput(Trim(id), UrlQuery(token, i.binding));
        && Check(f, h, input, now).Valid? && Check(f, h, input, now).ticket.grantId == Trim(id)
        && (Accepts(GrantWorld.IssuedRow(h, Trim(id), i), Check(f, h, input, now).ticket)
            <==> now - issued < Lifetime(issued, ttl))
  {
    hide Trim, ToLower, NormalizeBinding, Plan, BuildPackInput, Settled;
    var a := PlanParts(f, env, ns, account, agentId, localId, client);
    var planned := Plan(f, env, ns, account, agentId, localId, client);
    NormalizeBindingIdempotent(f, planned.binding);
    StoredAccepted(f, h, Trim(id), GrantWorld.DownloadIssue(NormalizeBinding(f, planned.binding).value, token, issued, ttl), now);
  }

  lemma StoredAccepted(f: CaseMap, h: Digest, id: string, i: GrantWorld.Issue, now: int)
    requires NormalizeBinding(f, i.binding) == Some(i.binding) && i.binding.route == ROUTE
    requires id != "" && Trim(id) == id && Trim(i.token) != ""
    ensures var input := UrlInput(id, UrlQuery(i.token, i.binding));
      && Check(f, h, input, now).Valid?
      && Check(f, h, input, now).ticket.grantId == id
      && (Accepts(GrantWorld.IssuedRow(h, id, i), Check(f, h, input, now).ticket) <==> now - i.now < Lifetime(i.now, i.ttl))
  {
    hide Trim, NormalizeBinding;
    TrimTwice(i.token);
    LifetimeExact(i.now, i.ttl, now);
    assert BindingFromQuery(UrlQuery(i.token, i.binding)) == i.binding;
  }

  // ---- the redemption route ----

  const PAYLOAD_CEILING: int := 6 * 1024 * 1024

  datatype Response = Served(body: InstallPack.Body) | NotAvailable | AlreadyConsumed | RenderError | TooLarge | ConsumeError

  /** The response after the consume; render stands for the renderer and the ZIP writer. */
  function Respond(f: CaseMap, env: Env, providerNs: string, render: Request -> Option<InstallPack.Body>, result: Result): Response {
    match result
    case Won(grant) =>
      (match Redeem(f, env, providerNs, grant.binding)
       case Refused(_) => RenderError
       case Built(req) =>
         var body := render(req);
         if body.None? || body.value == [] then RenderError
         else if |body.value| >= PAYLOAD_CEILING then TooLarge
         else Served(body.value))
    case Replay(_) => AlreadyConsumed
    case Failed(error) =>
      if error in {GrantIdRequired, TokenRequired, DownloadGrant.Error.InvalidBinding} then NotAvailable else ConsumeError
    case _ => NotAvailable
  }

  /** What was presented is accepted by the row of its grant. */
  predicate Entitled(f: CaseMap, h: Digest, table: map<string, Row>, input: DownloadGrant.Input, now: int) {
    Check(f, h, input, now).Valid?
    && var t := Check(f, h, input, now).ticket; t.grantId in table && Accepts(table[t.grantId], t)
  }

  /** The row that was presented for, consumed now; every other row as it was. */
  function ConsumedTable(table: map<string, Row>, id: string, now: int): map<string, Row>
    requires id in table
  {
    table[id := MarkConsumed(table[id], now)]
  }

  /** This body is the rendering of the request that this row's binding stands for. */
  predicate Renders(f: CaseMap, env: Env, providerNs: string, render: Request -> Option<InstallPack.Body>, row: Row,
                    body: InstallPack.Body) {
    0 < |body| < PAYLOAD_CEILING
    && Redeem(f, env, providerNs, row.binding).Built?
    && render(Redeem(f, env, providerNs, row.binding).request) == Some(body)
  }

  /** The table after a consume, and what its answers say of the row, in both directions. */
  lemma AnswerMeans(f: CaseMap, h: Digest, table: map<string, Row>, input: DownloadGrant.Input, now: int)
    ensures var (after, result) := GrantWorld.ConsumeAlone(f, h, table, input, now);
      var id := Trim(input.grantId);
      && (if Entitled(f, h, table, input, now)
          then id in table && after == ConsumedTable(table, id, now) && (result.Won? || result == Failed(Unreadable))
               && (result.Won? ==> result.grant.binding == table[id].binding)
          else after == table && !result.Won?)
      && (result.Replay? ==> id in table && table[id].status == CONSUMED)
  {
    hide Trim, NormalizeBinding, NormalizeStatus;
    if Check(f, h, input, now).Valid? {
      NormalizeBindingIdempotent(f, input.binding);
    }
  }

  /** installerGrantHandler: consume the grant, then render. */
  method HandleGrant(store: GrantWorld.Store, env: Env, providerNs: string, render: Request -> Option<InstallPack.Body>,
                     grantId: string, q: Query, now: int)
    returns (response: Response)
    modifies store
    ensures var (table, result) := GrantWorld.ConsumeAlone(store.f, store.h, old(store.table), UrlInput(grantId, q), now);
      store.table == table && response == Respond(store.f, env, providerNs, render, result)
    ensures !Entitled(store.f, store.h, old(store.table), UrlInput(grantId, q), now) ==>
      store.table == old(store.table) && response in {NotAvailable, AlreadyConsumed, ConsumeError}
    ensures Entitled(store.f, store.h, old(store.table), UrlInput(grantId, q), now) ==>
      && Trim(grantId) in old(store.table)
      && store.table == ConsumedTable(old(store.table), Trim(grantId), now)
      && response !in {NotAvailable, AlreadyConsumed}
      && (response.Served? ==> Renders(store.f, env, providerNs, render, old(store.table)[Trim(grantId)], response.body))
    ensures response.AlreadyConsumed? ==> Trim(grantId) in store.table && store.table[Trim(grantId)].status == CONSUMED
  {
    hide Trim, NormalizeBinding, Redeem, GrantWorld.ConsumeAlone, Entitled, ConsumedTable;
    AnswerMeans(store.f, store.h, store.table, UrlInput(grantId, q), now);
    var binding := BindingFromQuery(q);
    var token := Trim(Get(q, TokenParam));
    var result := store.Consume(DownloadGrant.Input(grantId, token, binding), now);
    match result
    case Won(grant) =>
      var built := Redeem(store.f, env, providerNs, grant.binding);
      if built.Refused? {
        return RenderError;
      }
      var body := render(built.request);
      if body.None? || body.value == [] {
        return RenderError;
      }
      if |body.value| >= PAYLOAD_CEILING {
        return TooLarge;
      }
      response := Served(body.value);
    case Replay(_) => response := AlreadyConsumed;
    case Failed(error) =>
      if error == GrantIdRequired || error == TokenRequired || error == DownloadGrant.Error.InvalidBinding {
        return NotAvailable;
      }
      response := ConsumeError;
    case _ => response := NotAvailable;
  }

  /** A pack is served at most once, and a failed rendering still uses the grant up: the next request is told so. */
  lemma ServedOnce(f: CaseMap, h: Digest, env: Env, env': Env, providerNs: string, render: Request -> Option<InstallPack.Body>,
                   table: map<string, Row>, grantId: string, q: Query, now: int, again: int)
    requires forall id :: id in table ==> WellFormed(f, table[id])
    ensures var (after, first) := GrantWorld.ConsumeAlone(f, h, table, UrlInput(grantId, q), now);
      var (_, second) := GrantWorld.ConsumeAlone(f, h, after, UrlInput(grantId, q), again);
      var response := Respond(f, env, providerNs, render, first);
      response.Served? || response.RenderError? || response.TooLarge? ==>
        Respond(f, env', providerNs, render, second) == AlreadyConsumed
  {
    hide Trim, NormalizeBinding, Redeem, GrantWorld.ConsumeAlone, WellFormed;
    if GrantWorld.ConsumeAlone(f, h, table, UrlInput(grantId, q), now).1.Won? {
      GrantWorld.SecondIsReplay(f, h, table, UrlInput(grantId, q), now, again);
    }
  }
}
