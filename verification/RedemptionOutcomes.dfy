/**
 What planning, redeeming and serving an install pack yields, said on the inputs, the stored content and the
 stored row alone.
 */
module RedemptionOutcomes {
  import opened Wrappers
  import opened Text
  import opened ContentKeys
  import opened DownloadGrant
  import opened Redemption
  import GrantOutcomes
  import GrantWorld
  import InstallPack
  import PackId
  import Base64Url
  import Utf8
  import ServerName

  function Lower(f: CaseMap, s: string): string { ToLower(f, Trim(s)) }

  /** Dashes in a client name count as underscores. */
  function ClientName(f: CaseMap, client: string): string {
    ToLower(f, MapChars((c: char) => if c == '-' then '_' else c, Trim(client)))
  }

  function Namespace(f: CaseMap, ns: string): string { if Lower(f, ns) == "" then "equaltoai" else Lower(f, ns) }

  function PackIdOf(client: string, agentId: string): string {
    "agent-local-install/v1/" + (client + "/" + Base64Url.Encode(Utf8.Encode(Trim(agentId))))
  }

  lemma ClientIs(f: CaseMap, client: string)
    ensures PackId.NormalizeClient(f, client) == ClientName(f, client)
    ensures PackId.SupportedClient(client) <==> client == "claude_code" || client == "codex"
  {
    hide Trim, ToLower;
    assert MapChars(PackId.ReplaceDash, Trim(client)) == MapChars((c: char) => if c == '-' then '_' else c, Trim(client));
  }

  lemma PackIdIs(f: CaseMap, agentId: string, client: string)
    ensures PackId.PackIdForAgent(f, agentId, client)
      == if Trim(agentId) != "" && (ClientName(f, client) == "claude_code" || ClientName(f, client) == "codex")
         then Some(PackIdOf(ClientName(f, client), agentId)) else None
  {
    hide Trim, ToLower, PackId.SupportedClient, ClientName, Base64Url.Encode, Utf8.Encode;
    ClientIs(f, client);
    ClientIs(f, ClientName(f, client));
  }

  // ---- content ----

  /** Why the content of an agent cannot be packed, in the order in which it is checked. */
  function ContentError(content: Content): Option<Redemption.Error> {
    if content.soul.None? then Some(SoulMissing)
    else if content.soul.value.state != Published then Some(SoulUnpublished)
    else if content.soul.value.rendered.None? then Some(SoulUnrenderable)
    else if content.instructions.None? then Some(InstructionsMissing)
    else None
  }

  lemma WithContentIs(env: Env, req: Request, agentId: string, client: string)
    ensures var content := env.content(req.account, agentId);
      WithContent(env, req, agentId, client)
      == match ContentError(content)
         case Some(error) => Refused(error)
         case None =>
           var soul, text := content.soul.value, content.instructions.value;
           var digest := env.digest(Payload(req.account, req.actor, req.ns, agentId, client, soul.rendered.value, soul.version,
                                            Published, text.text, text.version, text.state));
           Built(Request(req.profile, req.stageDomain, req.actor, req.ns, req.account, req.packId,
                         if req.packDigest == "" then digest else req.packDigest, soul.rendered.value, text.text))
  {
  }

  /** The client comes from the client or else the profile; a pack id from the agent unless one is given. */
  ghost predicate BuildOutcome(f: CaseMap, env: Env, a: Args, built: Built) {
    var client := if ClientName(f, a.client) == "" then ClientName(f, a.profile) else ClientName(f, a.client);
    var profile := if a.profile == "" then client else a.profile;
    if Lower(f, a.account) == "" then built == Refused(AccountRequired)
    else if Trim(a.agentId) == "" then built == Refused(AgentIdRequired)
    else if !ServerName.ValidActor(Trim(a.actor)) then built == Refused(BadActor)
    else if client != "claude_code" && client != "codex" then built == Refused(BadClient)
    else if ClientName(f, profile) != client then built == Refused(ProfileMismatch)
    else if env.stageDomain.None? then built == Refused(BadEndpoint)
    else
      var packId := if Trim(a.packId) == "" then PackIdOf(client, a.agentId) else Trim(a.packId);
      built == WithContent(env, Request(profile, env.stageDomain.value, Trim(a.actor), Namespace(f, a.ns), Lower(f, a.account),
                                        packId, Trim(a.packDigest), "", ""), Trim(a.agentId), client)
  }

  /** The first check that fails decides; the rest is WithContentIs. */
  lemma BuildIs(f: CaseMap, env: Env, a: Args)
    ensures BuildOutcome(f, env, a, BuildPackInput(f, env, a))
  {
    hide Trim, ToLower, ServerName.ValidActor, PackId.SupportedClient, PackId.PackIdForAgent, PackId.NormalizeClient,
      ClientName, PackIdOf, WithContent, NamespaceOf, Namespace;
    var client := if ClientName(f, a.client) == "" then ClientName(f, a.profile) else ClientName(f, a.client);
    var profile := if a.profile == "" then client else a.profile;
    ClientIs(f, a.client);
    ClientIs(f, a.profile);
    ClientIs(f, client);
    ClientIs(f, profile);
    NamespaceIs(f, a.ns);
    if client == "claude_code" || client == "codex" {
      PackId.SupportedPlain(f, client);
      PackIdIs(f, Trim(a.agentId), client);
      TrimTwice(a.agentId);
      PackIdTrims(client, a.agentId);
    }
  }

  lemma PackIdTrims(client: string, agentId: string)
    ensures PackIdOf(client, Trim(agentId)) == PackIdOf(client, agentId)
  {
    hide Trim;
    TrimTwice(agentId);
  }

  // ---- planning ----

  /** The plan exists exactly for complete inputs and packable content, and then it is this one. */
  ghost predicate PlanOutcome(f: CaseMap, env: Env, ns: string, account: string, agentId: string, localId: string, client: string,
                              planned: Planned) {
    var a, c, n, actor := Lower(f, account), ClientName(f, client), Namespace(f, ns), Trim(localId);
    var content := env.content(a, Trim(agentId));
    if a == "" || Trim(agentId) == "" || (c != "claude_code" && c != "codex") || !ServerName.ValidActor(actor)
       || env.stageDomain.None? || ContentError(content).Some?
    then planned == NotPlanned
    else
      var soul, text, packId := content.soul.value, content.instructions.value, PackIdOf(c, agentId);
      var digest := env.digest(Payload(a, actor, n, Trim(agentId), c, soul.rendered.value, soul.version, Published,
                                       text.text, text.version, text.state));
      planned == Planned(Request(c, env.stageDomain.value, actor, n, a, packId, digest, soul.rendered.value, text.text),
                         Binding(a, actor, n, "/instance/ba/mcp", c, c, packId, digest))
  }

  lemma PlanIs(f: CaseMap, env: Env, ns: string, account: string, agentId: string, localId: string, client: string)
    ensures PlanOutcome(f, env, ns, account, agentId, localId, client, Plan(f, env, ns, account, agentId, localId, client))
  {
    hide Trim, ToLower, ServerName.ValidActor, PackId.SupportedClient, PackId.PackIdForAgent, PackId.NormalizeClient,
      PackId.AgentIdFromPackId, BuildPackInput, ClientName, PackIdOf, ContentError, WithContent;
    var c := ClientName(f, client);
    ClientIs(f, client);
    ClientIs(f, c);
    PackIdIs(f, agentId, c);
    if Lower(f, account) != "" && Trim(agentId) != "" && PackId.SupportedClient(c) && ServerName.ValidActor(Trim(localId)) {
      NamespaceIs(f, ns);
      PlannedInput(f, env, ns, account, agentId, localId, client);
    }
  }

  lemma NamespaceIs(f: CaseMap, ns: string)
    ensures NamespaceOf(f, ns) == Namespace(f, ns)
  {
    hide Trim, ToLower;
  }

  /** The part of planning after its own checks. */
  lemma PlannedInput(f: CaseMap, env: Env, ns: string, account: string, agentId: string, localId: string, client: string)
    requires Lower(f, account) != "" && Trim(agentId) != "" && ServerName.ValidActor(Trim(localId))
    requires PackId.SupportedClient(ClientName(f, client))
    ensures PlanOutcome(f, env, ns, account, agentId, localId, client, Plan(f, env, ns, account, agentId, localId, client))
  {
    hide Trim, ToLower, ServerName.ValidActor, PackId.SupportedClient, PackId.PackIdForAgent, PackId.NormalizeClient,
      PackId.AgentIdFromPackId, BuildPackInput, ClientName, PackIdOf, ContentError, WithContent, NamespaceOf, Namespace;
    var c := ClientName(f, client);
    ClientIs(f, client);
    ClientIs(f, c);
    PackId.SupportedPlain(f, c);
    PackIdIs(f, agentId, c);
    NamespaceIs(f, ns);
    NamespacePlain(f, ns);
    var packId := PackIdOf(c, agentId);
    PackId.RoundTrip(f, agentId, c, packId);
    NormalizeIdempotent(f, account);
    ValidActorTrimmed(Trim(localId));
    TrimTwice(agentId);
    EmptyTrimmed();
    var a := Args(NamespaceOf(f, ns), Lower(f, account), Trim(agentId), Trim(localId), c, c, packId, "");
    BuildSettled(f, env, a);
    if env.stageDomain.Some? {
      WithContentIs(env, Request(c, env.stageDomain.value, Trim(localId), a.ns, a.account, packId, "", "", ""), a.agentId, c);
    }
  }

  // ---- redeeming ----

  /** Refused for the first thing that is missing, or the planned request with this actor and the text of now. */
  predicate RedeemOutcome(env: Env, content: Content, planned: Request, actor: string, built: Built) {
    if env.stageDomain.None? then built == Refused(BadEndpoint)
    else if ContentError(content).Some? then built == Refused(ContentError(content).value)
    else
      built == Built(Request(planned.profile, env.stageDomain.value, actor, planned.ns, planned.account, planned.packId,
                             planned.packDigest, content.soul.value.rendered.value, content.instructions.value.text))
  }

  function Stored(f: CaseMap, planned: Planned): Binding
    requires planned.Planned?
  {
    GrantOutcomes.Plain(f, planned.binding)
  }

  /**
   Redeeming the stored grant of a plan, under whatever configuration and content hold by then: nothing else
   decides, and the planned digest and identity are kept.
   */
  lemma RedeemIs(f: CaseMap, env: Env, env': Env, ns: string, account: string, agentId: string, localId: string, client: string,
                 providerNs: string)
    requires Lawful(f, env) && Plan(f, env, ns, account, agentId, localId, client).Planned?
    ensures var planned := Plan(f, env, ns, account, agentId, localId, client);
      && NormalizeBinding(f, planned.binding) == Some(Stored(f, planned))
      && RedeemOutcome(env', env'.content(Lower(f, account), Trim(agentId)), planned.request, ToLower(f, Trim(localId)),
                       Redeem(f, env', providerNs, Stored(f, planned)))
  {
    hide Trim, ToLower, ServerName.ValidActor, PackId.SupportedClient, PackId.PackIdForAgent, PackId.NormalizeClient,
      PackId.AgentIdFromPackId, BuildPackInput, ContentError, WithContent, NamespaceOf, Plan, NormalizeBinding, Redeem, Settled, GrantOutcomes.Plain,
      GrantOutcomes.NoBlank;
    var planned := Plan(f, env, ns, account, agentId, localId, client);
    var a := PlanParts(f, env, ns, account, agentId, localId, client);
    GrantOutcomes.NormalizeIs(f, planned.binding);
    BuiltFields(f, env, a);
    RedeemSettles(f, env', providerNs, a, planned.request.packDigest);
    var redeemed := a.(actor := ToLower(f, a.actor), packDigest := planned.request.packDigest);
    BuildSettled(f, env', redeemed);
    if env'.stageDomain.Some? {
      WithContentIs(env', Request(a.client, env'.stageDomain.value, redeemed.actor, a.ns, a.account, a.packId,
                                  redeemed.packDigest, "", ""), a.agentId, a.client);
    }
  }

  /** What settled arguments pass on unchanged. */
  lemma BuiltFields(f: CaseMap, env: Env, a: Args)
    requires Settled(f, a) && BuildPackInput(f, env, a).Built?
    ensures var req := BuildPackInput(f, env, a).request;
      req.profile == a.client && req.ns == a.ns && req.account == a.account && req.packId == a.packId && req.actor == a.actor
  {
    hide Trim, Normalize, ServerName.ValidActor, PackId.SupportedClient, BuildPackInput;
    BuildSettled(f, env, a);
  }

  // ---- the redemption route ----

  function Param(q: Query, p: Redemption.Param): string { if p in q then q[p] else "" }

  /** What the URL presents; its route is fixed. */
  function Presented(q: Query): Binding {
    Binding(Param(q, AccountParam), Param(q, ActorParam), Param(q, NamespaceParam), "/instance/ba/mcp", Param(q, ClientParam),
            Param(q, ProfileParam), Param(q, PackIdParam), Param(q, PackDigestParam))
  }

  /** The response to an undisturbed request, by what the URL presents and what is stored. */
  ghost predicate RouteOutcome(f: CaseMap, h: Digest, env: Env, providerNs: string, render: Request -> Option<InstallPack.Body>,
                               table: map<string, Row>, grantId: string, q: Query, now: int,
                               after: map<string, Row>, response: Response) {
    var id, token := Trim(grantId), Trim(Param(q, TokenParam));
    if id == "" || token == "" || !GrantOutcomes.NoBlank(Presented(q)) || id !in table
    then after == table && response == NotAvailable
    else
      var row := table[id];
      if row.tokenHash != h(token) || row.binding != GrantOutcomes.Plain(f, Presented(q))
      then after == table && response == NotAvailable
      else if row.status == "consumed" then after == table && response == AlreadyConsumed
      else if row.expiresAt <= now / 1_000_000_000 then after == table && response == NotAvailable
      else
        && after == table[id := Row(row.grantId, "consumed", row.tokenHash, row.binding, row.createdAt, Some(now), row.expiresAt)]
        && match Redeem(f, env, providerNs, row.binding)
           case Refused(_) => response == RenderError
           case Built(req) =>
             match render(req)
             case None => response == RenderError
             case Some(body) =>
               response == if body == [] then RenderError else if |body| >= 6_291_456 then TooLarge else Served(body)
  }

  /** The handler, whose contract is ConsumeAlone and Respond. */
  lemma RouteIs(f: CaseMap, h: Digest, env: Env, providerNs: string, render: Request -> Option<InstallPack.Body>,
                table: map<string, Row>, grantId: string, q: Query, now: int)
    requires GrantOutcomes.AllKept(f, table)
    ensures var (after, result) := GrantWorld.ConsumeAlone(f, h, table, UrlInput(grantId, q), now);
      RouteOutcome(f, h, env, providerNs, render, table, grantId, q, now, after, Respond(f, env, providerNs, render, result))
  {
    hide Trim, Redeem, GrantWorld.ConsumeAlone, GrantOutcomes.NoBlank, GrantOutcomes.Plain, GrantOutcomes.AllKept;
    GrantOutcomes.ConsumeOutcome(f, h, table, UrlInput(grantId, q), now);
    TrimTwice(Param(q, TokenParam));
    assert BindingFromQuery(q) == Presented(q);
  }
}
