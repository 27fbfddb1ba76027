/** Any sequence of issues and redemption requests against one grant table. */
module RedemptionRuns {
  import opened Wrappers
  import opened Text
  import opened DownloadGrant
  import opened Redemption
  import GrantWorld
  import InstallPack

  type Renderer = Request -> Option<InstallPack.Body>

  /** Configuration and content may be different at every request. */
  datatype Step =
    | Issuing(id: string, binding: Binding, ttl: int, token: string, now: int)
    | Visiting(env: Env, grantId: string, q: Query, now: int)

  /** The grant is stored: its input is valid and its id is not taken. */
  predicate Issues(f: CaseMap, table: map<string, Row>, s: Step)
    requires s.Issuing?
  {
    NormalizeBinding(f, s.binding).Some? && Trim(s.token) != "" && Trim(s.id) != "" && Trim(s.id) !in table
  }

  function RowFor(f: CaseMap, h: Digest, s: Step): Row
    requires s.Issuing? && NormalizeBinding(f, s.binding).Some?
  {
    GrantWorld.IssuedRow(h, Trim(s.id), GrantWorld.DownloadIssue(NormalizeBinding(f, s.binding).value, s.token, s.now, s.ttl))
  }

  /** The table after one step, as Store.Issue and HandleGrant leave it. */
  function StepTable(f: CaseMap, h: Digest, table: map<string, Row>, s: Step): map<string, Row> {
    match s
    case Issuing(id, _, _, _, _) => if Issues(f, table, s) then table[Trim(id) := RowFor(f, h, s)] else table
    case Visiting(_, grantId, q, now) => GrantWorld.ConsumeAlone(f, h, table, UrlInput(grantId, q), now).0
  }

  function TableAfter(f: CaseMap, h: Digest, steps: seq<Step>): map<string, Row> {
    if steps == [] then map[]
    else StepTable(f, h, TableAfter(f, h, steps[..|steps| - 1]), steps[|steps| - 1])
  }

  /** The response to request k, on the table the steps before it left. */
  function ResponseAt(f: CaseMap, h: Digest, providerNs: string, render: Renderer, steps: seq<Step>, k: nat): Response
    requires k < |steps| && steps[k].Visiting?
  {
    Respond(f, steps[k].env, providerNs, render,
            GrantWorld.ConsumeAlone(f, h, TableAfter(f, h, steps[..k]), UrlInput(steps[k].grantId, steps[k].q), steps[k].now).1)
  }

  predicate ServedAt(f: CaseMap, h: Digest, providerNs: string, render: Renderer, steps: seq<Step>, k: nat) {
    k < |steps| && steps[k].Visiting? && ResponseAt(f, h, providerNs, render, steps, k).Served?
  }

  /** Step j is the issue of this grant id. */
  predicate IssuedAt(f: CaseMap, h: Digest, steps: seq<Step>, j: nat, id: string) {
    j < |steps| && steps[j].Issuing? && Trim(steps[j].id) == id && Issues(f, TableAfter(f, h, steps[..j]), steps[j])
  }

  lemma StepFrom(f: CaseMap, h: Digest, steps: seq<Step>, k: nat)
    requires k < |steps|
    ensures TableAfter(f, h, steps[..k + 1]) == StepTable(f, h, TableAfter(f, h, steps[..k]), steps[k])
  {
    hide StepTable;
    assert steps[..k + 1][..k] == steps[..k];
  }

  /** A served request was entitled to its row, and uses it up. */
  lemma ServedMeans(f: CaseMap, h: Digest, providerNs: string, render: Renderer, steps: seq<Step>, k: nat)
    requires ServedAt(f, h, providerNs, render, steps, k)
    ensures var table, id := TableAfter(f, h, steps[..k]), Trim(steps[k].grantId);
      && Entitled(f, h, table, UrlInput(steps[k].grantId, steps[k].q), steps[k].now) && id in table
      && table[id].status == ACTIVE
      && TableAfter(f, h, steps[..k + 1]) == ConsumedTable(table, id, steps[k].now)
      && Renders(f, steps[k].env, providerNs, render, table[id], ResponseAt(f, h, providerNs, render, steps, k).body)
  {
    hide Trim, NormalizeBinding, Redeem, GrantWorld.ConsumeAlone, ConsumedTable, TableAfter, HashToken, UrlInput;
    StepFrom(f, h, steps, k);
    AnswerMeans(f, h, TableAfter(f, h, steps[..k]), UrlInput(steps[k].grantId, steps[k].q), steps[k].now);
    InputId(steps[k].grantId, steps[k].q);
    EntitledActive(f, h, TableAfter(f, h, steps[..k]), UrlInput(steps[k].grantId, steps[k].q), steps[k].now);
  }

  lemma InputId(grantId: string, q: Query)
    ensures UrlInput(grantId, q).grantId == grantId
  {
  }

  lemma EntitledActive(f: CaseMap, h: Digest, table: map<string, Row>, input: DownloadGrant.Input, now: int)
    requires Entitled(f, h, table, input, now)
    ensures Trim(input.grantId) in table && table[Trim(input.grantId)].status == ACTIVE
  {
    hide Trim, NormalizeBinding;
  }

  /** A consumed row stays consumed. */
  lemma StepKeepsConsumed(f: CaseMap, h: Digest, table: map<string, Row>, s: Step, id: string)
    requires id in table && table[id].status == CONSUMED
    ensures id in StepTable(f, h, table, s) && StepTable(f, h, table, s)[id].status == CONSUMED
  {
    hide Trim, NormalizeBinding, GrantWorld.ConsumeAlone, Entitled, RowFor, UrlInput;
    if s.Visiting? {
      AnswerMeans(f, h, table, UrlInput(s.grantId, s.q), s.now);
    }
  }

  lemma {:induction false} StaysConsumed(f: CaseMap, h: Digest, steps: seq<Step>, k: nat, l: nat, id: string)
    requires k <= l <= |steps| && id in TableAfter(f, h, steps[..k]) && TableAfter(f, h, steps[..k])[id].status == CONSUMED
    ensures id in TableAfter(f, h, steps[..l]) && TableAfter(f, h, steps[..l])[id].status == CONSUMED
    decreases l
  {
    hide StepTable, TableAfter;
    if k < l {
      StaysConsumed(f, h, steps, k, l - 1, id);
      StepFrom(f, h, steps, l - 1);
      StepKeepsConsumed(f, h, TableAfter(f, h, steps[..l - 1]), steps[l - 1], id);
    }
  }

  /** In any sequence of issues and requests, with any content at each of them, a grant id is served at most once. */
  lemma ServedAtMostOnce(f: CaseMap, h: Digest, providerNs: string, render: Renderer, steps: seq<Step>, k: nat, l: nat)
    requires ServedAt(f, h, providerNs, render, steps, k) && ServedAt(f, h, providerNs, render, steps, l)
    requires Trim(steps[k].grantId) == Trim(steps[l].grantId)
    ensures k == l
  {
    hide ResponseAt, TableAfter, Trim, Entitled, Renders;
    if k < l {
      OnceBefore(f, h, providerNs, render, steps, k, l);
    } else if l < k {
      OnceBefore(f, h, providerNs, render, steps, l, k);
    }
  }

  lemma OnceBefore(f: CaseMap, h: Digest, providerNs: string, render: Renderer, steps: seq<Step>, k: nat, l: nat)
    requires ServedAt(f, h, providerNs, render, steps, k) && ServedAt(f, h, providerNs, render, steps, l) && k < l
    ensures Trim(steps[k].grantId) != Trim(steps[l].grantId)
  {
    hide ResponseAt, TableAfter, Trim, Entitled, Renders;
    ServedMeans(f, h, providerNs, render, steps, k);
    ServedMeans(f, h, providerNs, render, steps, l);
    StatusesDiffer();
    if Trim(steps[k].grantId) == Trim(steps[l].grantId) {
      StaysConsumed(f, h, steps, k + 1, l, Trim(steps[k].grantId));
    }
  }

  /** Every row comes from one issue, and is as issued until it is consumed. */
  lemma {:induction false} RowOrigin(f: CaseMap, h: Digest, steps: seq<Step>, l: nat, id: string) returns (j: nat)
    requires l <= |steps| && id in TableAfter(f, h, steps[..l])
    ensures j < l && IssuedAt(f, h, steps, j, id)
    ensures TableAfter(f, h, steps[..l])[id].status == ACTIVE ==> TableAfter(f, h, steps[..l])[id] == RowFor(f, h, steps[j])
    decreases l
  {
    hide StepTable, Trim, NormalizeBinding, RowFor, TableAfter;
    if l == 0 {
      NothingBefore(f, h, steps[..0]);
      assert false;
    }
    StepFrom(f, h, steps, l - 1);
    var table := TableAfter(f, h, steps[..l - 1]);
    StepRow(f, h, table, steps[l - 1], id);
    if id in table {
      j := RowOrigin(f, h, steps, l - 1, id);
    } else {
      j := l - 1;
    }
  }

  lemma NothingBefore(f: CaseMap, h: Digest, steps: seq<Step>)
    requires steps == []
    ensures TableAfter(f, h, steps) == map[]
  {
  }

  lemma StepRow(f: CaseMap, h: Digest, table: map<string, Row>, s: Step, id: string)
    requires id in StepTable(f, h, table, s)
    ensures if id in table
            then StepTable(f, h, table, s)[id].status == ACTIVE ==> StepTable(f, h, table, s)[id] == table[id]
            else s.Issuing? && Trim(s.id) == id && Issues(f, table, s) && StepTable(f, h, table, s)[id] == RowFor(f, h, s)
  {
    hide Trim, NormalizeBinding, GrantWorld.ConsumeAlone, Entitled, RowFor, UrlInput;
    StatusesDiffer();
    if s.Visiting? {
      AnswerMeans(f, h, table, UrlInput(s.grantId, s.q), s.now);
    }
  }

  /** The request presented what was issued at step j, in time, and the body is the rendering of that grant. */
  ghost predicate RightlyServed(f: CaseMap, providerNs: string, render: Renderer, issue: Step, visit: Step, body: InstallPack.Body)
    requires issue.Issuing? && visit.Visiting?
  {
    && Trim(Get(visit.q, TokenParam)) == Trim(issue.token)
    && NormalizeBinding(f, issue.binding).Some?
    && NormalizeBinding(f, BindingFromQuery(visit.q)) == NormalizeBinding(f, issue.binding)
    && visit.now - issue.now < Lifetime(issue.now, issue.ttl)
    && 0 < |body| < PAYLOAD_CEILING
    && Redeem(f, visit.env, providerNs, NormalizeBinding(f, issue.binding).value).Built?
    && render(Redeem(f, visit.env, providerNs, NormalizeBinding(f, issue.binding).value).request) == Some(body)
  }

  lemma EntitledMatches(f: CaseMap, h: Digest, table: map<string, Row>, issue: Step, grantId: string, q: Query, now: int)
    requires Injective(h) && issue.Issuing? && NormalizeBinding(f, issue.binding).Some? && Trim(issue.token) != ""
    requires Entitled(f, h, table, UrlInput(grantId, q), now) && Trim(grantId) in table
    requires table[Trim(grantId)] == RowFor(f, h, issue)
    ensures Trim(Get(q, TokenParam)) == Trim(issue.token)
    ensures NormalizeBinding(f, BindingFromQuery(q)) == NormalizeBinding(f, issue.binding)
    ensures now - issue.now < Lifetime(issue.now, issue.ttl)
  {
    hide Trim, NormalizeBinding, BindingFromQuery, Get;
    TrimTwice(Get(q, TokenParam));
    LifetimeExact(issue.now, issue.ttl, now);
  }

  /**
   Whatever is served was asked for with the token and the binding of an earlier issue of that grant id, within
   its lifetime, and is the rendering of what that grant stands for.
   */
  lemma ServedRightly(f: CaseMap, h: Digest, providerNs: string, render: Renderer, steps: seq<Step>, k: nat) returns (j: nat)
    requires Injective(h) && ServedAt(f, h, providerNs, render, steps, k)
    ensures j < k && IssuedAt(f, h, steps, j, Trim(steps[k].grantId))
    ensures RightlyServed(f, providerNs, render, steps[j], steps[k], ResponseAt(f, h, providerNs, render, steps, k).body)
  {
    hide ResponseAt, TableAfter, Trim, Entitled, NormalizeBinding, Redeem, BindingFromQuery, Get, UrlInput, Injective;
    ServedMeans(f, h, providerNs, render, steps, k);
    j := RowOrigin(f, h, steps, k, Trim(steps[k].grantId));
    EntitledMatches(f, h, TableAfter(f, h, steps[..k]), steps[j], steps[k].grantId, steps[k].q, steps[k].now);
  }

  // ---- requests whose steps interleave ----

  /** The handler's response to consumer c, whose consume has ended; env is what its rendering reads. */
  function ResponseTo(f: CaseMap, env: Env, providerNs: string, render: Renderer, client: GrantWorld.Consumer): Response
    requires client.phase.Done?
  {
    Respond(f, env, providerNs, render, client.phase.result)
  }

  predicate ServedTo(f: CaseMap, env: Env, providerNs: string, render: Renderer, w: GrantWorld.World, c: nat) {
    c in w.clients && w.clients[c].phase.Done? && ResponseTo(f, env, providerNs, render, w.clients[c]).Served?
  }

  /** Only a winner is served, with the rendering of the grant it won. */
  lemma ServedWins(f: CaseMap, h: Digest, env: Env, providerNs: string, render: Renderer, w: GrantWorld.World, c: nat)
    requires GrantWorld.Inv(f, h, w) && ServedTo(f, env, providerNs, render, w, c)
    ensures GrantWorld.Wins(f, h, w, c, Trim(w.clients[c].input.grantId))
    ensures var binding := w.clients[c].phase.result.grant.binding;
      var body := ResponseTo(f, env, providerNs, render, w.clients[c]).body;
      && 0 < |body| < PAYLOAD_CEILING && Redeem(f, env, providerNs, binding).Built?
      && render(Redeem(f, env, providerNs, binding).request) == Some(body)
  {
    hide Redeem, NormalizeBinding, Trim, HashToken, GrantWorld.GrantOk;
    assert GrantWorld.ConsumerOk(f, h, w, c);
  }

  /**
   However the updates and reads of redemption requests interleave with each other and with issues, a grant
   id is served at most once.
   */
  lemma InterleavedAtMostOnce(f: CaseMap, h: Digest, providerNs: string, render: Renderer, events: seq<GrantWorld.Event>,
                              env: Env, c: nat, env': Env, d: nat)
    ensures var w := GrantWorld.Run(f, h, GrantWorld.Empty(), events);
      (&& ServedTo(f, env, providerNs, render, w, c) && ServedTo(f, env', providerNs, render, w, d)
       && Trim(w.clients[c].input.grantId) == Trim(w.clients[d].input.grantId)) ==> c == d
  {
    hide ServedTo, GrantWorld.Wins, GrantWorld.Inv, GrantWorld.Exec, Trim, Check;
    GrantWorld.EmptyInv(f, h);
    GrantWorld.RunInv(f, h, GrantWorld.Empty(), events);
    var w := GrantWorld.Run(f, h, GrantWorld.Empty(), events);
    ServedStands(f, env, providerNs, render, w, c);
    ServedStands(f, env', providerNs, render, w, d);
    if ServedTo(f, env, providerNs, render, w, c) && ServedTo(f, env', providerNs, render, w, d) {
      ServedWins(f, h, env, providerNs, render, w, c);
      ServedWins(f, h, env', providerNs, render, w, d);
      GrantWorld.AtMostOnce(f, h, events, c, d, Trim(w.clients[c].input.grantId));
    }
  }

  lemma ServedStands(f: CaseMap, env: Env, providerNs: string, render: Renderer, w: GrantWorld.World, c: nat)
    ensures ServedTo(f, env, providerNs, render, w, c) ==> c in w.clients && w.clients[c].phase.Done?
  {
    hide Respond;
  }

  /** This body is the rendering of the grant that was issued under this id. */
  ghost predicate RendersIssue(f: CaseMap, env: Env, providerNs: string, render: Renderer, w: GrantWorld.World, id: string,
                               body: InstallPack.Body) {
    && id in w.issues && 0 < |body| < PAYLOAD_CEILING && Redeem(f, env, providerNs, w.issues[id].binding).Built?
    && render(Redeem(f, env, providerNs, w.issues[id].binding).request) == Some(body)
  }

  /** And it is served only to who presented the issued token and binding in time, with the rendering of that grant. */
  lemma InterleavedRightly(f: CaseMap, h: Digest, providerNs: string, render: Renderer, events: seq<GrantWorld.Event>,
                           env: Env, c: nat)
    requires Injective(h)
    ensures var w := GrantWorld.Run(f, h, GrantWorld.Empty(), events);
      ServedTo(f, env, providerNs, render, w, c) ==>
        var id := Trim(w.clients[c].input.grantId);
        && GrantWorld.Rightful(f, w, w.clients[c], id)
        && RendersIssue(f, env, providerNs, render, w, id, ResponseTo(f, env, providerNs, render, w.clients[c]).body)
  {
    hide Respond, GrantWorld.Wins, GrantWorld.Inv, GrantWorld.Exec, Trim, Check, NormalizeBinding, Redeem, Injective;
    GrantWorld.EmptyInv(f, h);
    GrantWorld.RunInv(f, h, GrantWorld.Empty(), events);
    var w := GrantWorld.Run(f, h, GrantWorld.Empty(), events);
    if ServedTo(f, env, providerNs, render, w, c) {
      ServedWins(f, h, env, providerNs, render, w, c);
      GrantWorld.WinsRightfully(f, h, events, c, Trim(w.clients[c].input.grantId));
    }
  }
}
