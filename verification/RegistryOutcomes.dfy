/**
 What a registry call does, said on the fields of the call itself: which calls succeed, what every column
 holds afterwards, and what the returned agent shows; for the undisturbed call and for every run.
 */
module RegistryOutcomes {
  import opened Wrappers
  import opened Text
  import opened ActorEndpoint
  import opened AgentRegistry
  import opened RegistryWorld

  // ---- the fields of a call ----

  function AccountOf(call: Call): string {
    match call
    case Create(account, _) => account
    case UpsertFinalized(input) => input.account
    case UpsertRecovered(input) => input.account
  }

  function AgentIdOf(call: Call): string {
    match call
    case Create(_, agentId) => agentId
    case UpsertFinalized(input) => input.agentId
    case UpsertRecovered(input) => input.agentId
  }

  function LocalIdOf(call: Call): string {
    match call
    case Create(_, _) => ""
    case UpsertFinalized(input) => input.localId
    case UpsertRecovered(input) => input.localId
  }

  function ExpectedOf(call: Call): Option<string> {
    match call
    case Create(_, _) => None
    case UpsertFinalized(input) => input.expected
    case UpsertRecovered(input) => input.expected
  }

  function KeyOf(f: CaseMap, call: Call): Key { Key(Normalize(f, AccountOf(call)), Trim(AgentIdOf(call))) }

  /** The input is complete. */
  predicate Acceptable(f: CaseMap, call: Call) {
    && Trim(AccountOf(call)) != "" && Trim(AgentIdOf(call)) != ""
    && (call.UpsertRecovered? ==>
          var r := call.recovered;
          && Trim(r.registrationId) != "" && Trim(r.conversationId) != "" && Trim(r.domain) != "" && Trim(r.localId) != ""
          && Trim(r.lifecycleStatus) != "" && r.selfDescriptionVersion >= 1
          && (Trim(r.recovery.classification) == "published_artifact_verified"
              || Trim(r.recovery.classification) == "legacy_declarations_only")
          && Sha256Name(Trim(r.recovery.digest)) && r.recovery.producedAt.Some? && r.recovery.versionCount >= 0)
  }

  // ---- columns ----

  /** A text the call brought is stored trimmed; otherwise the column keeps what it held. */
  predicate TextColumn(column: string, brought: string, before: string) {
    if Trim(brought) != "" then column == Trim(brought) else column == before
  }

  predicate NumberColumn(column: int, brought: int, before: int) { if brought > 0 then column == brought else column == before }

  predicate FinalizedColumns(input: Finalized, before: Row, after: Row) {
    && after.source == GenesisFinalize
    && TextColumn(after.registrationId, input.registrationId, before.registrationId)
    && TextColumn(after.conversationId, input.conversationId, before.conversationId)
    && TextColumn(after.domain, input.domain, before.domain)
    && TextColumn(after.localId, input.localId, before.localId)
    && TextColumn(after.authorityModel, input.authorityModel, before.authorityModel)
    && TextColumn(after.anchorState, input.anchorState, before.anchorState)
    && TextColumn(after.operationalBinding, input.operationalBinding, before.operationalBinding)
    && TextColumn(after.lifecycleStatus, input.lifecycleStatus, before.lifecycleStatus)
    && NumberColumn(after.publishedVersion, input.publishedVersion, before.publishedVersion)
    && NumberColumn(after.selfDescriptionVersion, input.selfDescriptionVersion, before.selfDescriptionVersion)
    && after.recovery == before.recovery
  }

  /** A recovery brings all its columns; a create stores its published version whatever it is. */
  predicate RecoveredColumns(input: Recovered, before: Row, after: Row, created: bool) {
    && after.source == SelfRecovery
    && after.registrationId == Trim(input.registrationId) && after.conversationId == Trim(input.conversationId)
    && after.domain == Trim(input.domain) && after.localId == Trim(input.localId)
    && after.lifecycleStatus == Trim(input.lifecycleStatus)
    && after.authorityModel == before.authorityModel && after.anchorState == before.anchorState
    && after.operationalBinding == before.operationalBinding
    && (if created then after.publishedVersion == input.publishedVersion
        else NumberColumn(after.publishedVersion, input.publishedVersion, before.publishedVersion))
    && after.selfDescriptionVersion == input.selfDescriptionVersion
    && after.recovery.classification == Trim(input.recovery.classification)
    && after.recovery.digest == Trim(input.recovery.digest) && after.recovery.producedAt == input.recovery.producedAt
    && after.recovery.versionCount == input.recovery.versionCount
  }

  /** A row nobody has written a column of. */
  function Blank(key: Key, now: int): Row {
    Row(key.account, key.agentId, now, now, Unsourced, "", "", "", "", "", "", "", "", 0, 0, Recovery("", "", None, 0))
  }

  /** The row after a successful call at this instant; before is blank when the call created it. */
  predicate ColumnsOf(call: Call, before: Row, after: Row, created: bool, now: int) {
    && after.account == before.account && after.agentId == before.agentId && after.createdAt == before.createdAt
    && after.updatedAt == now
    && match call
       case Create(_, _) => created && after == before
       case UpsertFinalized(input) => FinalizedColumns(input, before, after)
       case UpsertRecovered(input) => RecoveredColumns(input, before, after, created)
  }

  /** The agent that a call returns, column by column. */
  predicate Shows(f: CaseMap, agent: Row, row: Row) {
    && agent.account == Normalize(f, row.account) && agent.agentId == Trim(row.agentId)
    && agent.createdAt == row.createdAt && agent.updatedAt == row.updatedAt && agent.source == row.source
    && agent.registrationId == Trim(row.registrationId) && agent.conversationId == Trim(row.conversationId)
    && agent.domain == Trim(row.domain) && agent.localId == Trim(row.localId)
    && agent.authorityModel == Trim(row.authorityModel) && agent.anchorState == Trim(row.anchorState)
    && agent.operationalBinding == Trim(row.operationalBinding) && agent.lifecycleStatus == Trim(row.lifecycleStatus)
    && agent.publishedVersion == row.publishedVersion && agent.selfDescriptionVersion == row.selfDescriptionVersion
    && agent.recovery.classification == Trim(row.recovery.classification)
    && agent.recovery.digest == Trim(row.recovery.digest) && agent.recovery.producedAt == row.recovery.producedAt
    && agent.recovery.versionCount == row.recovery.versionCount
  }

  /** What a validated call is about. */
  ghost predicate PreparedAs(f: CaseMap, call: Call, w: Write) {
    && w.key == KeyOf(f, call) && w.LocalId() == Trim(LocalIdOf(call)) && w.Expected() == TrimmedOption(ExpectedOf(call))
    && (w.Plain? <==> call.Create?)
  }

  lemma PrepareRecovered(f: CaseMap, input: Recovered)
    ensures Prepare(f, UpsertRecovered(input)).Some? <==> Acceptable(f, UpsertRecovered(input))
    ensures Prepare(f, UpsertRecovered(input)).Some? ==>
      PreparedAs(f, UpsertRecovered(input), Prepare(f, UpsertRecovered(input)).value)
  {
    hide Trim, Sha256Name;
  }

  lemma PrepareOther(f: CaseMap, call: Call)
    requires !call.UpsertRecovered?
    ensures Prepare(f, call).Some? <==> Acceptable(f, call)
    ensures Prepare(f, call).Some? ==> PreparedAs(f, call, Prepare(f, call).value)
  {
    hide Trim, Sha256Name;
  }

  lemma PrepareIff(f: CaseMap, call: Call)
    ensures Prepare(f, call).Some? <==> Acceptable(f, call)
    ensures Prepare(f, call).Some? ==>
      var w := Prepare(f, call).value;
      w.key == KeyOf(f, call) && w.LocalId() == Trim(LocalIdOf(call)) && w.Expected() == TrimmedOption(ExpectedOf(call))
      && (w.Plain? <==> call.Create?)
  {
    hide Prepare, Acceptable, KeyOf, Trim;
    if call.UpsertRecovered? {
      PrepareRecovered(f, call.recovered);
    } else {
      PrepareOther(f, call);
    }
  }

  lemma NewFinalized(f: CaseMap, input: Finalized, now: int)
    requires Prepare(f, UpsertFinalized(input)).Some?
    ensures var call := UpsertFinalized(input);
      ColumnsOf(call, Blank(KeyOf(f, call), now), Prepare(f, call).value.NewRow(now), true, now)
  {
    hide Trim, Sha256Name, Normalize;
  }

  lemma NewRecovered(f: CaseMap, input: Recovered, now: int)
    requires Prepare(f, UpsertRecovered(input)).Some?
    ensures var call := UpsertRecovered(input);
      ColumnsOf(call, Blank(KeyOf(f, call), now), Prepare(f, call).value.NewRow(now), true, now)
  {
    hide Trim, Sha256Name, Normalize;
  }

  lemma NewPlain(f: CaseMap, account: string, agentId: string, now: int)
    requires Prepare(f, Create(account, agentId)).Some?
    ensures var call := Create(account, agentId);
      ColumnsOf(call, Blank(KeyOf(f, call), now), Prepare(f, call).value.NewRow(now), true, now)
  {
    hide Trim, Normalize;
  }

  lemma NewColumns(f: CaseMap, call: Call, now: int)
    requires Prepare(f, call).Some?
    ensures ColumnsOf(call, Blank(KeyOf(f, call), now), Prepare(f, call).value.NewRow(now), true, now)
  {
    hide Prepare, ColumnsOf, Blank, KeyOf;
    match call
    case Create(account, agentId) => NewPlain(f, account, agentId, now);
    case UpsertFinalized(input) => NewFinalized(f, input, now);
    case UpsertRecovered(input) => NewRecovered(f, input, now);
  }

  lemma UpdatedFinalized(f: CaseMap, input: Finalized, before: Row, now: int)
    requires Prepare(f, UpsertFinalized(input)).Some?
    ensures ColumnsOf(UpsertFinalized(input), before, Prepare(f, UpsertFinalized(input)).value.Updated(before, now), false, now)
  {
    hide Trim, Sha256Name, Normalize;
  }

  lemma UpdatedRecovered(f: CaseMap, input: Recovered, before: Row, now: int)
    requires Prepare(f, UpsertRecovered(input)).Some?
    ensures ColumnsOf(UpsertRecovered(input), before, Prepare(f, UpsertRecovered(input)).value.Updated(before, now), false, now)
  {
    hide Trim, Sha256Name, Normalize;
  }

  lemma UpdatedColumns(f: CaseMap, call: Call, before: Row, now: int)
    requires Prepare(f, call).Some? && !call.Create?
    ensures ColumnsOf(call, before, Prepare(f, call).value.Updated(before, now), false, now)
  {
    hide Prepare, ColumnsOf;
    if call.UpsertFinalized? {
      UpdatedFinalized(f, call.finalized, before, now);
    } else {
      UpdatedRecovered(f, call.recovered, before, now);
    }
  }

  lemma AgentShows(f: CaseMap, row: Row)
    ensures Shows(f, ToAgent(f, row), row)
  {
    hide Trim, Normalize;
  }

  // ---- the undisturbed call ----

  /** The same but for the case of ASCII letters. */
  predicate SameUsername(a: string, b: string) {
    |a| == |b| && forall i :: 0 <= i < |a| ==> a[i] == b[i] || CaseApart(a[i], b[i]) || CaseApart(b[i], a[i])
  }

  predicate CaseApart(upper: char, lower: char) { 'A' <= upper <= 'Z' && lower as int == upper as int + 32 }

  lemma FoldIff(a: string, b: string)
    ensures Fold(a) == Fold(b) <==> SameUsername(a, b)
  {
    if Fold(a) == Fold(b) {
      forall i | 0 <= i < |a| ensures a[i] == b[i] || CaseApart(a[i], b[i]) || CaseApart(b[i], a[i]) {
        assert Fold(a)[i] == Fold(b)[i];
      }
    }
  }

  /** The local id that the call expects, or may replace. */
  predicate Admitted(call: Call, stored: string) {
    match ExpectedOf(call)
    case Some(expected) => stored == Trim(expected)
    case None => Trim(stored) == stored
                 && (Trim(LocalIdOf(call)) == "" || stored == "" || SameUsername(Trim(LocalIdOf(call)), stored))
  }

  ghost predicate Succeeds(f: CaseMap, rows: map<Key, Row>, call: Call, now: int, after: map<Key, Row>, reply: Reply, created: bool)
    requires created || KeyOf(f, call) in rows
  {
    var key := KeyOf(f, call);
    && key in after && after == rows[key := after[key]]
    && ColumnsOf(call, if created then Blank(key, now) else rows[key], after[key], created, now)
    && reply.Ok? && reply.created == created && Shows(f, reply.agent, after[key])
  }

  /** Which calls succeed, with what, and why the others are refused and change nothing, column by column. */
  ghost predicate Outcome(f: CaseMap, rows: map<Key, Row>, call: Call, now: int, after: map<Key, Row>, reply: Reply) {
    var key := KeyOf(f, call);
    if !Acceptable(f, call) then after == rows && reply == Failed(InvalidInput)
    else if key !in rows then
      if ExpectedOf(call).Some? then after == rows && reply == Failed(LocalIdChanged)
      else Succeeds(f, rows, call, now, after, reply, true)
    else if call.Create? then after == rows && reply == Failed(AlreadyExists)
    else if !Admitted(call, rows[key].localId) then after == rows && reply == Failed(LocalIdChanged)
    else Succeeds(f, rows, call, now, after, reply, false)
  }

  lemma AloneNew(f: CaseMap, rows: map<Key, Row>, call: Call, now: int)
    requires KeyOf(f, call) !in rows
    ensures var (after, reply) := Alone(f, rows, call, now); Outcome(f, rows, call, now, after, reply)
  {
    hide Trim, Normalize, Prepare, ColumnsOf, Shows, Validate, Admitted, ToAgent, Acceptable, Blank, KeyOf, Write.NewRow, Write.Updated;
    PrepareIff(f, call);
    if Prepare(f, call).Some? {
      AgentShows(f, Prepare(f, call).value.NewRow(now));
      NewColumns(f, call, now);
    }
  }

  lemma AloneStored(f: CaseMap, rows: map<Key, Row>, call: Call, now: int)
    requires KeyOf(f, call) in rows
    ensures var (after, reply) := Alone(f, rows, call, now); Outcome(f, rows, call, now, after, reply)
  {
    hide Trim, Normalize, Prepare, ColumnsOf, Shows, Fold, SameUsername, Acceptable, Blank, KeyOf, Write.NewRow, Write.Updated;
    PrepareIff(f, call);
    if Prepare(f, call).Some? {
      var w := Prepare(f, call).value;
      var stored := rows[w.key].localId;
      FoldIff(w.LocalId(), stored);
      TrimTwice(LocalIdOf(call));
      TrimTwice(stored);
      AgentShows(f, w.Updated(rows[w.key], now));
      AgentShows(f, rows[w.key]);
      if !call.Create? {
        UpdatedColumns(f, call, rows[w.key], now);
      }
    }
  }

  /** The sequential call, which the store of one process runs and which an undisturbed run refines. */
  lemma AloneOutcome(f: CaseMap, rows: map<Key, Row>, call: Call, now: int)
    ensures var (after, reply) := Alone(f, rows, call, now); Outcome(f, rows, call, now, after, reply)
  {
    hide Alone, Outcome, KeyOf;
    if KeyOf(f, call) in rows {
      AloneStored(f, rows, call, now);
    } else {
      AloneNew(f, rows, call, now);
    }
  }

  // ---- every run ----

  /** Version i of a row: written by a call for this key, which brought exactly these columns. */
  ghost predicate VersionBrought(f: CaseMap, w: World, key: Key, i: nat)
    requires key in w.table && i < |w.table[key]|
  {
    var c := w.table[key][i].client;
    && c in w.clients && KeyOf(f, w.clients[c].call) == key
    && ColumnsOf(w.clients[c].call, if i == 0 then Blank(key, w.clients[c].now) else w.table[key][i - 1].row,
                 w.table[key][i].row, i == 0, w.clients[c].now)
  }

  /** In every run each version of each row holds what its call brought, over the version before. */
  lemma EveryVersionBrought(f: CaseMap, events: seq<Event>, key: Key, i: nat)
    ensures var w := Run(f, Empty(), events);
      key in w.table && i < |w.table[key]| ==> VersionBrought(f, w, key, i)
  {
    hide Exec, ClientOk, Prepare, ColumnsOf, Trim, Normalize, Blank, Acceptable;
    EmptyInv(f);
    RunInv(f, Empty(), events);
    var w := Run(f, Empty(), events);
    if key in w.table && i < |w.table[key]| {
      assert KeyOk(f, w, key) && VersionOk(f, w.clients, key, w.table[key], i);
      var client := w.clients[w.table[key][i].client];
      PrepareIff(f, client.call);
      if i == 0 {
        NewColumns(f, client.call, client.now);
      } else {
        UpdatedColumns(f, client.call, w.table[key][i - 1].row, client.now);
      }
    }
  }

  /** Client c has written no version. */
  ghost predicate WroteNothing(w: World, c: nat) {
    forall key, i: nat :: key in w.table && i < |w.table[key]| ==> w.table[key][i].client != c
  }

  /** This version was written by client c, and the agent shows it. */
  ghost predicate WroteThis(f: CaseMap, w: World, c: nat, key: Key, i: nat, agent: Row) {
    && key in w.table && i < |w.table[key]| && Shows(f, agent, w.table[key][i].row) && w.table[key][i].client == c
  }

  /** It is the only one that c has written. */
  ghost predicate OnlyThis(w: World, c: nat, key: Key, i: nat) {
    forall k, j: nat :: k in w.table && j < |w.table[k]| && w.table[k][j].client == c ==> k == key && j == i
  }

  ghost predicate Tally(f: CaseMap, w: World, c: nat) {
    c in w.clients ==>
      match w.clients[c].phase
      case Done(Ok(agent, created)) =>
        exists i: nat ::
          var key := KeyOf(f, w.clients[c].call);
          WroteThis(f, w, c, key, i, agent) && OnlyThis(w, c, key, i) && (created <==> i == 0)
      case Done(Failed(error)) => error == StoreError || WroteNothing(w, c)
      case _ => WroteNothing(w, c)
  }

  ghost predicate TallyAt(f: CaseMap, w: World, c: nat) { Tally(f, w, c) && (c !in w.clients ==> WroteNothing(w, c)) }

  /** The table grows by versions of others. */
  lemma TallyGrows(f: CaseMap, w: World, later: World, c: nat)
    requires TallyAt(f, w, c) && (c in w.clients <==> c in later.clients) && (c in w.clients ==> later.clients[c] == w.clients[c])
    requires forall key :: key in w.table ==> key in later.table && w.table[key] <= later.table[key]
    requires forall key, i: nat :: key in later.table && i < |later.table[key]| && later.table[key][i].client == c ==>
      key in w.table && i < |w.table[key]|
    ensures TallyAt(f, later, c)
  {
    hide Shows, KeyOf;
    if c in w.clients && w.clients[c].phase.Done? && w.clients[c].phase.reply.Ok? {
      var key, reply := KeyOf(f, w.clients[c].call), w.clients[c].phase.reply;
      var i: nat :| WroteThis(f, w, c, key, i, reply.agent) && OnlyThis(w, c, key, i) && (reply.created <==> i == 0);
      assert WroteThis(f, later, c, key, i, reply.agent);
      forall k, j: nat | k in later.table && j < |later.table[k]| && later.table[k][j].client == c ensures k == key && j == i {
        assert k in w.table && w.table[k][j] == later.table[k][j];
      }
      assert OnlyThis(later, c, key, i);
    }
  }

  lemma StepTable(f: CaseMap, w: World, c: nat, reported: bool)
    ensures var later := Exec(f, w, Step(c, reported));
      && (forall key :: key in w.table ==> key in later.table && w.table[key] <= later.table[key])
      && (forall key, i: nat :: key in later.table && i < |later.table[key]| && later.table[key][i].client != c ==>
            key in w.table && i < |w.table[key]|)
      && forall d :: d != c ==> (d in later.clients <==> d in w.clients) && (d in w.clients ==> later.clients[d] == w.clients[d])
  {
    hide Committed, Learned, Last;
  }

  /** A version of a call that had written none is its only one. */
  lemma FirstOfOwn(w: World, later: World, c: nat, key: Key, commit: Commit)
    requires WroteNothing(w, c) && later.table == Append(w.table, key, commit)
    ensures OnlyThis(later, c, key, |later.table[key]| - 1)
  {
  }

  lemma OwnCommit(f: CaseMap, w: World, c: nat, reported: bool)
    requires Inv(f, w) && TallyAt(f, w, c) && c in w.clients && !w.clients[c].phase.Done?
    requires Committed(w.clients[c], Last(w.table, w.clients[c].phase.w.key)).Some?
    ensures TallyAt(f, Exec(f, w, Step(c, reported)), c)
  {
    hide Shows, ToAgent, Prepare, Trim, Normalize, Acceptable, KeyOk, Validate, Write.NewRow, Write.Updated;
    var client := w.clients[c];
    var write := client.phase.w;
    assert ClientOk(f, w.table, c, client) && KeyOk(f, w, write.key);
    PrepareIff(f, client.call);
    var row := Committed(client, Last(w.table, write.key)).value;
    var later := Exec(f, w, Step(c, reported));
    AgentShows(f, row);
    var n := |later.table[write.key]| - 1;
    assert later.table[write.key][n] == Commit(c, row);
    CommitsFirst(f, w, c);
    FirstOfOwn(w, later, c, write.key, Commit(c, row));
    hide OnlyThis;
    if reported {
      assert WroteThis(f, later, c, write.key, n, ToAgent(f, row));
    }
  }

  lemma OwnStep(f: CaseMap, w: World, c: nat, reported: bool)
    requires Inv(f, w) && TallyAt(f, w, c) && c in w.clients && !w.clients[c].phase.Done?
    ensures TallyAt(f, Exec(f, w, Step(c, reported)), c)
  {
    hide Shows, ToAgent, Prepare, Trim, Normalize, Inv, Validate, Write.NewRow, Write.Updated, OnlyThis, WroteThis;
    if Committed(w.clients[c], Last(w.table, w.clients[c].phase.w.key)).Some? {
      OwnCommit(f, w, c, reported);
    } else {
      assert Exec(f, w, Step(c, reported)).table == w.table;
    }
  }

  /** A create commits version 0, an update a later one. */
  lemma CommitsFirst(f: CaseMap, w: World, c: nat)
    requires Inv(f, w) && c in w.clients && !w.clients[c].phase.Done?
    ensures var key := w.clients[c].phase.w.key;
      Last(w.table, key).None? <==> key !in w.table
    ensures var key := w.clients[c].phase.w.key; key in w.table ==> |w.table[key]| > 0
  {
    hide ClientOk, VersionOk;
    assert KeyOk(f, w, w.clients[c].phase.w.key);
  }

  lemma ExecTally(f: CaseMap, w: World, e: Event, c: nat)
    requires Inv(f, w) && TallyAt(f, w, c)
    ensures TallyAt(f, Exec(f, w, e), c)
  {
    hide Inv, KeyOf, Committed, Learned, Shows;
    var later := Exec(f, w, e);
    if e.Step? {
      if e.client == c && c in w.clients && !w.clients[c].phase.Done? {
        OwnStep(f, w, c, e.reported);
      } else if e.client != c {
        StepTable(f, w, e.client, e.reported);
        TallyGrows(f, w, later, c);
      }
    } else if e.client != c {
      TallyGrows(f, w, later, c);
    } else {
      OwnQuiet(f, w, e, c);
    }
  }

  lemma OwnQuiet(f: CaseMap, w: World, e: Event, c: nat)
    requires TallyAt(f, w, c) && !e.Step? && e.client == c
    ensures TallyAt(f, Exec(f, w, e), c)
  {
    hide Prepare, KeyOf, Shows;
  }

  lemma {:induction false} RunTally(f: CaseMap, w: World, events: seq<Event>, c: nat)
    requires Inv(f, w) && TallyAt(f, w, c)
    ensures TallyAt(f, Run(f, w, events), c)
    decreases |events|
  {
    hide Inv, Exec, TallyAt;
    if events != [] {
      ExecInv(f, w, events[0]);
      ExecTally(f, w, events[0], c);
      RunTally(f, Exec(f, w, events[0]), events[1..], c);
    }
  }

  /**
   In every run a call that replies Ok has written exactly one version, of the row it names, returns it, and
   says created exactly when it is the first one. A call that fails has written nothing, unless the reply was lost.
   */
  lemma Replies(f: CaseMap, events: seq<Event>, c: nat)
    ensures Tally(f, Run(f, Empty(), events), c)
  {
    hide Exec, Inv, Tally;
    EmptyInv(f);
    EmptyTally(f, c);
    RunTally(f, Empty(), events, c);
  }

  lemma EmptyTally(f: CaseMap, c: nat)
    ensures TallyAt(f, Empty(), c)
  {
  }
}
