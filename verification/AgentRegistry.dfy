/**
 The account-scoped agent registry, internal/agentregistry/store.go: create, or observe the row that is
 already there and update it on condition that its local id has not changed.
 */
module ActorEndpoint {
  import opened Text

  /** asciiLower on values: only ASCII A-Z maps to a-z. */
  function Fold(s: string): string { MapChars(AsciiLower, s) }

  /** asciiLower: rewrites the copied text in place. */
  method AsciiLowerInPlace(a: array<char>)
    modifies a
    ensures a[..] == Fold(old(a[..]))
  {
    ghost var was := a[..];
    for i := 0 to a.Length
      invariant forall k :: 0 <= k < i ==> a[k] == AsciiLower(was[k])
      invariant forall k :: i <= k < a.Length ==> a[k] == was[k]
    {
      if IsUpper(a[i]) {
        a[i] := a[i] + ('a' - 'A');
      }
    }
  }

  /** Validate: both identifiers are present and fold to the same username. */
  predicate Validate(projected: string, authoritative: string) {
    Trim(projected) != "" && Trim(authoritative) != "" && Fold(Trim(projected)) == Fold(Trim(authoritative))
  }
}

module AgentRegistry {
  import opened Wrappers
  import opened Text
  import opened ActorEndpoint

  /** Who wrote a row last: the source columns are one of three constant triples. */
  datatype Source = Unsourced | GenesisFinalize | SelfRecovery

  datatype Recovery = Recovery(classification: string, digest: string, producedAt: Option<int>, versionCount: int)

  /** A registry row. Absent text columns are blank. */
  datatype Row = Row(
    account: string, agentId: string, createdAt: int, updatedAt: int, source: Source,
    registrationId: string, conversationId: string, domain: string, localId: string,
    authorityModel: string, anchorState: string, operationalBinding: string, lifecycleStatus: string,
    publishedVersion: int, selfDescriptionVersion: int, recovery: Recovery)

  datatype Key = Key(account: string, agentId: string)

  datatype Finalized = Finalized(
    account: string, agentId: string, registrationId: string, conversationId: string, domain: string, localId: string,
    authorityModel: string, anchorState: string, operationalBinding: string, lifecycleStatus: string,
    publishedVersion: int, selfDescriptionVersion: int, expected: Option<string>)

  datatype Recovered = Recovered(
    account: string, agentId: string, registrationId: string, conversationId: string, domain: string, localId: string,
    lifecycleStatus: string, publishedVersion: int, selfDescriptionVersion: int, recovery: Recovery,
    expected: Option<string>)

  datatype Call =
    | Create(account: string, agentId: string)
    | UpsertFinalized(finalized: Finalized)
    | UpsertRecovered(recovered: Recovered)

  datatype Error = InvalidInput | AlreadyExists | NotFound | LocalIdChanged | StoreError

  datatype Reply = Ok(agent: Row, created: bool) | Failed(error: Error)

  // ---- validation ----

  function AtLeastZero(n: int): int { if n < 0 then 0 else n }

  function TrimmedOption(s: Option<string>): Option<string> { if s.Some? then Some(Trim(s.value)) else None }

  /** validateFinalizedInput. */
  function ValidFinalized(f: CaseMap, input: Finalized): Option<Finalized> {
    var account, agentId := Normalize(f, input.account), Trim(input.agentId);
    if account == "" || agentId == "" then None
    else Some(Finalized(
      account, agentId, Trim(input.registrationId), Trim(input.conversationId), Trim(input.domain), Trim(input.localId),
      Trim(input.authorityModel), Trim(input.anchorState), Trim(input.operationalBinding), Trim(input.lifecycleStatus),
      AtLeastZero(input.publishedVersion), AtLeastZero(input.selfDescriptionVersion), TrimmedOption(input.expected)))
  }

  function ValidRecovered(f: CaseMap, input: Recovered): Option<Recovered> {
    var v := Recovered(
      Normalize(f, input.account), Trim(input.agentId), Trim(input.registrationId), Trim(input.conversationId),
      Trim(input.domain), Trim(input.localId), Trim(input.lifecycleStatus), input.publishedVersion,
      input.selfDescriptionVersion,
      Recovery(Trim(input.recovery.classification), Trim(input.recovery.digest), input.recovery.producedAt, input.recovery.versionCount),
      TrimmedOption(input.expected));
    if v.account == "" || v.agentId == "" || v.registrationId == "" || v.conversationId == "" || v.domain == ""
       || v.localId == "" || v.lifecycleStatus == "" || v.selfDescriptionVersion < 1
       || v.recovery.classification !in {"published_artifact_verified", "legacy_declarations_only"}
       || !Sha256Name(v.recovery.digest) || v.recovery.producedAt.None? || v.recovery.versionCount < 0
    then None else Some(v)
  }

  // ---- a call, validated: what it creates and how it changes an existing row ----

  function NoRecovery(): Recovery { Recovery("", "", None, 0) }

  datatype Write =
    | Plain(key: Key)
    | Finalize(key: Key, f: Finalized)
    | Recover(key: Key, r: Recovered)
  {
    function LocalId(): string {
      match this
      case Plain(_) => ""
      case Finalize(_, f) => f.localId
      case Recover(_, r) => r.localId
    }

    function Expected(): Option<string> {
      match this
      case Plain(_) => None
      case Finalize(_, f) => f.expected
      case Recover(_, r) => r.expected
    }

    /** The row of a conditional create. */
    function NewRow(now: int): Row {
      var blank := Row(key.account, key.agentId, now, now, Unsourced, "", "", "", "", "", "", "", "", 0, 0, NoRecovery());
      match this
      case Plain(_) => blank
      case Finalize(_, f) =>
        blank.(source := GenesisFinalize, registrationId := f.registrationId, conversationId := f.conversationId,
               domain := f.domain, localId := f.localId, authorityModel := f.authorityModel, anchorState := f.anchorState,
               operationalBinding := f.operationalBinding, lifecycleStatus := f.lifecycleStatus,
               publishedVersion := f.publishedVersion, selfDescriptionVersion := f.selfDescriptionVersion)
      case Recover(_, r) =>
        blank.(source := SelfRecovery, registrationId := r.registrationId, conversationId := r.conversationId,
               domain := r.domain, localId := r.localId, lifecycleStatus := r.lifecycleStatus,
               publishedVersion := r.publishedVersion, selfDescriptionVersion := r.selfDescriptionVersion,
               recovery := r.recovery)
    }

    /** The update builder: only the columns that were set change. */
    function Updated(row: Row, now: int): Row {
      match this
      case Plain(_) => row
      case Finalize(_, f) =>
        row.(updatedAt := now, source := GenesisFinalize,
             registrationId := Over(f.registrationId, row.registrationId),
             conversationId := Over(f.conversationId, row.conversationId),
             domain := Over(f.domain, row.domain), localId := Over(f.localId, row.localId),
             authorityModel := Over(f.authorityModel, row.authorityModel),
             anchorState := Over(f.anchorState, row.anchorState),
             operationalBinding := Over(f.operationalBinding, row.operationalBinding),
             lifecycleStatus := Over(f.lifecycleStatus, row.lifecycleStatus),
             publishedVersion := OverNumber(f.publishedVersion, row.publishedVersion),
             selfDescriptionVersion := OverNumber(f.selfDescriptionVersion, row.selfDescriptionVersion))
      case Recover(_, r) =>
        row.(updatedAt := now, source := SelfRecovery, registrationId := r.registrationId,
             conversationId := r.conversationId, domain := r.domain, localId := r.localId,
             lifecycleStatus := r.lifecycleStatus, selfDescriptionVersion := r.selfDescriptionVersion,
             recovery := r.recovery, publishedVersion := OverNumber(r.publishedVersion, row.publishedVersion))
    }
  }

  function Over(value: string, old_: string): string { if value != "" then value else old_ }

  function OverNumber(value: int, old_: int): int { if value > 0 then value else old_ }

  function Prepare(f: CaseMap, call: Call): Option<Write> {
    match call
    case Create(account, agentId) =>
      var key := Key(Normalize(f, account), Trim(agentId));
      if key.account == "" || key.agentId == "" then None else Some(Plain(key))
    case UpsertFinalized(input) =>
      var v :- ValidFinalized(f, input);
      Some(Finalize(Key(v.account, v.agentId), v))
    case UpsertRecovered(input) =>
      var v :- ValidRecovered(f, input);
      Some(Recover(Key(v.account, v.agentId), v))
  }

  /**
   Creating a row and updating a blank one leave the same columns, except for a recovery with a negative
   published version: the create stores it, the update ignores it.
   */
  lemma CreateAgreesWithUpdate(w: Write, created: int, now: int)
    requires !w.Plain?
    requires w.Finalize? ==> w.f.publishedVersion >= 0 && w.f.selfDescriptionVersion >= 0
    ensures w.Updated(Plain(w.key).NewRow(created), now) == w.NewRow(now).(createdAt := created)
            <==> (w.Recover? ==> w.r.publishedVersion >= 0)
  {
    var updated, new_ := w.Updated(Plain(w.key).NewRow(created), now), w.NewRow(now).(createdAt := created);
    assert w.Recover? && w.r.publishedVersion < 0 ==> updated.publishedVersion != new_.publishedVersion;
  }

  /** Validation accepts negative published versions in a recovery, and passes them on as they are. */
  lemma NegativeAccepted(f: CaseMap, input: Recovered, version: int, created: int, now: int)
    requires ValidRecovered(f, input).Some? && version < 0
    ensures var call := UpsertRecovered(input.(publishedVersion := version));
      && Prepare(f, call).Some?
      && var w := Prepare(f, call).value;
        && w.NewRow(now).publishedVersion == version
        && w.Updated(Plain(w.key).NewRow(created), now).publishedVersion == 0
  {
    hide Trim, Normalize, Sha256Name;
  }

  /** An update never touches identity, creation time or, when it brings none, the local id. */
  lemma UpdateKeeps(w: Write, row: Row, now: int)
    requires w.Recover? ==> w.r.localId != ""
    ensures var next := w.Updated(row, now);
      && next.account == row.account && next.agentId == row.agentId && next.createdAt == row.createdAt
      && next.localId == Over(w.LocalId(), row.localId)
  {
  }

  /** toAgent. */
  function ToAgent(f: CaseMap, row: Row): Row {
    row.(account := Normalize(f, row.account), agentId := Trim(row.agentId),
         registrationId := Trim(row.registrationId), conversationId := Trim(row.conversationId),
         domain := Trim(row.domain), localId := Trim(row.localId), authorityModel := Trim(row.authorityModel),
         anchorState := Trim(row.anchorState), operationalBinding := Trim(row.operationalBinding),
         lifecycleStatus := Trim(row.lifecycleStatus),
         recovery := row.recovery.(classification := Trim(row.recovery.classification), digest := Trim(row.recovery.digest)))
  }
}
