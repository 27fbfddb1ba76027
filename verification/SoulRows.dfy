/**
 One agent_soul record and its history: the rows, the transactions and the sequential meaning of the
 lifecycle writes of internal/agentcontent/store.go.
 */
module SoulRows {
  import opened Wrappers
  import opened ContentKeys
  import opened Json
  import opened SoulDocument
  import opened Text

  /**
   One account-scoped record: its normalized agent id, and the codec, validators and comparison of its
   documents. The proofs below use of these functions only what Lawful says.
   */
  datatype Scope = Scope(
    agentId: string, encode: Document -> Json, decode: Json -> Option<Document>,
    acceptsDraft: Document -> bool, acceptsRecord: Document -> bool, same: (Document, Document) -> bool)

  /** The scope of the source, for one agent id. */
  function SoulScope(limits: Limits, agentId: string): Scope {
    Scope(agentId, Encode, Decode,
          d => ValidDraft(limits, d, agentId), d => ValidRecord(limits, d, agentId), SameAuthoring)
  }

  /** An accepted stored document carries all server fields and decodes from its encoding. */
  ghost predicate LawfulAt(scope: Scope, d: Document) {
    && (scope.acceptsRecord(d) ==> ServerFieldsStamped(d) && scope.decode(scope.encode(d)) == Some(d))
    && (scope.acceptsDraft(d) ==> d.schema in {NoSchema, SoulDocumentV2})
  }

  ghost predicate SameLaw(scope: Scope, d: Document, e: Document) {
    scope.same(d, e) <==> AuthoringView(d) == AuthoringView(e)
  }

  ghost predicate Lawful(scope: Scope) {
    (forall d :: LawfulAt(scope, d)) && (forall d, e :: SameLaw(scope, d, e))
  }

  lemma SoulScopeLawful(limits: Limits, agentId: string)
    ensures Lawful(SoulScope(limits, agentId))
  {
    var scope := SoulScope(limits, agentId);
    forall d ensures LawfulAt(scope, d) {
      if scope.acceptsRecord(d) {
        ValidRoundTrip(limits, d, agentId);
      }
    }
    forall d, e ensures SameLaw(scope, d, e) {
      SameAuthoringIff(d, e);
    }
  }

  /** The columns of a contentRecord; document is None when the DocumentJSON column is blank. */
  datatype Row = Row(
    content: string, document: Option<Json>, soulVersion: int, version: int, state: State,
    createdAt: int, updatedAt: int, updatedBy: string)

  datatype Record = Record(
    content: string, version: int, soulVersion: int, state: State,
    createdAt: int, updatedAt: int, updatedBy: string, document: Document)

  predicate IsLegacy(row: Row) { row.document.None? }

  function EffectiveSoulVersion(row: Row): int {
    if row.soulVersion < 1 then row.version else row.soulVersion
  }

  function LegacyDocument(scope: Scope, row: Row): Document {
    Stamp(Document(SoulDocumentV2, scope.agentId, row.content, None, 0, None, "", None, None, 0, None, None),
          row.state, EffectiveSoulVersion(row), row.version, Trim(row.updatedBy), row.createdAt, row.updatedAt)
  }

  /** The columns and the embedded document agree. */
  predicate Projects(row: Row, d: Document) {
    && d.body == row.content && d.soulVersion == EffectiveSoulVersion(row) && d.version == row.version
    && d.state == Some(row.state) && d.updatedBy == Trim(row.updatedBy)
    && d.createdAt == Some(row.createdAt) && d.updatedAt == Some(row.updatedAt)
  }

  function DocumentOf(scope: Scope, row: Row): Option<Document> {
    if IsLegacy(row) then Some(LegacyDocument(scope, row)) else scope.decode(row.document.value)
  }

  /** contentRecord.toRecord for an agent_soul row; None is its error. */
  function ToRecord(scope: Scope, row: Row): (r: Option<Record>) {
    var d :- DocumentOf(scope, row);
    if scope.acceptsRecord(d) && Projects(row, d) then
      Some(Record(row.content, row.version, d.soulVersion, row.state, row.createdAt, row.updatedAt, Trim(row.updatedBy), d))
    else None
  }

  // ---- lifecycle writes ----

  /** Author replaces or creates a draft; Transition publishes a draft or archives a published version. */
  datatype Op = Author(doc: Document, subject: string, now: int) | Transition(to: State, subject: string, now: int)

  function From(to: State): State { if to == Published then Draft else Published }

  function AuthoredDocument(op: Op, source: Option<Row>): Document
    requires op.Author?
  {
    var soulVersion := if source.None? then 1 else EffectiveSoulVersion(source.value) + 1;
    var version := if source.None? then 1 else source.value.version + 1;
    Stamp(op.doc, Draft, soulVersion, version, op.subject, op.now, op.now)
  }

  function TransitionedDocument(op: Op, row: Row, record: Record): Document
    requires op.Transition?
  {
    Stamp(record.document, op.to, record.soulVersion, row.version + 1, record.updatedBy, row.createdAt, row.updatedAt)
  }

  function AuthoredRow(scope: Scope, op: Op, d: Document): Row
    requires op.Author?
  {
    Row(d.body, Some(scope.encode(d)), d.soulVersion, d.version, Draft, op.now, op.now, op.subject)
  }

  function TransitionedRow(scope: Scope, op: Op, row: Row, d: Document): Row
    requires op.Transition?
  {
    row.(document := Some(scope.encode(d)), version := row.version + 1, state := op.to)
  }

  /** The row a write commits when it is applied to source, or None when the write is refused. */
  function NextRow(scope: Scope, op: Op, source: Option<Row>): (r: Option<Row>) {
    if op.Author? then
      var d := AuthoredDocument(op, source);
      if (source.Some? ==> ToRecord(scope, source.value).Some?) && scope.acceptsRecord(d)
      then Some(AuthoredRow(scope, op, d)) else None
    else if source.None? || IsLegacy(source.value) || source.value.state != From(op.to) || op.to == Draft then None
    else
      var record :- ToRecord(scope, source.value);
      var d := TransitionedDocument(op, source.value, record);
      if scope.acceptsRecord(d) then Some(TransitionedRow(scope, op, source.value, d)) else None
  }

  // ---- the table: one current row and the history rows beside it ----

  datatype HistoryId = HistoryId(soulVersion: int, state: State)
  datatype Action = UpsertAction | PublishAction | ArchiveAction
  datatype HistoryRow = HistoryRow(row: Row, action: Action, actionAt: int, actionBy: string)
  datatype Table = Table(current: Option<Row>, history: map<HistoryId, HistoryRow>)

  function IdOf(row: Row): HistoryId { HistoryId(row.soulVersion, row.state) }

  function ActionOf(op: Op): Action {
    if op.Author? then UpsertAction else if op.to == Published then PublishAction else ArchiveAction
  }

  function HistoryFor(op: Op, row: Row): HistoryRow { HistoryRow(row, ActionOf(op), op.now, Trim(op.subject)) }

  /** The attribute updates of an UpdateWithBuilder; each one also adds one to Version. */
  datatype Patch =
    | AuthorPatch(content: string, document: Json, soulVersion: int, now: int, subject: string)
    | StatePatch(document: Json, state: State)

  function ApplyPatch(row: Row, patch: Patch): Row {
    match patch
    case AuthorPatch(content, document, soulVersion, now, subject) =>
      Row(content, Some(document), soulVersion, row.version + 1, Draft, now, now, subject)
    case StatePatch(document, state) =>
      row.(document := Some(document), state := state, version := row.version + 1)
  }

  datatype Tx =
    | CreateTx(row: Row, id: HistoryId, history: HistoryRow)
    | UpdateTx(expected: int, patch: Patch, id: HistoryId, history: HistoryRow)

  /** The two-item transaction a client sends, built from the row it loaded and never from the stored one. */
  function BuildTx(scope: Scope, op: Op, source: Option<Row>): Tx
    requires NextRow(scope, op, source).Some?
  {
    var next := NextRow(scope, op, source).value;
    if source.None? then CreateTx(next, IdOf(next), HistoryFor(op, next))
    else
      var patch := if op.Author?
        then AuthorPatch(next.content, next.document.value, next.soulVersion, op.now, op.subject)
        else StatePatch(next.document.value, op.to);
      UpdateTx(source.value.version, patch, IdOf(next), HistoryFor(op, next))
  }

  /** TransactWrite: both items or neither. A create fails when its key exists, an update when the version moved. */
  function Commit(t: Table, tx: Tx): (r: Option<Table>) {
    if tx.id in t.history then None
    else
      match tx
      case CreateTx(row, id, history) =>
        if t.current.None? then Some(Table(Some(row), t.history[id := history])) else None
      case UpdateTx(expected, patch, id, history) =>
        if t.current.Some? && t.current.value.version == expected
        then Some(Table(Some(ApplyPatch(t.current.value, patch)), t.history[id := history])) else None
  }

  // ---- what every committed row satisfies ----

  /** A row the store wrote, or a legacy row that loads. */
  ghost predicate Sound(scope: Scope, row: Row) {
    && ToRecord(scope, row).Some? && row.version >= 1
    && (!IsLegacy(row) ==> row.soulVersion >= 1)
  }

  /** Three per soul version, plus the position in its lifecycle: strictly increasing along commits. */
  function Rank(row: Row): int { 3 * EffectiveSoulVersion(row) + row.state.Rank() }

  lemma RecordProjects(scope: Scope, row: Row)
    requires Lawful(scope)
    requires ToRecord(scope, row).Some?
    ensures var d := ToRecord(scope, row).value.document;
      Projects(row, d) && ServerFieldsStamped(d) && d.schema == SoulDocumentV2
      && DocumentOf(scope, row) == Some(d) && ToRecord(scope, row).value.soulVersion == EffectiveSoulVersion(row)
  {
    assert LawfulAt(scope, DocumentOf(scope, row).value);
  }

  /** A stamped valid document, stored with columns it projects to, loads back. */
  lemma StoredLoads(scope: Scope, row: Row, d: Document)
    requires Lawful(scope)
    requires row.document == Some(scope.encode(d)) && scope.acceptsRecord(d) && Projects(row, d)
    ensures ToRecord(scope, row).Some? && ToRecord(scope, row).value.document == d
  {
    assert LawfulAt(scope, d);
  }

  lemma AuthoredLoads(scope: Scope, op: Op, source: Option<Row>)
    requires Lawful(scope)
    requires op.Author? && NextRow(scope, op, source).Some?
    requires source.Some? ==> Sound(scope, source.value)
    ensures var next := NextRow(scope, op, source).value;
      && Sound(scope, next) && !IsLegacy(next) && next.state == Draft
      && next.version == (if source.None? then 1 else source.value.version + 1)
      && next.soulVersion == (if source.None? then 1 else EffectiveSoulVersion(source.value) + 1)
      && ToRecord(scope, next).value.document == AuthoredDocument(op, source)
  {
    var d := AuthoredDocument(op, source);
    assert LawfulAt(scope, d);
    StoredLoads(scope, AuthoredRow(scope, op, d), d);
  }

  lemma TransitionedLoads(scope: Scope, op: Op, source: Row)
    requires Lawful(scope)
    requires op.Transition? && NextRow(scope, op, Some(source)).Some? && Sound(scope, source)
    ensures var next := NextRow(scope, op, Some(source)).value;
      && Sound(scope, next) && !IsLegacy(next) && next.state == op.to && source.state == From(op.to)
      && !IsLegacy(source)
      && next.version == source.version + 1 && next.soulVersion == source.soulVersion
      && next.content == source.content && next.updatedBy == source.updatedBy
      && next.createdAt == source.createdAt && next.updatedAt == source.updatedAt
      && ToRecord(scope, next).value.document
         == TransitionedDocument(op, source, ToRecord(scope, source).value)
  {
    RecordProjects(scope, source);
    var record := ToRecord(scope, source).value;
    var d := TransitionedDocument(op, source, record);
    var next := TransitionedRow(scope, op, source, d);
    assert NextRow(scope, op, Some(source)) == Some(next) && scope.acceptsRecord(d);
    assert d.updatedBy == Trim(record.updatedBy) == Trim(source.updatedBy);
    assert Projects(next, d);
    StoredLoads(scope, next, d);
  }

  /** Every committed row loads, has the next record version, and ranks above its source. */
  lemma NextRowSound(scope: Scope, op: Op, source: Option<Row>)
    requires Lawful(scope)
    requires NextRow(scope, op, source).Some?
    requires source.Some? ==> Sound(scope, source.value)
    ensures var next := NextRow(scope, op, source).value;
      && Sound(scope, next) && !IsLegacy(next)
      && next.version == (if source.None? then 1 else source.value.version + 1)
      && (source.Some? ==> Rank(source.value) < Rank(next))
  {
    if op.Author? {
      AuthoredLoads(scope, op, source);
    } else {
      TransitionedLoads(scope, op, source.value);
    }
  }

  /** Publishing and archiving keep the soul version and everything the author wrote. */
  lemma TransitionKeepsAuthoring(scope: Scope, op: Op, source: Row)
    requires Lawful(scope)
    requires op.Transition? && NextRow(scope, op, Some(source)).Some? && Sound(scope, source)
    ensures var next := NextRow(scope, op, Some(source)).value;
      && ToRecord(scope, next).Some? && next.soulVersion == source.soulVersion && next.content == source.content
      && scope.same(ToRecord(scope, next).value.document, ToRecord(scope, source).value.document)
  {
    TransitionedLoads(scope, op, source);
    RecordProjects(scope, source);
    var record := ToRecord(scope, source).value;
    StampKeepsAuthoring(record.document, op.to, record.soulVersion, source.version + 1, record.updatedBy,
                        source.createdAt, source.updatedAt);
    assert SameLaw(scope, TransitionedDocument(op, source, record), record.document);
  }

  /** A transaction built from the stored row commits exactly the specified row, when its history key is free. */
  lemma CommitFromCurrent(scope: Scope, op: Op, t: Table)
    requires NextRow(scope, op, t.current).Some?
    ensures var next := NextRow(scope, op, t.current).value;
      Commit(t, BuildTx(scope, op, t.current))
      == if IdOf(next) in t.history then None
         else Some(Table(Some(next), t.history[IdOf(next) := HistoryFor(op, next)]))
  {
  }
}
