/**
 What one soul call does when nobody disturbs it: the commit it makes, the row and history row it leaves, and
 its reply, said on documents, rows and columns alone. It may start from any reachable state of the record.
 */
module SoulAlone {
  import opened Wrappers
  import opened ContentKeys
  import opened Json
  import opened SoulDocument
  import opened SoulRows
  import opened SoulClients
  import opened SoulWorld
  import opened SoulHistory
  import opened SoulSeeds
  import opened Text

  // ---- documents, rows and records ----

  /** A new draft of what the author wrote, with these versions. */
  function NewDraft(doc: Document, subject: string, now: int, soulVersion: int, version: int): Document {
    doc.(schema := SoulDocumentV2, soulVersion := soulVersion, state := Some(Draft), updatedBy := Trim(subject),
         createdAt := Some(now), updatedAt := Some(now), version := version)
  }

  /** The versions that follow this row; a row from before soul versions counts by its record version. */
  function NextSoulVersion(row: Option<Row>): int {
    match row
    case None => 1
    case Some(r) => (if r.soulVersion < 1 then r.version else r.soulVersion) + 1
  }

  function NextVersion(row: Option<Row>): int {
    match row
    case None => 1
    case Some(r) => r.version + 1
  }

  /** The same document in the next record version and another state. */
  function Moved(d: Document, to: State): Document { d.(state := Some(to), version := d.version + 1) }

  /** The row stores this document, and its columns say the same. */
  ghost predicate Stores(scope: Scope, row: Row, d: Document) {
    && row.document == Some(scope.encode(d)) && row.content == d.body && row.soulVersion == d.soulVersion
    && row.version == d.version && Some(row.state) == d.state && Some(row.createdAt) == d.createdAt
    && Some(row.updatedAt) == d.updatedAt && Trim(row.updatedBy) == d.updatedBy
  }

  /** The record returned for this document. */
  ghost predicate Shows(record: Record, d: Document) {
    && record.document == d && record.content == d.body && record.version == d.version && record.soulVersion == d.soulVersion
    && Some(record.state) == d.state && Some(record.createdAt) == d.createdAt && Some(record.updatedAt) == d.updatedAt
    && record.updatedBy == d.updatedBy
  }

  /** The document of a stored row; a row without one is read as a bare document of its content. */
  function Loaded(scope: Scope, row: Row): Option<Document> {
    match row.document
    case Some(j) => scope.decode(j)
    case None =>
      Some(Document(SoulDocumentV2, scope.agentId, row.content, None, if row.soulVersion < 1 then row.version else row.soulVersion,
                    Some(row.state), Trim(row.updatedBy), Some(row.createdAt), Some(row.updatedAt), row.version, None, None))
  }

  /** The author wrote the same. */
  predicate SameContent(d: Document, e: Document) {
    && d.agentId == e.agentId && d.body == e.body && d.summary == e.summary
    && d.structure == e.structure && d.provenance == e.provenance
    && (if d.schema == NoSchema then SoulDocumentV2 else d.schema) == (if e.schema == NoSchema then SoulDocumentV2 else e.schema)
  }

  lemma SameIff(scope: Scope, d: Document, e: Document)
    requires Lawful(scope)
    ensures scope.same(d, e) <==> SameContent(d, e)
  {
    assert SameLaw(scope, d, e);
    assert AuthoringView(d) == AuthoringView(e) <==> SameContent(d, e);
  }

  // ---- what a call leaves behind ----

  /** It wrote nothing and gave this reply. */
  ghost predicate Quiet(w: World, last: World, c: nat, reply: Reply) {
    last.log == w.log && last.table == w.table && c in last.clients && last.clients[c].phase == Done(reply)
  }

  ghost predicate Refuses(w: World, last: World, c: nat, error: Error) { Quiet(w, last, c, Failed(error)) }

  /** It made one commit, which stores this document and one history row of it. */
  ghost predicate CommitsOnce(scope: Scope, w: World, last: World, c: nat, d: Document, action: Action, at: int, by_: string) {
    && |last.log| == |w.log| + 1 && last.log[..|w.log|] == w.log && last.log[|w.log|].client == c
    && last.table.current.Some? && Stores(scope, last.table.current.value, d) && d.state.Some?
    && last.table.history == w.table.history[HistoryId(d.soulVersion, d.state.value) :=
                                               HistoryRow(last.table.current.value, action, at, by_)]
  }

  ghost predicate RepliesWith(last: World, c: nat, d: Document, created: bool) {
    && c in last.clients && last.clients[c].phase.Done? && last.clients[c].phase.reply.Ok?
    && last.clients[c].phase.reply.created == created && Shows(last.clients[c].phase.reply.record, d)
  }

  // ---- rows and the writes of the model ----

  lemma LoadedIs(scope: Scope, row: Row)
    requires Lawful(scope) && ToRecord(scope, row).Some?
    ensures Loaded(scope, row).Some? && Shows(ToRecord(scope, row).value, Loaded(scope, row).value)
    ensures scope.acceptsRecord(Loaded(scope, row).value)
    ensures !IsLegacy(row) ==> Loaded(scope, row).value.schema == SoulDocumentV2
  {
    hide Trim;
    RecordProjects(scope, row);
  }

  lemma StoredShows(scope: Scope, row: Row, d: Document)
    requires Lawful(scope) && ToRecord(scope, row).Some? && Stores(scope, row, d) && scope.acceptsRecord(d) && row.soulVersion >= 1
    ensures Shows(ToRecord(scope, row).value, d)
  {
    hide Trim;
    assert LawfulAt(scope, d);
  }

  lemma AuthoredIff(scope: Scope, doc: Document, subject: string, now: int, source: Option<Row>)
    requires Lawful(scope) && (source.Some? ==> Sound(scope, source.value))
    ensures var d := NewDraft(doc, subject, now, NextSoulVersion(source), NextVersion(source));
      var next := NextRow(scope, Author(doc, Trim(subject), now), source);
      && (next.Some? <==> scope.acceptsRecord(d))
      && (next.Some? ==>
            && Stores(scope, next.value, d) && ToRecord(scope, next.value).Some? && Shows(ToRecord(scope, next.value).value, d)
            && IdOf(next.value) == HistoryId(d.soulVersion, Draft))
  {
    hide Trim, ToRecord, ServerFieldsStamped;
    TrimTwice(subject);
    var op := Author(doc, Trim(subject), now);
    var d := NewDraft(doc, subject, now, NextSoulVersion(source), NextVersion(source));
    assert AuthoredDocument(op, source) == d;
    if NextRow(scope, op, source).Some? {
      AuthoredLoads(scope, op, source);
      StoredShows(scope, NextRow(scope, op, source).value, d);
    }
  }

  lemma MovedIff(scope: Scope, op: Op, source: Row)
    requires Lawful(scope) && Sound(scope, source) && !IsLegacy(source) && op.Transition?
    requires (op.to == Published && source.state == Draft) || (op.to == Archived && source.state == Published)
    ensures Loaded(scope, source).Some?
    ensures var d := Moved(Loaded(scope, source).value, op.to);
      var next := NextRow(scope, op, Some(source));
      && (next.Some? <==> scope.acceptsRecord(d))
      && (next.Some? ==>
            && Stores(scope, next.value, d) && ToRecord(scope, next.value).Some? && Shows(ToRecord(scope, next.value).value, d)
            && IdOf(next.value) == HistoryId(d.soulVersion, op.to))
  {
    hide Trim, ToRecord, ServerFieldsStamped;
    LoadedIs(scope, source);
    RecordProjects(scope, source);
    RecordTrims(scope, source);
    var record := ToRecord(scope, source).value;
    var d := Moved(Loaded(scope, source).value, op.to);
    assert TransitionedDocument(op, source, record) == d;
    if NextRow(scope, op, Some(source)).Some? {
      TransitionedLoads(scope, op, source);
      StoredShows(scope, NextRow(scope, op, Some(source)).value, d);
    }
  }

  lemma RecordTrims(scope: Scope, row: Row)
    requires ToRecord(scope, row).Some?
    ensures var record := ToRecord(scope, row).value;
      record.updatedBy == Trim(row.updatedBy) && Trim(record.updatedBy) == record.updatedBy && record.version == row.version
  {
    TrimTwice(row.updatedBy);
  }

  // ---- running one call ----

  /** Client c makes this call and finishes it before anybody else acts; clock gives the times it reads. */
  ghost function After(scope: Scope, w: World, c: nat, call: Call, clock: nat -> int, fuel: nat): (last: World)
    requires Inv(scope, w) && c !in w.clients
  {
    Begins(scope, w, c, call);
    Drive(scope, Exec(scope, w, Invoke(c, call)), c, clock, fuel)
  }

  lemma Begins(scope: Scope, w: World, c: nat, call: Call)
    requires Inv(scope, w) && c !in w.clients
    ensures ClientsOk(scope, w)
    ensures var later := Exec(scope, w, Invoke(c, call));
      && Inv(scope, later) && Alone(scope, later, c, call, Start(scope, call))
      && later.log == w.log && later.table == w.table && later.base == w.base
  {
    hide NextRow, Chain, HistoryOf, EntryOf, ClientOk, Start;
    ExecInv(scope, w, Invoke(c, call));
  }

  /** A call that is refused before it reads anything. */
  lemma StartRefuses(scope: Scope, w: World, c: nat, call: Call, clock: nat -> int, fuel: nat)
    requires Inv(scope, w) && c !in w.clients && Start(scope, call).Done?
    ensures Quiet(w, After(scope, w, c, call, clock, fuel), c, Start(scope, call).reply)
  {
    hide Inv, Exec, Start;
    Begins(scope, w, c, call);
    DriveEnds(scope, Exec(scope, w, Invoke(c, call)), c, clock, fuel);
  }

  lemma CurrentLoads(scope: Scope, w: World)
    requires Inv(scope, w)
    ensures Lawful(scope) && (w.table.current.Some? ==>
      Sound(scope, w.table.current.value) && ToRecord(scope, w.table.current.value).Some?)
  {
    hide Sound, ToRecord, Inv;
    InvLawful(scope, w);
    if w.table.current.Some? {
      CurrentSound(scope, w);
    }
  }

  /** One commit of client c by the write it is in, seen from the table. */
  lemma CommitLeaves(scope: Scope, w: World, later: World, c: nat, op: Op, row: Row)
    requires Inv(scope, w) && Inv(scope, later) && NextRow(scope, op, w.table.current) == Some(row)
    requires later.log == w.log + [Entry(c, op, w.table.current, row)] && later.table.current == Some(row)
    ensures later.table.history == w.table.history[IdOf(row) := HistoryFor(op, row)]
  {
    hide NextRow, Chain, ClientOk, EntryOf, IdOf, HistoryFor;
    HistoryAppend(w.log, Entry(c, op, w.table.current, row));
  }

  /** From a write whose source is the stored row: commit, read back, reply. */
  lemma WriteEnds(scope: Scope, w: World, c: nat, call: Call, phase: Phase, row: Row, clock: nat -> int, fuel: nat)
    returns (last: World)
    requires Alone(scope, w, c, call, phase) && phase.Write? && phase.source == w.table.current && fuel >= 2
    requires Fits(call, phase.frame)
    requires NextRow(scope, phase.op, w.table.current) == Some(row) && ToRecord(scope, row).Some?
    requires phase.frame.Upserting? || phase.frame.Transitioning? || phase.frame == SeedingDraft(true)
    ensures last == Drive(scope, w, c, clock, fuel) && Inv(scope, last)
    ensures last.log == w.log + [Entry(c, phase.op, phase.source, row)] && last.table.current == Some(row)
    ensures last.table.history == w.table.history[IdOf(row) := HistoryFor(phase.op, row)]
    ensures c in last.clients && last.clients[c].phase == Done(Ok(ToRecord(scope, row).value, Created(phase.frame)))
  {
    hide NextRow, Next, Inv, ToRecord, Exec, Drive, IdOf, HistoryFor;
    var w1, reread, next := DriveCommit(scope, w, c, call, phase, clock, fuel);
    NextOnCommit(scope, call, phase);
    ReadsBack(scope, call, phase.frame, phase.attempt, row, clock(fuel - 1));
    var w2, done := DriveRead(scope, w1, c, call, reread, clock, fuel - 1);
    DriveEnds(scope, w2, c, clock, fuel - 2);
    CommitLeaves(scope, w, w1, c, phase.op, row);
    last := w2;
  }

  lemma ReadsBack(scope: Scope, call: Call, frame: Frame, attempt: nat, row: Row, now: int)
    requires Fits(call, frame) && ToRecord(scope, row).Some?
    requires frame.Upserting? || frame.Transitioning? || frame == SeedingDraft(true)
    ensures Next(scope, call, Reread(frame, attempt), Found(row, now)) == Done(Ok(ToRecord(scope, row).value, Created(frame)))
  {
    hide NextRow, ToRecord;
  }

  // ---- upsert ----

  /** By the stored row: one commit of the next draft and a reply with it, or a refusal that writes nothing. */
  ghost predicate UpsertOutcome(scope: Scope, w: World, last: World, c: nat, doc: Document, subject: string, now: int) {
    var d := NewDraft(doc, subject, now, NextSoulVersion(w.table.current), NextVersion(w.table.current));
    if Trim(subject) == "" then Refuses(w, last, c, MissingSubject)
    else if !scope.acceptsDraft(doc) || !scope.acceptsRecord(d) then Refuses(w, last, c, InvalidDocument)
    else CommitsOnce(scope, w, last, c, d, UpsertAction, now, Trim(subject)) && RepliesWith(last, c, d, false)
  }

  lemma UpsertReads(scope: Scope, call: Call, found: Option<Row>, now: int)
    requires call.UpsertSoul? && (found.Some? ==> ToRecord(scope, found.value).Some?)
    ensures var op := Author(call.doc, Trim(call.subject), call.now);
      Next(scope, call, Load(Upserting, 0), AnswerOf(found, now))
      == if NextRow(scope, op, found).Some? then Write(Upserting, 0, found, op) else Fail(InvalidDocument)
  {
    hide NextRow, ToRecord;
  }

  lemma UpsertStarts(scope: Scope, call: Call)
    requires call.UpsertSoul?
    ensures Start(scope, call)
      == if Trim(call.subject) == "" then Fail(MissingSubject)
         else if scope.acceptsDraft(call.doc) then Load(Upserting, 0) else Fail(InvalidDocument)
  {
  }

  /** An entry that committed a row with this document. */
  lemma CommittedOnce(scope: Scope, w: World, last: World, c: nat, op: Op, row: Row, d: Document, record: Record, created: bool)
    requires last.log == w.log + [Entry(c, op, w.table.current, row)] && last.table.current == Some(row)
    requires last.table.history == w.table.history[IdOf(row) := HistoryFor(op, row)]
    requires Stores(scope, row, d) && d.state.Some? && IdOf(row) == HistoryId(d.soulVersion, d.state.value) && Shows(record, d)
    requires c in last.clients && last.clients[c].phase == Done(Ok(record, created))
    ensures CommitsOnce(scope, w, last, c, d, ActionOf(op), op.now, Trim(op.subject)) && RepliesWith(last, c, d, created)
  {
    hide Stores, Shows, ActionOf, Trim;
  }

  /**
   An undisturbed upsert, whatever state the record is in: absent, legacy, draft, published or archived. It
   commits exactly the next draft and returns it, unless the stamped document is not acceptable.
   */
  lemma UpsertAlone(scope: Scope, w: World, c: nat, call: Call, clock: nat -> int, fuel: nat)
    requires Inv(scope, w) && c !in w.clients && call.UpsertSoul? && fuel >= 3
    ensures UpsertOutcome(scope, w, After(scope, w, c, call, clock, fuel), c, call.doc, call.subject, call.now)
  {
    hide Inv, Exec, Start, NextRow, ToRecord, Drive, Next, Trim, Sound, NewDraft, Stores, Shows, NextSoulVersion, NextVersion,
      CommitsOnce, RepliesWith, IdOf, HistoryFor;
    UpsertStarts(scope, call);
    if Start(scope, call).Done? {
      StartRefuses(scope, w, c, call, clock, fuel);
    } else {
      Begins(scope, w, c, call);
      var w0 := Exec(scope, w, Invoke(c, call));
      var op := Author(call.doc, Trim(call.subject), call.now);
      CurrentLoads(scope, w);
      AuthoredIff(scope, call.doc, call.subject, call.now, w.table.current);
      UpsertReads(scope, call, w.table.current, clock(fuel));
      var w1, write := DriveRead(scope, w0, c, call, Load(Upserting, 0), clock, fuel);
      if write.Done? {
        DriveEnds(scope, w1, c, clock, fuel - 1);
      } else {
        var row := NextRow(scope, op, w.table.current).value;
        var last := WriteEnds(scope, w1, c, call, write, row, clock, fuel - 1);
        var d := NewDraft(call.doc, call.subject, call.now, NextSoulVersion(w.table.current), NextVersion(w.table.current));
        DraftState(call.doc, call.subject, call.now, NextSoulVersion(w.table.current), NextVersion(w.table.current));
        TrimTwice(call.subject);
        CommittedOnce(scope, w, last, c, op, row, d, ToRecord(scope, row).value, false);
      }
    }
  }

  lemma DraftState(doc: Document, subject: string, now: int, soulVersion: int, version: int)
    ensures NewDraft(doc, subject, now, soulVersion, version).state == Some(Draft)
  {
    hide Trim;
  }

  // ---- publish and archive ----

  /** By the stored row: it is already there, one commit moves it there, or it is refused. */
  ghost predicate MoveOutcome(scope: Scope, w: World, last: World, c: nat, to: State, subject: string, now: int) {
    if Trim(subject) == "" then Refuses(w, last, c, MissingSubject)
    else
      match w.table.current
      case None => Refuses(w, last, c, NotFound)
      case Some(row) =>
        if row.document.None? then Refuses(w, last, c, RewriteRequired)
        else
          Loaded(scope, row).Some?
          && var d := Loaded(scope, row).value;
            if row.state == to then last.log == w.log && last.table == w.table && RepliesWith(last, c, d, false)
            else if (to == Published && row.state == Draft) || (to == Archived && row.state == Published) then
              if scope.acceptsRecord(Moved(d, to)) then
                && CommitsOnce(scope, w, last, c, Moved(d, to), if to == Published then PublishAction else ArchiveAction,
                               now, Trim(subject))
                && RepliesWith(last, c, Moved(d, to), false)
              else Refuses(w, last, c, InvalidDocument)
            else Refuses(w, last, c, InvalidTransition)
  }

  function Target(call: Call): State { if call.Publish? then Published else Archived }

  lemma MoveStarts(scope: Scope, call: Call)
    requires call.Publish? || call.Archive?
    ensures Start(scope, call)
      == if Trim(call.subject) == "" then Fail(MissingSubject) else Load(Transitioning(Target(call), 0, None), 0)
  {
  }

  lemma MoveReads(scope: Scope, call: Call, found: Option<Row>, now: int)
    requires (call.Publish? || call.Archive?) && (found.Some? ==> ToRecord(scope, found.value).Some?)
    ensures var to := Target(call);
      var frame, op := Transitioning(to, 0, None), Transition(to, Trim(call.subject), now);
      Next(scope, call, Load(frame, 0), AnswerOf(found, now))
      == match found
         case None => Fail(NotFound)
         case Some(row) =>
           if row.document.None? then Fail(RewriteRequired)
           else if row.state == to then Done(Ok(ToRecord(scope, row).value, false))
           else if (to == Published && row.state == Draft) || (to == Archived && row.state == Published) then
             if NextRow(scope, op, found).Some? then Write(frame, 0, found, op) else Fail(InvalidDocument)
           else Fail(InvalidTransition)
  {
    hide NextRow, ToRecord;
  }

  /** An undisturbed publish or archive: nothing else decides how it ends but the stored row and the moved document. */
  lemma MoveAlone(scope: Scope, w: World, c: nat, call: Call, clock: nat -> int, fuel: nat)
    requires Inv(scope, w) && c !in w.clients && (call.Publish? || call.Archive?) && fuel >= 3
    ensures MoveOutcome(scope, w, After(scope, w, c, call, clock, fuel), c, Target(call), call.subject, clock(fuel))
  {
    hide Inv, Exec, Start, NextRow, ToRecord, Drive, Next, Trim, Sound, Moved, Stores, Shows, Loaded, CommitsOnce, IdOf, HistoryFor;
    MoveStarts(scope, call);
    if Start(scope, call).Done? {
      StartRefuses(scope, w, c, call, clock, fuel);
    } else {
      Begins(scope, w, c, call);
      var w0 := Exec(scope, w, Invoke(c, call));
      CurrentLoads(scope, w);
      MoveReads(scope, call, w.table.current, clock(fuel));
      var w1, write := DriveRead(scope, w0, c, call, Start(scope, call), clock, fuel);
      if w.table.current.Some? {
        LoadedIs(scope, w.table.current.value);
      }
      if write.Done? {
        DriveEnds(scope, w1, c, clock, fuel - 1);
        if w.table.current.Some? && Movable(w.table.current.value, Target(call)) {
          MovedIff(scope, Transition(Target(call), Trim(call.subject), clock(fuel)), w.table.current.value);
        }
      } else {
        var source := w.table.current.value;
        MovedIff(scope, write.op, source);
        var row := NextRow(scope, write.op, w.table.current).value;
        var last := WriteEnds(scope, w1, c, call, write, row, clock, fuel - 1);
        MovedState(Loaded(scope, source).value, Target(call));
        TrimTwice(call.subject);
        CommittedOnce(scope, w, last, c, write.op, row, Moved(Loaded(scope, source).value, Target(call)),
                      ToRecord(scope, row).value, false);
      }
    }
  }

  predicate Movable(row: Row, to: State) {
    !row.document.None? && ((to == Published && row.state == Draft) || (to == Archived && row.state == Published))
  }

  lemma MovedState(d: Document, to: State)
    ensures Moved(d, to).state == Some(to)
  {
  }

  /** A call that ended in success; doing it again, by whomever, changes nothing and returns the same record. */
  lemma MoveTwice(scope: Scope, w: World, c: nat, e: nat, call: Call, again: Call, clock: nat -> int, clock': nat -> int, fuel: nat)
    requires Inv(scope, w) && c !in w.clients && fuel >= 3 && Trim(again.subject) != ""
    requires (call.Publish? && again.Publish?) || (call.Archive? && again.Archive?)
    ensures var first := After(scope, w, c, call, clock, fuel);
      Inv(scope, first) && c in first.clients
      && (first.clients[c].phase.Done? && first.clients[c].phase.reply.Ok? && e !in first.clients ==>
            Quiet(first, After(scope, first, e, again, clock', fuel), e, first.clients[c].phase.reply))
  {
    hide Exec, Start, NextRow, ToRecord, Drive, Next, Trim, Sound, Moved, Stores, Shows, Loaded, CommitsOnce, Inv;
    MoveAlone(scope, w, c, call, clock, fuel);
    AfterInv(scope, w, c, call, clock, fuel);
    var first := After(scope, w, c, call, clock, fuel);
    if first.clients[c].phase.Done? && first.clients[c].phase.reply.Ok? && e !in first.clients {
      MoveAlone(scope, first, e, again, clock', fuel);
      InvLawful(scope, w);
      InTarget(scope, w, first, c, Target(call), call.subject, clock(fuel));
      CurrentLoads(scope, first);
      LoadedIs(scope, first.table.current.value);
      var d := Loaded(scope, first.table.current.value).value;
      OneRecord(first.clients[c].phase.reply.record, After(scope, first, e, again, clock', fuel).clients[e].phase.reply.record, d);
    }
  }

  lemma OneRecord(a: Record, b: Record, d: Document)
    requires Shows(a, d) && Shows(b, d)
    ensures a == b
  {
  }

  /** After a success the stored row is in the target state, and the reply shows its document. */
  lemma InTarget(scope: Scope, w: World, last: World, c: nat, to: State, subject: string, now: int)
    requires Lawful(scope) && MoveOutcome(scope, w, last, c, to, subject, now) && c in last.clients
    requires last.clients[c].phase.Done? && last.clients[c].phase.reply.Ok?
    ensures last.table.current.Some? && !last.table.current.value.document.None? && last.table.current.value.state == to
    ensures Loaded(scope, last.table.current.value).Some?
    ensures Shows(last.clients[c].phase.reply.record, Loaded(scope, last.table.current.value).value)
    ensures !last.clients[c].phase.reply.created
  {
    hide Trim, Shows;
    var row := w.table.current.value;
    var d := Moved(Loaded(scope, row).value, to);
    if row.state != to {
      assert LawfulAt(scope, d);
    }
  }

  lemma {:induction false} DriveInv(scope: Scope, w: World, c: nat, clock: nat -> int, fuel: nat)
    requires Inv(scope, w) && c in w.clients
    ensures Inv(scope, Drive(scope, w, c, clock, fuel)) && c in Drive(scope, w, c, clock, fuel).clients
    decreases fuel
  {
    hide Inv, Exec;
    var phase := w.clients[c].phase;
    if !phase.Done? && fuel > 0 {
      var e := if phase.Write? then Transact(c, true) else Read(c, 0, clock(fuel));
      ExecInv(scope, w, e);
      KeepsClients(scope, w, e);
      DriveInv(scope, Exec(scope, w, e), c, clock, fuel - 1);
    }
  }

  lemma AfterInv(scope: Scope, w: World, c: nat, call: Call, clock: nat -> int, fuel: nat)
    requires Inv(scope, w) && c !in w.clients
    ensures Inv(scope, After(scope, w, c, call, clock, fuel)) && c in After(scope, w, c, call, clock, fuel).clients
  {
    hide Inv, Exec;
    Begins(scope, w, c, call);
    DriveInv(scope, Exec(scope, w, Invoke(c, call)), c, clock, fuel);
  }

  // ---- seeds ----

  /** The draft of the declaration that is stored, in its published form. */
  ghost predicate PublishOutcome(scope: Scope, w: World, last: World, c: nat, d: Document, created: bool, subject: string, now: int) {
    if scope.acceptsRecord(Moved(d, Published)) then
      && CommitsOnce(scope, w, last, c, Moved(d, Published), PublishAction, now, Trim(subject))
      && RepliesWith(last, c, Moved(d, Published), created)
    else Refuses(w, last, c, InvalidDocument)
  }

  ghost predicate SeedOutcome(scope: Scope, w: World, last: World, c: nat, doc: Document, subject: string,
                              clock: nat -> int, fuel: nat)
    requires fuel >= 6
  {
    if Trim(subject) == "" then Refuses(w, last, c, MissingSubject)
    else if !scope.acceptsDraft(doc) then Refuses(w, last, c, InvalidDocument)
    else
      match w.table.current
      case None =>
        var d := NewDraft(doc, subject, clock(fuel), 1, 1);
        if !scope.acceptsRecord(d) then Refuses(w, last, c, InvalidDocument)
        else
          exists mid ::
            CommitsOnce(scope, w, mid, c, d, UpsertAction, clock(fuel), Trim(subject))
            && PublishOutcome(scope, mid, last, c, d, true, subject, clock(fuel - 3))
      case Some(row) =>
        if row.document.None? then Refuses(w, last, c, RewriteRequired)
        else
          Loaded(scope, row).Some?
          && var d := Loaded(scope, row).value;
            if !SameContent(d, doc) then Refuses(w, last, c, Differs)
            else
              match row.state
              case Published => last.log == w.log && last.table == w.table && RepliesWith(last, c, d, false)
              case Archived => Refuses(w, last, c, InvalidTransition)
              case Draft => PublishOutcome(scope, w, last, c, d, false, subject, clock(fuel - 1))
  }

  lemma SeedReads(scope: Scope, call: Call, found: Option<Row>, now: int)
    requires call.SeedPublished? && Lawful(scope) && (found.Some? ==> ToRecord(scope, found.value).Some?)
    ensures found.Some? ==> Loaded(scope, found.value).Some?
    ensures var op := Author(call.doc, Trim(call.subject), now);
      Next(scope, call, Load(Seeding(false), 0), AnswerOf(found, now))
      == match found
         case None => if NextRow(scope, op, None).Some? then Write(Seeding(false), 0, None, op) else Fail(InvalidDocument)
         case Some(row) =>
           if row.document.None? then Fail(RewriteRequired)
           else if !SameContent(Loaded(scope, row).value, call.doc) then Fail(Differs)
           else
             match row.state
             case Published => Done(Ok(ToRecord(scope, row).value, false))
             case Archived => Fail(InvalidTransition)
             case Draft => Publishing(row, 0, false)
  {
    hide NextRow, ToRecord, Loaded, SameContent, Lawful;
    if found.Some? {
      LoadedIs(scope, found.value);
      SameIff(scope, Loaded(scope, found.value).value, call.doc);
      RecordColumns(scope, found.value);
    }
  }

  lemma RecordColumns(scope: Scope, row: Row)
    requires ToRecord(scope, row).Some?
    ensures ToRecord(scope, row).value.state == row.state && ToRecord(scope, row).value.version == row.version
  {
  }

  lemma SeedReadsBack(scope: Scope, call: Call, row: Row, now: int)
    requires call.SeedPublished? && Lawful(scope) && ToRecord(scope, row).Some? && Loaded(scope, row).Some?
    requires SameContent(Loaded(scope, row).value, call.doc) && row.state == Draft
    ensures Next(scope, call, Reread(Seeding(false), 0), Found(row, now)) == Publishing(row, 0, true)
  {
    hide NextRow, ToRecord, Loaded, SameContent, Lawful;
    LoadedIs(scope, row);
    SameIff(scope, Loaded(scope, row).value, call.doc);
    RecordColumns(scope, row);
  }

  lemma PublishingReads(scope: Scope, call: Call, row: Row, created: bool, now: int)
    requires call.SeedPublished? && ToRecord(scope, row).Some? && row.state == Draft && !IsLegacy(row)
    ensures var phase, op := Publishing(row, 0, created), Transition(Published, Trim(call.subject), now);
      Next(scope, call, phase, Found(row, now))
      == if NextRow(scope, op, Some(row)).Some? then Write(phase.frame, 0, Some(row), op) else Fail(InvalidDocument)
  {
    hide NextRow, ToRecord;
  }

  /** A seed with the matching draft in hand publishes it, or refuses. */
  lemma PublishingEnds(scope: Scope, w: World, c: nat, call: Call, row: Row, created: bool, clock: nat -> int, fuel: nat)
    requires Alone(scope, w, c, call, Publishing(row, 0, created)) && fuel >= 3 && call.SeedPublished?
    requires w.table.current == Some(row) && row.state == Draft && !IsLegacy(row)
    ensures Loaded(scope, row).Some?
    ensures PublishOutcome(scope, w, Drive(scope, w, c, clock, fuel), c, Loaded(scope, row).value, created, call.subject, clock(fuel))
  {
    hide Inv, Exec, NextRow, ToRecord, Drive, Next, Trim, Sound, Moved, Stores, Shows, Loaded, CommitsOnce, IdOf, HistoryFor;
    CurrentLoads(scope, w);
    LoadedIs(scope, row);
    PublishingReads(scope, call, row, created, clock(fuel));
    MovedIff(scope, Transition(Published, Trim(call.subject), clock(fuel)), row);
    var w1, write := DriveRead(scope, w, c, call, Publishing(row, 0, created), clock, fuel);
    if write.Done? {
      DriveEnds(scope, w1, c, clock, fuel - 1);
    } else {
      var next := NextRow(scope, write.op, w.table.current).value;
      var last := WriteEnds(scope, w1, c, call, write, next, clock, fuel - 1);
      MovedState(Loaded(scope, row).value, Published);
      TrimTwice(call.subject);
      CommittedOnce(scope, w, last, c, write.op, next, Moved(Loaded(scope, row).value, Published), ToRecord(scope, next).value, created);
    }
  }

  lemma SeedStarts(scope: Scope, call: Call)
    requires call.SeedPublished?
    ensures Start(scope, call)
      == if Trim(call.subject) == "" then Fail(MissingSubject)
         else if scope.acceptsDraft(call.doc) then Load(Seeding(false), 0) else Fail(InvalidDocument)
  {
  }

  lemma NewDraftSame(doc: Document, subject: string, now: int)
    requires doc.schema in {NoSchema, SoulDocumentV2}
    ensures SameContent(NewDraft(doc, subject, now, 1, 1), doc)
  {
    hide Trim;
  }

  lemma StoredLoads(scope: Scope, row: Row, d: Document)
    requires Lawful(scope) && Stores(scope, row, d) && scope.acceptsRecord(d)
    ensures Loaded(scope, row) == Some(d) && !IsLegacy(row)
  {
    assert LawfulAt(scope, d);
  }

  /** From an absent record: the draft, read back, and its publication. */
  lemma SeedFromAbsent(scope: Scope, w: World, c: nat, call: Call, clock: nat -> int, fuel: nat)
    requires Alone(scope, w, c, call, Load(Seeding(false), 0)) && fuel >= 6 && call.SeedPublished?
    requires w.table.current == None && Trim(call.subject) != "" && scope.acceptsDraft(call.doc)
    ensures SeedOutcome(scope, w, Drive(scope, w, c, clock, fuel), c, call.doc, call.subject, clock, fuel)
  {
    hide Inv, Exec, NextRow, ToRecord, Drive, Next, Trim, Sound, Moved, Stores, Shows, Loaded, CommitsOnce, IdOf, HistoryFor,
      SameContent, PublishOutcome, NewDraft, Lawful;
    CurrentLoads(scope, w);
    SeedReads(scope, call, None, clock(fuel));
    AuthoredIff(scope, call.doc, call.subject, clock(fuel), None);
    var w1, write := DriveRead(scope, w, c, call, Load(Seeding(false), 0), clock, fuel);
    if write.Done? {
      DriveEnds(scope, w1, c, clock, fuel - 1);
    } else {
      var d := NewDraft(call.doc, call.subject, clock(fuel), 1, 1);
      var w2, reread, row := DriveCommit(scope, w1, c, call, write, clock, fuel - 1);
      NextOnCommit(scope, call, write);
      AcceptedSchema(scope, call.doc);
      NewDraftSame(call.doc, call.subject, clock(fuel));
      StoredLoads(scope, row, d);
      DraftState(call.doc, call.subject, clock(fuel), 1, 1);
      StoredState(scope, row, d);
      SeedReadsBack(scope, call, row, clock(fuel - 2));
      CommitLeaves(scope, w1, w2, c, write.op, row);
      TrimTwice(call.subject);
      CommittedRow(scope, w1, w2, c, write.op, row, d);
      SameStart(scope, w, w1, w2, c, d, clock(fuel), Trim(call.subject));
      var w3, publishing := DriveRead(scope, w2, c, call, reread, clock, fuel - 2);
      PublishingEnds(scope, w3, c, call, row, true, clock, fuel - 3);
      SameStart(scope, w, w2, w3, c, d, clock(fuel), Trim(call.subject));
      SeedMid(scope, w, w3, Drive(scope, w3, c, clock, fuel - 3), c, call.doc, call.subject, clock, fuel);
    }
  }

  lemma AcceptedSchema(scope: Scope, doc: Document)
    requires Lawful(scope) && scope.acceptsDraft(doc)
    ensures doc.schema in {NoSchema, SoulDocumentV2}
  {
    assert LawfulAt(scope, doc);
  }

  lemma StoredState(scope: Scope, row: Row, d: Document)
    requires Stores(scope, row, d) && d.state == Some(Draft)
    ensures row.state == Draft
  {
  }

  /** CommitsOnce speaks of logs and tables alone. */
  lemma SameStart(scope: Scope, w: World, w1: World, w2: World, c: nat, d: Document, at: int, by_: string)
    ensures w1.log == w.log && w1.table == w.table && CommitsOnce(scope, w1, w2, c, d, UpsertAction, at, by_) ==>
      CommitsOnce(scope, w, w2, c, d, UpsertAction, at, by_)
    ensures w2.log == w1.log && w2.table == w1.table && CommitsOnce(scope, w, w1, c, d, UpsertAction, at, by_) ==>
      CommitsOnce(scope, w, w2, c, d, UpsertAction, at, by_)
  {
    hide Stores;
  }

  lemma CommittedRow(scope: Scope, w: World, last: World, c: nat, op: Op, row: Row, d: Document)
    requires last.log == w.log + [Entry(c, op, w.table.current, row)] && last.table.current == Some(row)
    requires last.table.history == w.table.history[IdOf(row) := HistoryFor(op, row)]
    requires Stores(scope, row, d) && d.state.Some? && IdOf(row) == HistoryId(d.soulVersion, d.state.value)
    ensures CommitsOnce(scope, w, last, c, d, ActionOf(op), op.now, Trim(op.subject))
  {
    hide Stores, ActionOf, Trim;
  }

  lemma SeedMid(scope: Scope, w: World, mid: World, last: World, c: nat, doc: Document, subject: string, clock: nat -> int, fuel: nat)
    requires fuel >= 6 && w.table.current == None && Trim(subject) != "" && scope.acceptsDraft(doc)
    requires var d := NewDraft(doc, subject, clock(fuel), 1, 1);
      && scope.acceptsRecord(d) && CommitsOnce(scope, w, mid, c, d, UpsertAction, clock(fuel), Trim(subject))
      && PublishOutcome(scope, mid, last, c, d, true, subject, clock(fuel - 3))
    ensures SeedOutcome(scope, w, last, c, doc, subject, clock, fuel)
  {
    hide CommitsOnce, PublishOutcome, NewDraft, Trim;
  }

  /** An undisturbed seed, whatever is stored: its own declaration completed or found complete, or a refusal. */
  lemma SeedAlone(scope: Scope, w: World, c: nat, call: Call, clock: nat -> int, fuel: nat)
    requires Inv(scope, w) && c !in w.clients && call.SeedPublished? && fuel >= 6
    ensures SeedOutcome(scope, w, After(scope, w, c, call, clock, fuel), c, call.doc, call.subject, clock, fuel)
  {
    hide Inv, Exec, Start, NextRow, ToRecord, Drive, Next, Trim, Sound, Moved, Stores, Shows, Loaded, CommitsOnce, SameContent,
      PublishOutcome, SeedOutcome, NewDraft, Lawful;
    SeedStarts(scope, call);
    if Start(scope, call).Done? {
      StartRefuses(scope, w, c, call, clock, fuel);
      SeedRefused(scope, w, After(scope, w, c, call, clock, fuel), c, call, clock, fuel);
    } else {
      Begins(scope, w, c, call);
      var w0 := Exec(scope, w, Invoke(c, call));
      if w.table.current.None? {
        SeedFromAbsent(scope, w0, c, call, clock, fuel);
      } else {
        SeedFromStored(scope, w0, c, call, clock, fuel);
      }
      SameSeed(scope, w, w0, Drive(scope, w0, c, clock, fuel), c, call, clock, fuel);
    }
  }

  lemma SeedRefused(scope: Scope, w: World, last: World, c: nat, call: Call, clock: nat -> int, fuel: nat)
    requires fuel >= 6 && call.SeedPublished?
    requires if Trim(call.subject) == "" then Refuses(w, last, c, MissingSubject)
             else !scope.acceptsDraft(call.doc) && Refuses(w, last, c, InvalidDocument)
    ensures SeedOutcome(scope, w, last, c, call.doc, call.subject, clock, fuel)
  {
    hide Trim, CommitsOnce, PublishOutcome, NewDraft, Loaded, SameContent, Refuses;
  }

  lemma SeedFromStored(scope: Scope, w: World, c: nat, call: Call, clock: nat -> int, fuel: nat)
    requires Alone(scope, w, c, call, Load(Seeding(false), 0)) && fuel >= 6 && call.SeedPublished?
    requires w.table.current.Some? && Trim(call.subject) != "" && scope.acceptsDraft(call.doc)
    ensures SeedOutcome(scope, w, Drive(scope, w, c, clock, fuel), c, call.doc, call.subject, clock, fuel)
  {
    hide Inv, Exec, NextRow, ToRecord, Drive, Next, Trim, Sound, Moved, Stores, Shows, Loaded, CommitsOnce, SameContent,
      NewDraft, Lawful, PublishOutcome;
    CurrentLoads(scope, w);
    var row := w.table.current.value;
    LoadedIs(scope, row);
    SeedReads(scope, call, w.table.current, clock(fuel));
    var w1, next := DriveRead(scope, w, c, call, Load(Seeding(false), 0), clock, fuel);
    if next.Done? {
      DriveEnds(scope, w1, c, clock, fuel - 1);
    } else {
      PublishingEnds(scope, w1, c, call, row, false, clock, fuel - 1);
      SamePublish(scope, w, w1, Drive(scope, w1, c, clock, fuel - 1), c, Loaded(scope, row).value, call.subject, clock(fuel - 1));
    }
  }

  lemma SamePublish(scope: Scope, w: World, w1: World, last: World, c: nat, d: Document, subject: string, now: int)
    requires w1.log == w.log && w1.table == w.table && PublishOutcome(scope, w1, last, c, d, false, subject, now)
    ensures PublishOutcome(scope, w, last, c, d, false, subject, now)
  {
    hide Stores, Trim, Moved;
  }

  lemma SameSeed(scope: Scope, w: World, w0: World, last: World, c: nat, call: Call, clock: nat -> int, fuel: nat)
    requires fuel >= 6 && call.SeedPublished? && w0.log == w.log && w0.table == w.table
    requires SeedOutcome(scope, w0, last, c, call.doc, call.subject, clock, fuel)
    ensures SeedOutcome(scope, w, last, c, call.doc, call.subject, clock, fuel)
  {
    hide Stores, Trim, Moved, NewDraft, Loaded, SameContent;
    var d := NewDraft(call.doc, call.subject, clock(fuel), 1, 1);
    if w.table.current.None? && Trim(call.subject) != "" && scope.acceptsDraft(call.doc) && scope.acceptsRecord(d) {
      var mid :| CommitsOnce(scope, w0, mid, c, d, UpsertAction, clock(fuel), Trim(call.subject))
                 && PublishOutcome(scope, mid, last, c, d, true, call.subject, clock(fuel - 3));
      assert CommitsOnce(scope, w, mid, c, d, UpsertAction, clock(fuel), Trim(call.subject));
    }
  }

  // ---- draft seeds ----

  /** It creates the draft of an absent record, returns what is there when that is its declaration, and refuses otherwise. */
  ghost predicate SeedDraftOutcome(scope: Scope, w: World, last: World, c: nat, doc: Document, subject: string, now: int) {
    var d := NewDraft(doc, subject, now, 1, 1);
    if Trim(subject) == "" then Refuses(w, last, c, MissingSubject)
    else if !scope.acceptsDraft(doc) || !scope.acceptsRecord(d) then Refuses(w, last, c, InvalidDocument)
    else
      match w.table.current
      case None => CommitsOnce(scope, w, last, c, d, UpsertAction, now, Trim(subject)) && RepliesWith(last, c, d, true)
      case Some(row) =>
        Loaded(scope, row).Some?
        && if SameContent(Loaded(scope, row).value, doc)
           then last.log == w.log && last.table == w.table && RepliesWith(last, c, Loaded(scope, row).value, false)
           else Refuses(w, last, c, Differs)
  }

  lemma SeedDraftStarts(scope: Scope, call: Call)
    requires call.SeedDraft?
    ensures var op := Author(call.doc, Trim(call.subject), call.now);
      Start(scope, call)
      == if Trim(call.subject) == "" then Fail(MissingSubject)
         else if scope.acceptsDraft(call.doc) && NextRow(scope, op, None).Some?
         then Write(SeedingDraft(true), 0, None, op) else Fail(InvalidDocument)
  {
    hide NextRow;
  }

  lemma DraftReadsBack(scope: Scope, call: Call, row: Row, now: int)
    requires call.SeedDraft? && Lawful(scope) && ToRecord(scope, row).Some?
    ensures Loaded(scope, row).Some?
    ensures Next(scope, call, Reread(SeedingDraft(false), 0), Found(row, now))
      == if SameContent(Loaded(scope, row).value, call.doc) then Done(Ok(ToRecord(scope, row).value, false)) else Fail(Differs)
  {
    hide NextRow, ToRecord, Loaded, SameContent, Lawful;
    LoadedIs(scope, row);
    SameIff(scope, Loaded(scope, row).value, call.doc);
  }

  /** A transaction built on absence fails on a record that is there. */
  lemma DriveConflict(scope: Scope, w: World, c: nat, call: Call, phase: Phase, clock: nat -> int, fuel: nat)
    returns (later: World, next: Phase)
    requires Alone(scope, w, c, call, phase) && phase.Write? && phase.source == None && w.table.current.Some? && fuel > 0
    ensures Fits(call, phase.frame) && next == Next(scope, call, phase, ConditionFailed)
    ensures Alone(scope, later, c, call, next) && later.log == w.log && later.table == w.table && later.base == w.base
    ensures Drive(scope, w, c, clock, fuel) == Drive(scope, later, c, clock, fuel - 1)
  {
    later, next := SoloConflict(scope, w, c, call, phase);
    hide NextRow, Next, Inv, Exec;
    assert later == Exec(scope, w, Transact(c, true));
  }

  lemma SoloConflict(scope: Scope, w: World, c: nat, call: Call, phase: Phase) returns (later: World, next: Phase)
    requires Alone(scope, w, c, call, phase) && phase.Write? && phase.source == None && w.table.current.Some?
    ensures Fits(call, phase.frame) && next == Next(scope, call, phase, ConditionFailed)
    ensures ClientsOk(scope, w) && later == Exec(scope, w, Transact(c, true))
    ensures Alone(scope, later, c, call, next) && later.log == w.log && later.table == w.table && later.base == w.base
  {
    hide NextRow, Next, Chain, HistoryOf, EntryOf, BoundTo, Sound, Commit, BuildTx;
    ExecInv(scope, w, Transact(c, true));
    assert ClientOk(scope, w.base, w.log, w.clients[c]);
    CommitIff(scope, w.base, w.log, w.table, phase.op, phase.source, w.clients[c].readAt);
    later, next := Exec(scope, w, Transact(c, true)), Next(scope, call, phase, ConditionFailed);
  }

  lemma DraftConflict(scope: Scope, call: Call, op: Op)
    requires call.SeedDraft?
    ensures Next(scope, call, Write(SeedingDraft(true), 0, None, op), ConditionFailed) == Reread(SeedingDraft(false), 0)
  {
  }

  lemma SeedDraftAlone(scope: Scope, w: World, c: nat, call: Call, clock: nat -> int, fuel: nat)
    requires Inv(scope, w) && c !in w.clients && call.SeedDraft? && fuel >= 2
    ensures SeedDraftOutcome(scope, w, After(scope, w, c, call, clock, fuel), c, call.doc, call.subject, call.now)
  {
    hide Inv, Exec, Start, NextRow, ToRecord, Drive, Next, Trim, Sound, NewDraft, Stores, Shows, Loaded, CommitsOnce, SameContent,
      IdOf, HistoryFor, Lawful;
    SeedDraftStarts(scope, call);
    CurrentLoads(scope, w);
    var op := Author(call.doc, Trim(call.subject), call.now);
    AuthoredIff(scope, call.doc, call.subject, call.now, None);
    if Start(scope, call).Done? {
      StartRefuses(scope, w, c, call, clock, fuel);
      if w.table.current.Some? {
        LoadedIs(scope, w.table.current.value);
      }
    } else {
      Begins(scope, w, c, call);
      var w0 := Exec(scope, w, Invoke(c, call));
      var d := NewDraft(call.doc, call.subject, call.now, 1, 1);
      if w.table.current.None? {
        var row := NextRow(scope, op, None).value;
        var last := WriteEnds(scope, w0, c, call, Start(scope, call), row, clock, fuel);
        DraftState(call.doc, call.subject, call.now, 1, 1);
        TrimTwice(call.subject);
        CommittedOnce(scope, w, last, c, op, row, d, ToRecord(scope, row).value, true);
      } else {
        var row := w.table.current.value;
        LoadedIs(scope, row);
        DraftConflict(scope, call, op);
        var w1, reread := DriveConflict(scope, w0, c, call, Start(scope, call), clock, fuel);
        DraftReadsBack(scope, call, row, clock(fuel - 1));
        var w2, done := DriveRead(scope, w1, c, call, reread, clock, fuel - 1);
        DriveEnds(scope, w2, c, clock, fuel - 2);
      }
    }
  }

  // ---- when the stamped document is acceptable ----

  /** In the real scope an accepted declaration is only ever refused for its stamped length. */
  lemma AcceptableIff(limits: Limits, agentId: string, doc: Document, subject: string, now: int, soulVersion: int, version: int)
    requires ValidDraft(limits, doc, agentId) && Trim(subject) != "" && soulVersion >= 1 && version >= 1
    ensures var d := NewDraft(doc, subject, now, soulVersion, version);
      && (SoulScope(limits, agentId).acceptsRecord(d) <==> limits.size(Encode(d)) <= MAX_DOCUMENT_BYTES)
      && (SoulScope(limits, agentId).acceptsRecord(Moved(d, Published))
          <==> limits.size(Encode(Moved(d, Published))) <= MAX_DOCUMENT_BYTES)
  {
    hide ValidSummary, ValidProvenance, ValidFiveBodies, ValidAgentId, Trim, Encode;
    TrimTwice(subject);
  }
}
