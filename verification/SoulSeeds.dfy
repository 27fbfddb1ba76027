/**
 The seeds of a finalized declaration: they never touch content that is not theirs, and replaying them
 after a crash at any point converges to the state of one uninterrupted run.
 */
module SoulSeeds {
  import opened Wrappers
  import opened ContentKeys
  import opened SoulDocument
  import opened SoulRows
  import opened SoulClients
  import opened SoulWorld
  import opened SoulHistory
  import opened Text

  // ---- seeds next to other writers ----

  predicate IsSeed(call: Call) { call.SeedPublished? || call.SeedDraft? }

  lemma CommittedLoads(scope: Scope, w: World, i: nat)
    requires Inv(scope, w) && i < |w.log|
    ensures Follows(scope, w.log[i].source, w.log[i].op, w.log[i].row)
    ensures w.log[i].source == Snap(w.base, w.log, i) && ToRecord(scope, w.log[i].row).Some?
    ensures w.log[i].client in w.clients && EntryOf(scope, w.clients[w.log[i].client].call, w.log[i])
  {
    hide NextRow, EntryOf, Linked, HistoryOf, ClientOk, Follows, ToRecord;
    LogFollows(scope, w.base, w.log, i);
    SnapLoads(scope, w.base, w.log, i + 1);
  }

  lemma MatchesSame(scope: Scope, source: Row, row: Row, doc: Document)
    requires Lawful(scope) && Continues(scope, source, row) && Matches(scope, source, doc)
    ensures Matches(scope, row, doc)
  {
    hide ToRecord;
    var d, e := ToRecord(scope, row).value.document, ToRecord(scope, source).value.document;
    assert SameLaw(scope, d, e) && SameLaw(scope, e, doc) && SameLaw(scope, d, doc);
  }

  /**
   Under any interleaving with owner writes a seed creates the draft only of an absent record, and
   publishes only a draft with its own content: it overwrites nothing, and what it publishes is its declaration.
   */
  lemma SeedsNeverOverwrite(scope: Scope, base: Option<Row>, events: seq<Event>, i: nat)
    requires Lawful(scope) && BaseOk(scope, base)
    ensures Inv(scope, Initial(base))
    ensures var w := Run(scope, Initial(base), events);
      i < |w.log| && w.log[i].client in w.clients && IsSeed(w.clients[w.log[i].client].call) ==>
        var e, doc := w.log[i], w.clients[w.log[i].client].call.doc;
        if e.op.Author? then i == 0 && base == None && e.source == None && e.op.doc == doc
        else
          && w.clients[e.client].call.SeedPublished? && e.row.state == Published
          && e.source.Some? && e.source.value.state == Draft && Matches(scope, e.source.value, doc)
          && Matches(scope, e.row, doc) && e.row.content == e.source.value.content
  {
    hide NextRow, Chain, HistoryOf, ClientOk, Matches, ToRecord;
    InitialInv(scope, base);
    Safety(scope, Initial(base), events);
    RunBase(scope, Initial(base), events);
    var w := Run(scope, Initial(base), events);
    if i < |w.log| && w.log[i].client in w.clients && IsSeed(w.clients[w.log[i].client].call) {
      CommittedLoads(scope, w, i);
      if w.log[i].op.Transition? {
        MatchesSame(scope, w.log[i].source.value, w.log[i].row, w.clients[w.log[i].client].call.doc);
      }
    }
  }

  // ---- replaying one declaration ----

  ghost predicate OnlySeeds(events: seq<Event>, doc: Document) {
    forall e :: e in events && e.Invoke? ==> SeedsDoc(e.call, doc)
  }

  predicate SeedsDoc(call: Call, doc: Document) { call.SeedPublished? && call.doc == doc }

  ghost predicate AllSeed(w: World, doc: Document) {
    forall c :: c in w.clients ==> SeedsDoc(w.clients[c].call, doc)
  }

  lemma {:induction false} RunSeeds(scope: Scope, w: World, events: seq<Event>, doc: Document)
    requires Inv(scope, w) && AllSeed(w, doc) && OnlySeeds(events, doc)
    ensures AllSeed(Run(scope, w, events), doc)
    decreases |events|
  {
    hide Inv, NextRow, Next, BuildTx, Commit, Start;
    if events != [] {
      ExecInv(scope, w, events[0]);
      assert events[0] in events;
      RunSeeds(scope, Exec(scope, w, events[0]), events[1..], doc);
    }
  }

  /** Absent; a draft of the declaration; or that draft published. */
  ghost predicate SeedState(scope: Scope, w: World, doc: Document) {
    && |w.log| <= 2
    && (|w.log| >= 1 ==> w.log[0].op.Author? && w.log[0].op.doc == doc && w.log[0].row.state == Draft
                         && NextRow(scope, w.log[0].op, None) == Some(w.log[0].row))
    && (|w.log| == 2 ==> w.log[1].row.state == Published && w.log[1].op.Transition? && w.log[1].op.to == Published
                         && NextRow(scope, w.log[1].op, Some(w.log[0].row)) == Some(w.log[1].row))
  }

  lemma SeedEntry(scope: Scope, w: World, doc: Document, i: nat)
    requires Inv(scope, w) && w.base == None && AllSeed(w, doc) && i < |w.log|
    ensures if i == 0 then w.log[0].op.Author? && w.log[0].op.doc == doc && w.log[0].row.state == Draft
            else w.log[i].op.Transition? && w.log[i].op.to == Published && w.log[i].row.state == Published
                 && w.log[i - 1].row.state == Draft
    ensures NextRow(scope, w.log[i].op, Snap(w.base, w.log, i)) == Some(w.log[i].row)
  {
    hide NextRow, HistoryOf, ClientOk, Matches, ToRecord;
    CommittedLoads(scope, w, i);
    assert Linked(scope, w.base, w.log, i);
  }

  /** However seeds of one declaration crash, repeat and interleave, they leave one of three states. */
  lemma SeedStates(scope: Scope, events: seq<Event>, doc: Document)
    requires Lawful(scope) && OnlySeeds(events, doc)
    ensures Inv(scope, Initial(None)) && SeedState(scope, Run(scope, Initial(None), events), doc)
  {
    hide NextRow, HistoryOf, ClientOk, EntryOf, Chain;
    InitialInv(scope, None);
    Safety(scope, Initial(None), events);
    RunBase(scope, Initial(None), events);
    RunSeeds(scope, Initial(None), events, doc);
    var w := Run(scope, Initial(None), events);
    if |w.log| >= 1 { SeedEntry(scope, w, doc, 0); }
    if |w.log| >= 2 { SeedEntry(scope, w, doc, 1); }
    if |w.log| >= 3 { SeedEntry(scope, w, doc, 2); }
  }

  // ---- one uninterrupted seed, with consistent reads ----

  /** Client c alone: its phase, and a table nobody else touches. */
  ghost predicate Alone(scope: Scope, w: World, c: nat, call: Call, phase: Phase) {
    Inv(scope, w) && c in w.clients && w.clients[c].call == call && w.clients[c].phase == phase
  }

  lemma SoloRead(scope: Scope, w: World, c: nat, call: Call, phase: Phase, now: int) returns (next: Phase)
    requires Alone(scope, w, c, call, phase) && (phase.Load? || phase.Reread?)
    ensures Fits(call, phase.frame) && next == Next(scope, call, phase, AnswerOf(w.table.current, now))
    ensures ClientsOk(scope, w)
    ensures var later := Exec(scope, w, Read(c, 0, now));
      Alone(scope, later, c, call, next) && later.log == w.log && later.table == w.table && later.base == w.base
  {
    hide NextRow, Next, Chain, HistoryOf, EntryOf, BoundTo, Sound;
    ExecInv(scope, w, Read(c, 0, now));
    assert ClientOk(scope, w.base, w.log, w.clients[c]);
    next := Next(scope, call, phase, AnswerOf(w.table.current, now));
  }

  lemma SoloCommit(scope: Scope, w: World, c: nat, call: Call, phase: Phase) returns (next: Phase, row: Row)
    requires Alone(scope, w, c, call, phase) && phase.Write? && phase.source == w.table.current
    ensures Fits(call, phase.frame) && next == Next(scope, call, phase, Committed)
    ensures NextRow(scope, phase.op, w.table.current) == Some(row)
    ensures ClientsOk(scope, w)
    ensures var later := Exec(scope, w, Transact(c, true));
      && Alone(scope, later, c, call, next) && later.base == w.base
      && later.log == w.log + [Entry(c, phase.op, phase.source, row)] && later.table.current == Some(row)
  {
    hide NextRow, Next, Chain, HistoryOf, EntryOf, BoundTo, Sound, Commit, BuildTx;
    ExecInv(scope, w, Transact(c, true));
    assert ClientOk(scope, w.base, w.log, w.clients[c]);
    CommitIff(scope, w.base, w.log, w.table, phase.op, phase.source, w.clients[c].readAt);
    row := NextRow(scope, phase.op, phase.source).value;
    next := Next(scope, call, phase, Committed);
  }

  /** Client c runs to the end of its call without interference, crash or stale read. */
  ghost function Drive(scope: Scope, w: World, c: nat, clock: nat -> int, fuel: nat): World
    requires Inv(scope, w) && c in w.clients
    decreases fuel
  {
    var phase := w.clients[c].phase;
    if phase.Done? || fuel == 0 then w
    else
      var e := if phase.Write? then Transact(c, true) else Read(c, 0, clock(fuel));
      ExecInv(scope, w, e);
      KeepsClients(scope, w, e);
      Drive(scope, Exec(scope, w, e), c, clock, fuel - 1)
  }

  lemma KeepsClients(scope: Scope, w: World, e: Event)
    requires Inv(scope, w)
    ensures ClientsOk(scope, w) && w.clients.Keys <= Exec(scope, w, e).clients.Keys
  {
    hide NextRow, Next, Chain, HistoryOf, EntryOf, BoundTo, Sound, Commit, BuildTx;
    InvClients(scope, w);
  }

  /** The row loads and carries the declaration in this state. */
  ghost predicate Declares(scope: Scope, row: Row, doc: Document, state: State) {
    Matches(scope, row, doc) && row.state == state && !IsLegacy(row) && row.version >= 1
  }

  /** The steps of SeedPublished when nobody interferes. */
  lemma SeedLoads(scope: Scope, call: Call, phase: Phase, row: Row, now: int)
    requires call.SeedPublished? && phase.Load? && phase.frame.Seeding?
    ensures Declares(scope, row, call.doc, Published) ==>
      Next(scope, call, phase, Found(row, now)) == Done(Ok(ToRecord(scope, row).value, phase.frame.created))
    ensures Declares(scope, row, call.doc, Draft) ==>
      Next(scope, call, phase, Found(row, now)) == Publishing(row, phase.attempt, phase.frame.created)
  {
    hide NextRow, DocumentOf;
  }

  function Publishing(row: Row, attempt: nat, created: bool): Phase {
    Load(Transitioning(Published, row.version, Some(Outer(attempt, created))), 0)
  }

  lemma SeedRereads(scope: Scope, call: Call, phase: Phase, row: Row, now: int)
    requires call.SeedPublished? && phase.Reread? && phase.frame.Seeding? && Declares(scope, row, call.doc, Draft)
    ensures Next(scope, call, phase, Found(row, now)) == Publishing(row, phase.attempt, true)
  {
    hide NextRow, DocumentOf;
  }

  function PublishOp(call: Call, now: int): Op { Transition(Published, Trim(call.subject), now) }

  lemma PublishLoads(scope: Scope, call: Call, row: Row, attempt: nat, created: bool, now: int)
    requires call.SeedPublished? && Declares(scope, row, call.doc, Draft)
    ensures var phase := Publishing(row, attempt, created);
      Next(scope, call, phase, Found(row, now))
      == if NextRow(scope, PublishOp(call, now), Some(row)).Some?
         then Write(phase.frame, 0, Some(row), PublishOp(call, now)) else Fail(InvalidDocument)
  {
    hide NextRow, DocumentOf;
  }

  lemma PublishRereads(scope: Scope, call: Call, frame: Frame, row: Row, now: int)
    requires call.SeedPublished? && Fits(call, frame) && frame.Transitioning? && ToRecord(scope, row).Some?
    ensures Next(scope, call, Reread(frame, 0), Found(row, now)) == Done(Ok(ToRecord(scope, row).value, Created(frame)))
  {
    hide NextRow, ToRecord;
  }

  lemma AuthoredDeclares(scope: Scope, op: Op, row: Row)
    requires Lawful(scope) && op.Author? && scope.acceptsDraft(op.doc) && NextRow(scope, op, None) == Some(row)
    ensures Declares(scope, row, op.doc, Draft) && row.version == 1 && row.soulVersion == 1
  {
    hide ToRecord, NextRow, ServerFieldsStamped, ValidRecord;
    AuthoredLoads(scope, op, None);
    assert LawfulAt(scope, op.doc) && SameLaw(scope, AuthoredDocument(op, None), op.doc);
    RecordProjects(scope, row);
  }

  lemma PublishedDeclares(scope: Scope, op: Op, source: Row, row: Row, doc: Document)
    requires Lawful(scope) && op.Transition? && op.to == Published && Sound(scope, source)
    requires NextRow(scope, op, Some(source)) == Some(row) && Matches(scope, source, doc)
    ensures Declares(scope, row, doc, Published)
    ensures row.version == source.version + 1 && row.soulVersion == source.soulVersion
  {
    hide ToRecord, NextRow;
    NextRowFollows(scope, op, Some(source), row);
    TransitionedLoads(scope, op, source);
    MatchesSame(scope, source, row, doc);
  }

  lemma DriveRead(scope: Scope, w: World, c: nat, call: Call, phase: Phase, clock: nat -> int, fuel: nat)
    returns (later: World, next: Phase)
    requires Alone(scope, w, c, call, phase) && (phase.Load? || phase.Reread?) && fuel > 0
    ensures Fits(call, phase.frame) && next == Next(scope, call, phase, AnswerOf(w.table.current, clock(fuel)))
    ensures Alone(scope, later, c, call, next) && later.log == w.log && later.table == w.table && later.base == w.base
    ensures Drive(scope, w, c, clock, fuel) == Drive(scope, later, c, clock, fuel - 1)
  {
    hide NextRow, Next, Inv, Exec;
    next := SoloRead(scope, w, c, call, phase, clock(fuel));
    later := Exec(scope, w, Read(c, 0, clock(fuel)));
  }

  lemma DriveCommit(scope: Scope, w: World, c: nat, call: Call, phase: Phase, clock: nat -> int, fuel: nat)
    returns (later: World, next: Phase, row: Row)
    requires Alone(scope, w, c, call, phase) && phase.Write? && phase.source == w.table.current && fuel > 0
    ensures Fits(call, phase.frame) && next == Next(scope, call, phase, Committed)
    ensures NextRow(scope, phase.op, w.table.current) == Some(row)
    ensures Alone(scope, later, c, call, next) && later.base == w.base
    ensures later.log == w.log + [Entry(c, phase.op, phase.source, row)] && later.table.current == Some(row)
    ensures Drive(scope, w, c, clock, fuel) == Drive(scope, later, c, clock, fuel - 1)
  {
    hide NextRow, Next, Inv, Exec;
    next, row := SoloCommit(scope, w, c, call, phase);
    later := Exec(scope, w, Transact(c, true));
  }

  /** From a matching draft: publish it if its published form is valid, and refuse otherwise. */
  lemma DrivePublish(scope: Scope, w: World, c: nat, call: Call, row: Row, attempt: nat, created: bool,
                     clock: nat -> int, fuel: nat)
    requires Alone(scope, w, c, call, Publishing(row, attempt, created)) && fuel >= 3 && call.SeedPublished?
    requires w.table.current == Some(row) && Declares(scope, row, call.doc, Draft)
    ensures var last := Drive(scope, w, c, clock, fuel);
      var next := NextRow(scope, PublishOp(call, clock(fuel)), Some(row));
      if next.Some?
      then ToRecord(scope, next.value).Some? && Finished(last, c, next.value, |w.log| + 1, Ok(ToRecord(scope, next.value).value, created))
      else Finished(last, c, row, |w.log|, Failed(InvalidDocument))
  {
    hide NextRow, Next, Inv, ToRecord, Declares, Exec, Drive;
    PublishLoads(scope, call, row, attempt, created, clock(fuel));
    var w1, written := DriveRead(scope, w, c, call, Publishing(row, attempt, created), clock, fuel);
    if written.Done? {
      DriveEnds(scope, w1, c, clock, fuel - 1);
    } else {
      var w2, reread, next := DriveCommit(scope, w1, c, call, written, clock, fuel - 1);
      CurrentSound(scope, w2);
      NextOnCommit(scope, call, written);
      PublishRereads(scope, call, written.frame, next, clock(fuel - 2));
      var w3, done := DriveRead(scope, w2, c, call, reread, clock, fuel - 2);
      DriveEnds(scope, w3, c, clock, fuel - 3);
    }
  }

  lemma NextOnCommit(scope: Scope, call: Call, phase: Phase)
    requires phase.Write? && Fits(call, phase.frame)
    ensures Next(scope, call, phase, Committed) == Reread(phase.frame, phase.attempt)
  {
  }

  lemma DriveEnds(scope: Scope, w: World, c: nat, clock: nat -> int, fuel: nat)
    requires Inv(scope, w) && c in w.clients && w.clients[c].phase.Done?
    ensures Drive(scope, w, c, clock, fuel) == w
  {
    hide Inv, Exec;
  }

  lemma CurrentSound(scope: Scope, w: World)
    requires Inv(scope, w) && w.table.current.Some?
    ensures Sound(scope, w.table.current.value) && ToRecord(scope, w.table.current.value).Some?
  {
    hide NextRow, HistoryOf, EntryOf, ClientOk;
    SnapSound(scope, w.base, w.log, |w.log|);
  }

  /** The call is over with this reply, over this row and number of commits. */
  ghost predicate Finished(w: World, c: nat, row: Row, commits: nat, reply: Reply) {
    c in w.clients && w.clients[c].phase == Done(reply) && w.table.current == Some(row) && |w.log| == commits
  }

  // ---- convergence ----

  /** The row an uninterrupted seed leaves behind, when it creates the draft with this write. */
  function Outcome(scope: Scope, creator: Op): Option<Row> {
    var draft :- NextRow(scope, creator, None);
    NextRow(scope, Transition(Published, "", 0), Some(draft))
  }

  /** Who publishes and when does not show in the published row. */
  lemma PublishedRow(scope: Scope, op: Op, op': Op, source: Option<Row>)
    requires op.Transition? && op'.Transition? && op.to == op'.to
    ensures NextRow(scope, op, source) == NextRow(scope, op', source)
  {
    hide ToRecord;
  }

  /** The write that created, or would create, the draft. */
  function Creator(w: World, doc: Document, subject: string, now: int): Op {
    if w.log == [] then Author(doc, Trim(subject), now) else w.log[0].op
  }

  /** Where a complete seed ends: the published declaration, or a refusal when its published form is not valid. */
  ghost predicate Converged(scope: Scope, w: World, last: World, c: nat, doc: Document, creator: Op) {
    var outcome := Outcome(scope, creator);
    if outcome.Some? then
      && Declares(scope, outcome.value, doc, Published) && outcome.value.version == 2 && outcome.value.soulVersion == 1
      && Finished(last, c, outcome.value, 2, Ok(ToRecord(scope, outcome.value).value, w.log == []))
    else
      && c in last.clients && last.clients[c].phase == Fail(InvalidDocument)
      && |last.log| == if NextRow(scope, creator, None).Some? then 1 else 0
  }

  lemma StartSeed(scope: Scope, w: World, c: nat, doc: Document, subject: string)
    requires Inv(scope, w) && c !in w.clients && scope.acceptsDraft(doc) && Trim(subject) != ""
    ensures ClientsOk(scope, w)
    ensures var later := Exec(scope, w, Invoke(c, SeedPublished(doc, subject)));
      && Alone(scope, later, c, SeedPublished(doc, subject), Load(Seeding(false), 0))
      && later.log == w.log && later.table == w.table && later.base == w.base
  {
    hide NextRow, Chain, HistoryOf, EntryOf, ClientOk;
    ExecInv(scope, w, Invoke(c, SeedPublished(doc, subject)));
  }

  lemma SeedCreates(scope: Scope, call: Call, now: int)
    requires call.SeedPublished?
    ensures var op := Author(call.doc, Trim(call.subject), now);
      Next(scope, call, Load(Seeding(false), 0), Absent(now))
      == if NextRow(scope, op, None).Some? then Write(Seeding(false), 0, None, op) else Fail(InvalidDocument)
  {
    hide NextRow;
  }

  lemma ConvergesFromAbsent(scope: Scope, w: World, c: nat, call: Call, clock: nat -> int, fuel: nat)
    requires Alone(scope, w, c, call, Load(Seeding(false), 0)) && call.SeedPublished? && scope.acceptsDraft(call.doc)
    requires w.base == None && w.log == [] && fuel >= 6
    ensures Converged(scope, w, Drive(scope, w, c, clock, fuel), c, call.doc, Creator(w, call.doc, call.subject, clock(fuel)))
  {
    hide NextRow, Next, Inv, ToRecord, Declares, Exec, Drive;
    var op := Creator(w, call.doc, call.subject, clock(fuel));
    CurrentRow(scope, w);
    SeedCreates(scope, call, clock(fuel));
    var w1, write := DriveRead(scope, w, c, call, Load(Seeding(false), 0), clock, fuel);
    if write.Done? {
      DriveEnds(scope, w1, c, clock, fuel - 1);
    } else {
      var w2, reread, draft := DriveCommit(scope, w1, c, call, write, clock, fuel - 1);
      NextOnCommit(scope, call, write);
      InvLawful(scope, w);
      AuthoredDeclares(scope, op, draft);
      SeedRereads(scope, call, reread, draft, clock(fuel - 2));
      var w3, publishing := DriveRead(scope, w2, c, call, reread, clock, fuel - 2);
      DrivePublish(scope, w3, c, call, draft, 0, true, clock, fuel - 3);
      ConvergedRow(scope, w3, draft, call.doc, PublishOp(call, clock(fuel - 3)));
    }
  }

  lemma InvLawful(scope: Scope, w: World)
    requires Inv(scope, w)
    ensures Lawful(scope)
  {
  }

  lemma CurrentRow(scope: Scope, w: World)
    requires Inv(scope, w)
    ensures w.table.current == Snap(w.base, w.log, |w.log|)
  {
  }

  lemma ConvergedRow(scope: Scope, w: World, draft: Row, doc: Document, op: Op)
    requires Inv(scope, w) && w.table.current == Some(draft) && Declares(scope, draft, doc, Draft)
    requires op.Transition? && op.to == Published
    ensures NextRow(scope, op, Some(draft)) == NextRow(scope, Transition(Published, "", 0), Some(draft))
    ensures var next := NextRow(scope, op, Some(draft));
      next.Some? ==> Declares(scope, next.value, doc, Published) && next.value.version == draft.version + 1
                     && next.value.soulVersion == draft.soulVersion
  {
    hide NextRow, ToRecord, Chain, HistoryOf, EntryOf, ClientOk;
    PublishedRow(scope, op, Transition(Published, "", 0), Some(draft));
    CurrentSound(scope, w);
    if NextRow(scope, op, Some(draft)).Some? {
      PublishedDeclares(scope, op, draft, NextRow(scope, op, Some(draft)).value, doc);
    }
  }

  lemma ConvergesFromDraft(scope: Scope, w: World, c: nat, call: Call, clock: nat -> int, fuel: nat)
    requires Alone(scope, w, c, call, Load(Seeding(false), 0)) && call.SeedPublished? && scope.acceptsDraft(call.doc)
    requires w.base == None && SeedState(scope, w, call.doc) && |w.log| == 1 && fuel >= 6
    ensures Converged(scope, w, Drive(scope, w, c, clock, fuel), c, call.doc, Creator(w, call.doc, call.subject, clock(fuel)))
  {
    hide NextRow, Next, Inv, ToRecord, Declares, Exec, Drive;
    var draft := w.log[0].row;
    CurrentRow(scope, w);
    InvLawful(scope, w);
    AuthoredDeclares(scope, w.log[0].op, draft);
    SeedLoads(scope, call, Load(Seeding(false), 0), draft, clock(fuel));
    var w1, publishing := DriveRead(scope, w, c, call, Load(Seeding(false), 0), clock, fuel);
    DrivePublish(scope, w1, c, call, draft, 0, false, clock, fuel - 1);
    ConvergedRow(scope, w1, draft, call.doc, PublishOp(call, clock(fuel - 1)));
  }

  lemma ConvergesFromPublished(scope: Scope, w: World, c: nat, call: Call, clock: nat -> int, fuel: nat)
    requires Alone(scope, w, c, call, Load(Seeding(false), 0)) && call.SeedPublished? && scope.acceptsDraft(call.doc)
    requires w.base == None && SeedState(scope, w, call.doc) && |w.log| == 2 && fuel >= 6
    ensures Converged(scope, w, Drive(scope, w, c, clock, fuel), c, call.doc, Creator(w, call.doc, call.subject, clock(fuel)))
  {
    hide NextRow, Next, Inv, ToRecord, Declares, Exec, Drive;
    var draft, row := w.log[0].row, w.log[1].row;
    CurrentRow(scope, w);
    InvLawful(scope, w);
    AuthoredDeclares(scope, w.log[0].op, draft);
    FirstSound(scope, w, 1);
    PublishedRow(scope, w.log[1].op, Transition(Published, "", 0), Some(draft));
    DeclaresMatches(scope, draft, call.doc, Draft);
    PublishedDeclares(scope, w.log[1].op, draft, row, call.doc);
    SeedLoads(scope, call, Load(Seeding(false), 0), row, clock(fuel));
    var w1, done := DriveRead(scope, w, c, call, Load(Seeding(false), 0), clock, fuel);
    DriveEnds(scope, w1, c, clock, fuel - 1);
  }

  lemma DeclaresMatches(scope: Scope, row: Row, doc: Document, state: State)
    requires Declares(scope, row, doc, state)
    ensures Matches(scope, row, doc)
  {
  }

  lemma FirstSound(scope: Scope, w: World, i: nat)
    requires Inv(scope, w) && 0 < i <= |w.log|
    ensures Sound(scope, w.log[i - 1].row)
  {
    hide NextRow, HistoryOf, EntryOf, ClientOk, Sound;
    SnapSound(scope, w.base, w.log, i);
  }

  /**
   Crash and replay: after any seeds of one declaration, each cut off at any step, however interleaved and
   with any stale reads, one uninterrupted seed ends in the row that an uninterrupted run of the first
   creator alone would have left: record version 2, soul version 1, published. It fails exactly when the
   stamped declaration is not valid, and then it still has published nothing.
   */
  lemma ReplayConverges(scope: Scope, events: seq<Event>, doc: Document, c: nat, subject: string,
                        clock: nat -> int, fuel: nat)
    requires Lawful(scope) && OnlySeeds(events, doc) && scope.acceptsDraft(doc) && Trim(subject) != "" && fuel >= 6
    ensures Inv(scope, Initial(None))
    ensures var w := Run(scope, Initial(None), events);
      c !in w.clients ==>
        && ClientsOk(scope, w) && Inv(scope, Exec(scope, w, Invoke(c, SeedPublished(doc, subject))))
        && c in Exec(scope, w, Invoke(c, SeedPublished(doc, subject))).clients
        && var last := Drive(scope, Exec(scope, w, Invoke(c, SeedPublished(doc, subject))), c, clock, fuel);
          Converged(scope, w, last, c, doc, Creator(w, doc, subject, clock(fuel)))
  {
    hide NextRow, Next, Inv, Exec, Drive, SeedState, Outcome, Declares, ToRecord, Start;
    SeedStates(scope, events, doc);
    RunBase(scope, Initial(None), events);
    Safety(scope, Initial(None), events);
    var w := Run(scope, Initial(None), events);
    if c !in w.clients {
      var call := SeedPublished(doc, subject);
      StartSeed(scope, w, c, doc, subject);
      var start := Exec(scope, w, Invoke(c, call));
      SeedStateOf(scope, w, start, doc);
      if |w.log| == 0 {
        ConvergesFromAbsent(scope, start, c, call, clock, fuel);
      } else if |w.log| == 1 {
        ConvergesFromDraft(scope, start, c, call, clock, fuel);
      } else {
        ConvergesFromPublished(scope, start, c, call, clock, fuel);
      }
    }
  }

  lemma SeedStateOf(scope: Scope, w: World, later: World, doc: Document)
    requires SeedState(scope, w, doc) && later.log == w.log
    ensures SeedState(scope, later, doc) && |w.log| <= 2
  {
    hide NextRow;
  }
}
