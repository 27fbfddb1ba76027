/**
 The soul operations of internal/agentcontent/store.go as small steps. A call is in a phase that says
 what it does next: read the row, send one transaction, or nothing more. Next is the code between two
 such steps.
 */
module SoulClients {
  import opened Wrappers
  import opened ContentKeys
  import opened SoulDocument
  import opened SoulRows
  import opened Text

  const RETRY_LIMIT: nat := 3

  datatype Call =
    | UpsertSoul(doc: Document, subject: string, now: int)
    | Publish(subject: string)
    | Archive(subject: string)
    | SeedPublished(doc: Document, subject: string)
    | SeedDraft(doc: Document, subject: string, now: int)

  /** The SeedPublished loop around a publish: its attempt and whether it has created the draft. */
  datatype Outer = Outer(attempt: nat, created: bool)

  /** The loop a phase belongs to. expected 0 means any record version. */
  datatype Frame =
    | Upserting
    | Transitioning(to: State, expected: int, outer: Option<Outer>)
    | Seeding(created: bool)
    | SeedingDraft(created: bool)

  datatype Error =
    | MissingSubject | InvalidDocument | NotFound | Unloadable | RewriteRequired | InvalidTransition
    | Exhausted | SourceChanged | Differs | StoreError

  datatype Reply = Ok(record: Record, created: bool) | Failed(error: Error)

  datatype Phase =
    | Load(frame: Frame, attempt: nat)
    | Write(frame: Frame, attempt: nat, source: Option<Row>, op: Op)
    | Reread(frame: Frame, attempt: nat)
    | Done(reply: Reply)

  /** What a step learns: the row read and the clock, the fate of a transaction, or any other store error. */
  datatype Answer = Found(row: Row, now: int) | Absent(now: int) | Committed | ConditionFailed | Broken

  function Fail(error: Error): Phase { Done(Failed(error)) }

  /** The validation before the first database access. */
  function Start(scope: Scope, call: Call): Phase {
    if Trim(call.subject) == "" then Fail(MissingSubject)
    else
      match call
      case UpsertSoul(doc, _, _) => if scope.acceptsDraft(doc) then Load(Upserting, 0) else Fail(InvalidDocument)
      case Publish(_) => Load(Transitioning(Published, 0, None), 0)
      case Archive(_) => Load(Transitioning(Archived, 0, None), 0)
      case SeedPublished(doc, _) => if scope.acceptsDraft(doc) then Load(Seeding(false), 0) else Fail(InvalidDocument)
      case SeedDraft(doc, _, now) =>
        if scope.acceptsDraft(doc)
        then TryWrite(scope, SeedingDraft(true), 0, None, Author(doc, Trim(call.subject), now))
        else Fail(InvalidDocument)
  }

  function TryWrite(scope: Scope, frame: Frame, attempt: nat, source: Option<Row>, op: Op): Phase {
    if NextRow(scope, op, source).Some? then Write(frame, attempt, source, op) else Fail(InvalidDocument)
  }

  /** ErrContentConflict out of transitionSoul: SeedPublished goes round again, the others give up. */
  function Conflicted(frame: Frame, error: Error): Phase {
    if frame.Transitioning? && frame.outer.Some? then SeedAgain(frame.outer.value.attempt, frame.outer.value.created)
    else Fail(error)
  }

  function SeedAgain(attempt: nat, created: bool): Phase {
    if attempt + 1 < RETRY_LIMIT then Load(Seeding(created), attempt + 1) else Fail(Exhausted)
  }

  function Created(frame: Frame): bool {
    match frame
    case Upserting => false
    case Transitioning(_, _, outer) => outer.Some? && outer.value.created
    case Seeding(created) => created
    case SeedingDraft(created) => created
  }

  /** SeedPublished with a current record in hand. */
  function Compare(scope: Scope, doc: Document, attempt: nat, created: bool, record: Record): Phase {
    if !scope.same(record.document, doc) then Fail(Differs)
    else
      match record.state
      case Published => Done(Ok(record, created))
      case Draft => Load(Transitioning(Published, record.version, Some(Outer(attempt, created))), 0)
      case Archived => Fail(InvalidTransition)
  }

  predicate Fits(call: Call, frame: Frame) {
    match frame
    case Upserting => call.UpsertSoul?
    case Transitioning(to, expected, outer) =>
      if outer.Some? then call.SeedPublished? && to == Published
      else expected == 0 && ((to == Published && call.Publish?) || (to == Archived && call.Archive?))
    case Seeding(_) => call.SeedPublished?
    case SeedingDraft(_) => call.SeedDraft?
  }

  function AfterLoad(scope: Scope, call: Call, frame: Frame, attempt: nat, found: Option<Row>, now: int): Phase
    requires Fits(call, frame)
  {
    if found.Some? && ToRecord(scope, found.value).None? then Fail(Unloadable)
    else
      match frame
      case Upserting =>
        TryWrite(scope, frame, attempt, found, Author(call.doc, Trim(call.subject), call.now))
      case Transitioning(to, expected, outer) =>
        if found.None? then Fail(NotFound)
        else if IsLegacy(found.value) then Fail(RewriteRequired)
        else if expected > 0 && found.value.version != expected then Conflicted(frame, SourceChanged)
        else if found.value.state == to then Done(Ok(ToRecord(scope, found.value).value, Created(frame)))
        else if found.value.state != From(to) then Fail(InvalidTransition)
        else TryWrite(scope, frame, attempt, found, Transition(to, Trim(call.subject), now))
      case Seeding(created) =>
        if found.None? then TryWrite(scope, frame, attempt, None, Author(call.doc, Trim(call.subject), now))
        else if IsLegacy(found.value) then Fail(RewriteRequired)
        else Compare(scope, call.doc, attempt, created, ToRecord(scope, found.value).value)
      case SeedingDraft(_) => Fail(StoreError)
  }

  function AfterConflict(frame: Frame, attempt: nat): Phase {
    match frame
    case Upserting => if attempt + 1 < RETRY_LIMIT then Load(frame, attempt + 1) else Fail(Exhausted)
    case Transitioning(_, _, _) =>
      if attempt + 1 < RETRY_LIMIT then Load(frame, attempt + 1) else Conflicted(frame, Exhausted)
    case Seeding(created) => SeedAgain(attempt, created)
    case SeedingDraft(_) => Reread(SeedingDraft(false), attempt)
  }

  function AfterReread(scope: Scope, call: Call, frame: Frame, attempt: nat, found: Option<Row>): Phase
    requires Fits(call, frame)
  {
    if found.None? then Fail(NotFound)
    else
      match ToRecord(scope, found.value)
      case None => Fail(Unloadable)
      case Some(record) =>
        match frame
        case Seeding(_) => Compare(scope, call.doc, attempt, true, record)
        case SeedingDraft(false) =>
          if scope.same(record.document, call.doc) then Done(Ok(record, false)) else Fail(Differs)
        case _ => Done(Ok(record, Created(frame)))
  }

  function Next(scope: Scope, call: Call, phase: Phase, answer: Answer): Phase
    requires phase.Done? || Fits(call, phase.frame)
  {
    if phase.Done? then phase
    else
      match (phase, answer)
      case (Load(frame, attempt), Found(row, now)) => AfterLoad(scope, call, frame, attempt, Some(row), now)
      case (Load(frame, attempt), Absent(now)) => AfterLoad(scope, call, frame, attempt, None, now)
      case (Write(frame, attempt, _, _), Committed) => Reread(frame, attempt)
      case (Write(frame, attempt, _, _), ConditionFailed) => AfterConflict(frame, attempt)
      case (Reread(frame, attempt), Found(row, _)) => AfterReread(scope, call, frame, attempt, Some(row))
      case (Reread(frame, attempt), Absent(_)) => AfterReread(scope, call, frame, attempt, None)
      case (_, _) => Fail(StoreError)
  }

  /** A call is in a loop of its own operation, and sends only writes that passed their validation. */
  ghost predicate Runs(scope: Scope, call: Call, phase: Phase) {
    phase.Done? || (
      && Fits(call, phase.frame) && phase.attempt < RETRY_LIMIT && OuterAttempt(phase.frame) < RETRY_LIMIT
      && (phase.Write? ==> NextRow(scope, phase.op, phase.source).Some?)
      && (phase.Load? ==> !phase.frame.SeedingDraft?))
  }

  function OuterAttempt(frame: Frame): nat {
    if frame.Transitioning? && frame.outer.Some? then frame.outer.value.attempt else 0
  }

  /** The database operations a phase can still need, the attempts of an enclosing seed included. */
  function Budget(phase: Phase): int {
    match phase
    case Done(_) => 0
    case Load(frame, attempt) => if frame.Seeding? then 10 * (RETRY_LIMIT - attempt) else 2 * (RETRY_LIMIT - attempt) + 1 + After(frame)
    case Write(frame, attempt, _, _) =>
      if frame.Seeding? then 10 * (RETRY_LIMIT - attempt) - 1
      else if frame.SeedingDraft? then 2 else 2 * (RETRY_LIMIT - attempt) + After(frame)
    case Reread(frame, attempt) => if frame.Seeding? then 10 * (RETRY_LIMIT - attempt) - 2 else 1 + After(frame)
  }

  /** What the enclosing seed can need once its publish has failed. */
  function After(frame: Frame): int {
    if frame.Transitioning? && frame.outer.Some? then 10 * (RETRY_LIMIT - frame.outer.value.attempt - 1) else 0
  }

  lemma LoadBudget(scope: Scope, call: Call, frame: Frame, attempt: nat, found: Option<Row>, now: int)
    requires Runs(scope, call, Load(frame, attempt))
    ensures Budget(AfterLoad(scope, call, frame, attempt, found, now)) < Budget(Load(frame, attempt))
  {
    hide NextRow, ToRecord;
  }

  lemma RereadBudget(scope: Scope, call: Call, frame: Frame, attempt: nat, found: Option<Row>)
    requires Runs(scope, call, Reread(frame, attempt))
    ensures Budget(AfterReread(scope, call, frame, attempt, found)) < Budget(Reread(frame, attempt))
  {
    hide NextRow, ToRecord;
  }

  /** Every answer uses up some of the budget, so no call retries for ever. */
  lemma NextBudget(scope: Scope, call: Call, phase: Phase, answer: Answer)
    requires Runs(scope, call, phase)
    ensures 0 <= Budget(phase)
    ensures !phase.Done? ==> Budget(Next(scope, call, phase, answer)) < Budget(phase)
  {
    hide NextRow, ToRecord, AfterLoad, AfterReread;
    if phase.Load? && (answer.Found? || answer.Absent?) {
      LoadBudget(scope, call, phase.frame, phase.attempt, FoundIn(answer), answer.now);
    } else if phase.Reread? && (answer.Found? || answer.Absent?) {
      RereadBudget(scope, call, phase.frame, phase.attempt, FoundIn(answer));
    }
  }

  /** That holds whatever the database answers. */
  lemma NextRuns(scope: Scope, call: Call, phase: Phase, answer: Answer)
    requires Runs(scope, call, phase)
    ensures Runs(scope, call, Next(scope, call, phase, answer))
  {
    hide NextRow, ToRecord;
  }

  lemma StartRuns(scope: Scope, call: Call)
    ensures Runs(scope, call, Start(scope, call))
  {
    hide NextRow;
  }

  /** The call passed its validation and is in this loop, with attempts left. */
  ghost predicate Running(scope: Scope, call: Call, frame: Frame, attempt: nat) {
    && Fits(call, frame) && attempt < RETRY_LIMIT && Trim(call.subject) != ""
    && (!call.Publish? && !call.Archive? ==> scope.acceptsDraft(call.doc))
    && (frame.Transitioning? && frame.outer.Some? ==> frame.outer.value.attempt < RETRY_LIMIT && frame.expected > 0)
  }

  /** What each loop writes, and on what. */
  ghost predicate WriteShape(call: Call, frame: Frame, source: Option<Row>, op: Op)
    requires Fits(call, frame)
  {
    match frame
    case Upserting => op == Author(call.doc, Trim(call.subject), call.now)
    case Transitioning(to, expected, _) =>
      && op.Transition? && op.to == to && op.subject == Trim(call.subject)
      && source.Some? && (expected > 0 ==> source.value.version == expected)
    case Seeding(_) => source == None && op.Author? && op.doc == call.doc && op.subject == Trim(call.subject)
    case SeedingDraft(created) =>
      created && source == None && op.Author? && op.doc == call.doc && op.subject == Trim(call.subject)
  }

  /** A phase a call can be in; a write was specified to succeed on its source. */
  ghost predicate WellFormed(scope: Scope, call: Call, phase: Phase) {
    && (!phase.Done? ==> Running(scope, call, phase.frame, phase.attempt))
    && (phase.Write? ==> NextRow(scope, phase.op, phase.source).Some?)
    && (phase.Write? ==> WriteShape(call, phase.frame, phase.source, phase.op))
    && (phase.Load? ==> !phase.frame.SeedingDraft?)
  }

  lemma StartWellFormed(scope: Scope, call: Call)
    ensures WellFormed(scope, call, Start(scope, call))
  {
    hide NextRow;
  }

  lemma CompareWellFormed(scope: Scope, call: Call, frame: Frame, attempt: nat, created: bool, record: Record)
    requires Running(scope, call, frame, attempt) && call.SeedPublished? && record.version >= 1
    ensures WellFormed(scope, call, Compare(scope, call.doc, attempt, created, record))
  {
    hide NextRow;
  }

  lemma ConflictWellFormed(scope: Scope, call: Call, frame: Frame, attempt: nat, error: Error)
    requires Running(scope, call, frame, attempt)
    ensures WellFormed(scope, call, AfterConflict(frame, attempt))
    ensures WellFormed(scope, call, Conflicted(frame, error))
  {
    hide NextRow;
  }

  lemma RecordVersion(scope: Scope, row: Row)
    requires Sound(scope, row)
    ensures ToRecord(scope, row).Some? && ToRecord(scope, row).value.version == row.version >= 1
  {
  }

  lemma LoadWellFormed(scope: Scope, call: Call, frame: Frame, attempt: nat, found: Option<Row>, now: int)
    requires Running(scope, call, frame, attempt)
    requires found.Some? ==> Sound(scope, found.value)
    ensures WellFormed(scope, call, AfterLoad(scope, call, frame, attempt, found, now))
  {
    hide NextRow, ToRecord, Sound;
    if found.Some? {
      RecordVersion(scope, found.value);
    }
    match frame
    case Transitioning(_, _, _) =>
      ConflictWellFormed(scope, call, frame, attempt, SourceChanged);
    case Seeding(created) =>
      if found.Some? {
        CompareWellFormed(scope, call, frame, attempt, created, ToRecord(scope, found.value).value);
      }
    case _ =>
  }

  lemma RereadWellFormed(scope: Scope, call: Call, frame: Frame, attempt: nat, found: Option<Row>)
    requires Running(scope, call, frame, attempt)
    requires found.Some? ==> Sound(scope, found.value)
    ensures WellFormed(scope, call, AfterReread(scope, call, frame, attempt, found))
  {
    hide NextRow;
    if frame.Seeding? && found.Some? {
      CompareWellFormed(scope, call, frame, attempt, true, ToRecord(scope, found.value).value);
    }
  }

  /** No answer takes a call out of its well-formed phases. */
  lemma NextWellFormed(scope: Scope, call: Call, phase: Phase, answer: Answer)
    requires WellFormed(scope, call, phase)
    requires answer.Found? ==> Sound(scope, answer.row)
    ensures WellFormed(scope, call, Next(scope, call, phase, answer))
  {
    hide NextRow, ToRecord, AfterLoad, AfterReread;
    if phase.Load? && (answer.Found? || answer.Absent?) {
      LoadWellFormed(scope, call, phase.frame, phase.attempt, if answer.Found? then Some(answer.row) else None, answer.now);
    } else if phase.Reread? && (answer.Found? || answer.Absent?) {
      RereadWellFormed(scope, call, phase.frame, phase.attempt, if answer.Found? then Some(answer.row) else None);
    } else if phase.Write? {
      ConflictWellFormed(scope, call, phase.frame, phase.attempt, Exhausted);
    }
  }

  ghost predicate Bound(phase: Phase) {
    !phase.Done? && phase.frame.Transitioning? && phase.frame.outer.Some?
  }

  /** A phase bound to a record version is the same loop going on, or was bound to the row just read. */
  ghost predicate BoundBy(scope: Scope, call: Call, before: Phase, found: Option<Row>, after: Phase) {
    Bound(after) ==>
      || (!before.Done? && before.frame == after.frame)
      || (found.Some? && ToRecord(scope, found.value).Some? && !call.Publish? && !call.Archive?
          && scope.same(ToRecord(scope, found.value).value.document, call.doc)
          && after.frame.expected == found.value.version)
  }

  lemma LoadBound(scope: Scope, call: Call, frame: Frame, attempt: nat, found: Option<Row>, now: int)
    requires Fits(call, frame)
    ensures var after := AfterLoad(scope, call, frame, attempt, found, now);
      BoundBy(scope, call, Load(frame, attempt), found, after) && (after.Write? ==> after.source == found)
  {
    hide NextRow, DocumentOf;
  }

  lemma RereadBound(scope: Scope, call: Call, frame: Frame, attempt: nat, found: Option<Row>)
    requires Fits(call, frame)
    ensures var after := AfterReread(scope, call, frame, attempt, found);
      BoundBy(scope, call, Reread(frame, attempt), found, after) && !after.Write?
  {
    hide NextRow, DocumentOf;
  }

  function FoundIn(answer: Answer): Option<Row> { if answer.Found? then Some(answer.row) else None }

  lemma NextBound(scope: Scope, call: Call, phase: Phase, answer: Answer)
    requires WellFormed(scope, call, phase)
    ensures var after := Next(scope, call, phase, answer);
      BoundBy(scope, call, phase, FoundIn(answer), after)
      && (after.Write? ==> phase.Load? && (answer.Found? || answer.Absent?) && after.source == FoundIn(answer))
  {
    hide NextRow, ToRecord, AfterLoad, AfterReread;
    if phase.Load? && (answer.Found? || answer.Absent?) {
      LoadBound(scope, call, phase.frame, phase.attempt, FoundIn(answer), answer.now);
    } else if phase.Reread? && (answer.Found? || answer.Absent?) {
      RereadBound(scope, call, phase.frame, phase.attempt, FoundIn(answer));
    }
  }
}
