/**
 The agent_instructions record of internal/agentcontent/store.go: single conditional writes without history.
 Every write is conditional on the record version, but only writes of content raise it; an archive leaves it.
 */
module Instructions {
  import opened Wrappers
  import opened ContentKeys
  import opened Text
  import Utf8

  const MAX_BYTES := 64 * 1024
  const RETRY_LIMIT: nat := 3

  datatype Row = Row(content: string, version: int, state: State, createdAt: int, updatedAt: int, updatedBy: string)

  /** toRecord for instructions: a published row is an error. */
  function ToRecord(row: Row): Option<Row> {
    if row.state == Published then None else Some(row.(updatedBy := Trim(row.updatedBy)))
  }

  // ---- calls as small steps ----

  datatype Call =
    | Upsert(content: string, subject: string, now: int)
    | Archive(subject: string, now: int)
    | Seed(content: string, subject: string, now: int)

  datatype Op = Write(content: string, subject: string, now: int) | Retire(subject: string, now: int)

  function OpOf(call: Call): Op {
    if call.Archive? then Retire(Trim(call.subject), call.now) else Write(call.content, Trim(call.subject), call.now)
  }

  predicate Valid(call: Call) {
    Trim(call.subject) != "" && (!call.Archive? ==> |Utf8.Encode(call.content)| <= MAX_BYTES)
  }

  function Created(op: Op): Row
    requires op.Write?
  {
    Row(op.content, 1, Draft, op.now, op.now, op.subject)
  }

  /** The update, applied to the stored row; the client's own row is only good for its version. */
  function Applied(op: Op, row: Row): Row {
    match op
    case Write(content, subject, now) =>
      row.(content := content, state := Draft, updatedAt := now, updatedBy := subject, version := row.version + 1)
    case Retire(subject, now) =>
      row.(state := Archived, updatedAt := now, updatedBy := subject)
  }

  datatype Error = InvalidInput | NotFound | Unloadable | Exhausted | StoreError

  /** created is the second result of a seed. */
  datatype Reply = Ok(record: Row, created: bool) | Failed(error: Error)

  datatype Phase = Creating | Loading(attempt: nat) | Updating(attempt: nat, source: Row) | Getting | Done(reply: Reply)

  /** Committed carries the row that an update left. */
  datatype Answer = Found(row: Row) | Absent | Committed(row: Row) | ConditionFailed | Broken

  function Fail(error: Error): Phase { Done(Failed(error)) }

  function Returned(row: Row, created: bool): Phase {
    match ToRecord(row)
    case None => Fail(Unloadable)
    case Some(record) => Done(Ok(record, created))
  }

  function Start(call: Call): Phase {
    if !Valid(call) then Fail(InvalidInput) else if call.Archive? then Loading(0) else Creating
  }

  function Next(call: Call, phase: Phase, answer: Answer): Phase {
    match (phase, answer)
    case (Done(_), _) => phase
    case (Creating, Committed(row)) => Returned(if call.Archive? then row else Created(OpOf(call)), call.Seed?)
    case (Creating, ConditionFailed) => if call.Seed? then Getting else Loading(0)
    case (Loading(attempt), Found(row)) => if ToRecord(row).None? then Fail(Unloadable) else Updating(attempt, row)
    case (Loading(_), Absent) => Fail(NotFound)
    case (Updating(_, _), Committed(row)) => Returned(row, false)
    case (Updating(attempt, _), ConditionFailed) => if attempt + 1 < RETRY_LIMIT then Loading(attempt + 1) else Fail(Exhausted)
    case (Getting, Found(row)) => Returned(row, false)
    case (Getting, Absent) => Fail(NotFound)
    case (_, _) => Fail(StoreError)
  }

  /** A phase that this call can be in. */
  predicate Fits(call: Call, phase: Phase) {
    match phase
    case Done(_) => true
    case Creating => Valid(call) && !call.Archive?
    case Getting => Valid(call) && call.Seed?
    case Loading(_) => Valid(call) && !call.Seed?
    case Updating(_, _) => Valid(call) && !call.Seed?
  }

  // ---- the code ----

  datatype Request = Create(row: Row) | Update(op: Op, expected: int)

  /** The table as one call sees it: the fate of its operations, one after the other. */
  class Database {
    const answers: nat -> Answer
    var cursor: nat
    var sent: seq<Request>

    constructor (answers: nat -> Answer)
      ensures this.answers == answers && cursor == 0 && sent == []
    {
      this.answers, cursor, sent := answers, 0, [];
    }

    method First() returns (answer: Answer)
      modifies this
      ensures answer == answers(old(cursor)) && cursor == old(cursor) + 1 && sent == old(sent)
    {
      answer, cursor := answers(cursor), cursor + 1;
    }

    method Send(request: Request) returns (answer: Answer)
      modifies this
      ensures answer == answers(old(cursor)) && cursor == old(cursor) + 1 && sent == old(sent) + [request]
    {
      answer, cursor, sent := answers(cursor), cursor + 1, sent + [request];
    }
  }

  /** What a phase sends: a conditional create, an update on condition of the version that was read, or nothing. */
  function Requests(call: Call, phase: Phase): seq<Request> {
    match phase
    case Creating => if call.Archive? then [] else [Create(Created(OpOf(call)))]
    case Updating(_, source) => [Update(OpOf(call), source.version)]
    case _ => []
  }

  /** The phase after the operations lo .. hi of the database, and what was sent during them. */
  ghost function PhaseAt(call: Call, answers: nat -> Answer, lo: nat, hi: nat): Phase
    decreases hi
  {
    if hi <= lo then Start(call) else Next(call, PhaseAt(call, answers, lo, hi - 1), answers(hi - 1))
  }

  ghost function SentAt(call: Call, answers: nat -> Answer, lo: nat, hi: nat): seq<Request>
    decreases hi
  {
    if hi <= lo then [] else SentAt(call, answers, lo, hi - 1) + Requests(call, PhaseAt(call, answers, lo, hi - 1))
  }

  // ---- retries ----

  /** How many updates of this call failed their condition. */
  ghost function Conflicts(call: Call, answers: nat -> Answer, lo: nat, hi: nat): nat
    decreases hi
  {
    if hi <= lo then 0
    else
      Conflicts(call, answers, lo, hi - 1)
      + if PhaseAt(call, answers, lo, hi - 1).Updating? && answers(hi - 1).ConditionFailed? then 1 else 0
  }

  /** The attempt of a phase is the number of conflicts so far. */
  ghost predicate Counts(phase: Phase, conflicts: nat) {
    match phase
    case Loading(attempt) => conflicts == attempt < RETRY_LIMIT
    case Updating(attempt, _) => conflicts == attempt < RETRY_LIMIT
    case Done(reply) => conflicts <= RETRY_LIMIT && (conflicts == RETRY_LIMIT <==> reply == Failed(Exhausted))
    case _ => conflicts == 0
  }

  lemma NextCounts(call: Call, phase: Phase, answer: Answer, conflicts: nat)
    requires Counts(phase, conflicts)
    ensures Counts(Next(call, phase, answer), conflicts + if phase.Updating? && answer.ConditionFailed? then 1 else 0)
  {
    hide ToRecord, OpOf;
  }

  lemma StartCounts(call: Call)
    ensures Counts(Start(call), 0)
  {
    hide Valid;
  }

  lemma {:induction false} PhaseCounts(call: Call, answers: nat -> Answer, lo: nat, hi: nat)
    ensures Counts(PhaseAt(call, answers, lo, hi), Conflicts(call, answers, lo, hi))
    decreases hi
  {
    hide Next, Start, Counts;
    if hi > lo {
      PhaseCounts(call, answers, lo, hi - 1);
      NextCounts(call, PhaseAt(call, answers, lo, hi - 1), answers(hi - 1), Conflicts(call, answers, lo, hi - 1));
    } else {
      StartCounts(call);
    }
  }

  /** A call gives up exactly when its third update has failed its condition. */
  lemma ThreeConflicts(call: Call, answers: nat -> Answer, lo: nat, hi: nat)
    ensures PhaseAt(call, answers, lo, hi) == Done(Failed(Exhausted)) <==> Conflicts(call, answers, lo, hi) == 3
    ensures Conflicts(call, answers, lo, hi) <= 3
  {
    hide PhaseAt, Conflicts;
    PhaseCounts(call, answers, lo, hi);
  }

  /** After a failed condition a call reads the row, or gives up. */
  lemma ConflictRetries(call: Call, answers: nat -> Answer, lo: nat, hi: nat)
    requires lo < hi && answers(hi - 1).ConditionFailed?
    requires PhaseAt(call, answers, lo, hi - 1).Creating? || PhaseAt(call, answers, lo, hi - 1).Updating?
    ensures var phase, next := PhaseAt(call, answers, lo, hi - 1), PhaseAt(call, answers, lo, hi);
      if phase.Updating? then next.Loading? || next == Done(Failed(Exhausted))
      else if call.Seed? then next.Getting? else next.Loading?
  {
    hide ToRecord, OpOf, Valid;
  }

  /** What a call does with a row it has read does not depend on how many attempts went before; a failing store ends it. */
  lemma RetriesAlike(call: Call, a: nat, b: nat, answer: Answer, phase: Phase)
    ensures var p, q := Next(call, Loading(a), answer), Next(call, Loading(b), answer);
      && (p.Done? <==> q.Done?) && (p.Done? ==> p == q)
      && (answer.Found? && answer.row.state == Published ==> p == Done(Failed(Unloadable)))
      && (answer.Found? && answer.row.state != Published ==> p == Updating(a, answer.row))
    ensures !phase.Done? && answer.Broken? ==> Next(call, phase, answer) == Done(Failed(StoreError))
    ensures (phase.Loading? || phase.Getting?) && answer.Absent? ==> Next(call, phase, answer) == Done(Failed(NotFound))
  {
    hide OpOf;
  }

  class Store {
    const db: Database

    constructor (db: Database)
      ensures this.db == db
    {
      this.db := db;
    }

    ghost predicate InPhase(call: Call, start: nat, before: seq<Request>, phase: Phase)
      reads db
    {
      && start <= db.cursor && PhaseAt(call, db.answers, start, db.cursor) == phase
      && db.sent == before + SentAt(call, db.answers, start, db.cursor)
    }

    method Query(call: Call, ghost start: nat, ghost before: seq<Request>, ghost phase: Phase) returns (answer: Answer)
      requires InPhase(call, start, before, phase) && Requests(call, phase) == []
      modifies db
      ensures InPhase(call, start, before, Next(call, phase, answer))
    {
      hide Next, Requests;
      answer := db.First();
    }

    method Send(call: Call, request: Request, ghost start: nat, ghost before: seq<Request>, ghost phase: Phase)
      returns (answer: Answer)
      requires InPhase(call, start, before, phase) && Requests(call, phase) == [request]
      modifies db
      ensures InPhase(call, start, before, Next(call, phase, answer))
    {
      hide Next, Requests;
      answer := db.Send(request);
    }

    /** The loop that Upsert and Archive share: read, then update on condition of the version read. */
    method Retry(call: Call, ghost start: nat, ghost before: seq<Request>) returns (reply: Reply)
      requires InPhase(call, start, before, Loading(0))
      modifies db
      ensures InPhase(call, start, before, Done(reply))
    {
      hide InPhase, ToRecord, OpOf;
      var attempt := 0;
      while attempt < RETRY_LIMIT
        invariant attempt <= RETRY_LIMIT
        invariant InPhase(call, start, before, if attempt < RETRY_LIMIT then Loading(attempt) else Fail(Exhausted))
      {
        var current := Query(call, start, before, Loading(attempt));
        if current.Absent? {
          return Failed(NotFound);
        }
        if !current.Found? {
          return Failed(StoreError);
        }
        if ToRecord(current.row).None? {
          return Failed(Unloadable);
        }
        var fate := Send(call, Update(OpOf(call), current.row.version), start, before, Updating(attempt, current.row));
        if fate.Committed? {
          var record := ToRecord(fate.row);
          return if record.None? then Failed(Unloadable) else Ok(record.value, false);
        }
        if !fate.ConditionFailed? {
          return Failed(StoreError);
        }
        attempt := attempt + 1;
      }
      reply := Failed(Exhausted);
    }

    /** Upsert for agent_instructions: create, or update the row that is there. */
    method Upsert(call: Call) returns (reply: Reply)
      requires call.Upsert?
      modifies db
      ensures InPhase(call, old(db.cursor), old(db.sent), Done(reply))
    {
      hide ToRecord, Valid;
      ghost var start, before := db.cursor, db.sent;
      if !Valid(call) {
        return Failed(InvalidInput);
      }
      var row := Created(OpOf(call));
      var created := Send(call, Create(row), start, before, Creating);
      if created.Committed? {
        var record := ToRecord(row);
        return if record.None? then Failed(Unloadable) else Ok(record.value, false);
      }
      if !created.ConditionFailed? {
        return Failed(StoreError);
      }
      reply := Retry(call, start, before);
    }

    /** Archive for agent_instructions. */
    method Archive(call: Call) returns (reply: Reply)
      requires call.Archive?
      modifies db
      ensures InPhase(call, old(db.cursor), old(db.sent), Done(reply))
    {
      hide Valid;
      if !Valid(call) {
        return Failed(InvalidInput);
      }
      reply := Retry(call, db.cursor, db.sent);
    }

    /** SeedInstructions: create, or return what is there. */
    method SeedInstructions(call: Call) returns (reply: Reply)
      requires call.Seed?
      modifies db
      ensures InPhase(call, old(db.cursor), old(db.sent), Done(reply))
    {
      hide ToRecord, Valid;
      ghost var start, before := db.cursor, db.sent;
      if !Valid(call) {
        return Failed(InvalidInput);
      }
      var row := Created(OpOf(call));
      var created := Send(call, Create(row), start, before, Creating);
      if created.Committed? {
        var record := ToRecord(row);
        return if record.None? then Failed(Unloadable) else Ok(record.value, true);
      }
      if !created.ConditionFailed? {
        return Failed(StoreError);
      }
      var current := Query(call, start, before, Getting);
      if current.Absent? {
        return Failed(NotFound);
      }
      if !current.Found? {
        return Failed(StoreError);
      }
      var record := ToRecord(current.row);
      reply := if record.None? then Failed(Unloadable) else Ok(record.value, false);
    }
  }
}
