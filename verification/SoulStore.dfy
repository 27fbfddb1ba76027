/**
 The retry loops of the soul store, over a database whose answers are not known in advance. Each method
 is proved to be the step machine of SoulClients: it sends the same transactions, in the same order, and
 ends with the same reply, whatever it is answered.
 */
module SoulStore {
  import opened Wrappers
  import opened ContentKeys
  import opened SoulDocument
  import opened SoulRows
  import opened SoulClients
  import opened Text

  /** The table as one call sees it: the fate of its operations, one after the other. */
  class Database {
    const answers: nat -> Answer
    var cursor: nat
    var sent: seq<Tx>

    constructor (answers: nat -> Answer)
      ensures this.answers == answers && cursor == 0 && sent == []
    {
      this.answers, cursor, sent := answers, 0, [];
    }

    method First() returns (answer: Answer)
      modifies this
      ensures answer == answers(old(cursor)) && cursor == old(cursor) + 1 && sent == old(sent)
    {
      answer, cursor := answers(cursor), cursor + 1;
    }

    method TransactWrite(tx: Tx) returns (answer: Answer)
      modifies this
      ensures answer == answers(old(cursor)) && cursor == old(cursor) + 1 && sent == old(sent) + [tx]
    {
      answer, cursor, sent := answers(cursor), cursor + 1, sent + [tx];
    }
  }

  /** The phase of a call after the operations lo .. hi of its database. */
  ghost function PhaseAt(scope: Scope, call: Call, answers: nat -> Answer, lo: nat, hi: nat): (phase: Phase)
    ensures Runs(scope, call, phase)
    decreases hi
  {
    if hi <= lo then
      StartRuns(scope, call);
      Start(scope, call)
    else
      var before := PhaseAt(scope, call, answers, lo, hi - 1);
      NextRuns(scope, call, before, answers(hi - 1));
      Next(scope, call, before, answers(hi - 1))
  }

  /** The transactions the machine sends during the operations lo .. hi. */
  ghost function SentAt(scope: Scope, call: Call, answers: nat -> Answer, lo: nat, hi: nat): seq<Tx>
    decreases hi
  {
    if hi <= lo then []
    else
      var phase := PhaseAt(scope, call, answers, lo, hi - 1);
      SentAt(scope, call, answers, lo, hi - 1)
      + if phase.Write? then [BuildTx(scope, phase.op, phase.source)] else []
  }

  /** The most database operations a call can need. */
  function Limit(call: Call): nat {
    if call.SeedPublished? then 30 else if call.SeedDraft? then 2 else 7
  }

  lemma {:induction false} BudgetLeft(scope: Scope, call: Call, answers: nat -> Answer, lo: nat, hi: nat)
    requires lo <= hi
    ensures 0 <= Budget(PhaseAt(scope, call, answers, lo, hi))
    ensures Budget(PhaseAt(scope, call, answers, lo, hi)) <= if hi - lo < Limit(call) then Limit(call) - (hi - lo) else 0
    decreases hi
  {
    hide NextRow, Next, Runs, Budget;
    if hi == lo {
      StartBudget(scope, call);
    } else {
      BudgetLeft(scope, call, answers, lo, hi - 1);
      NextBudget(scope, call, PhaseAt(scope, call, answers, lo, hi - 1), answers(hi - 1));
    }
    DoneBudget(scope, call, PhaseAt(scope, call, answers, lo, hi));
    if hi > lo && PhaseAt(scope, call, answers, lo, hi - 1).Done? {
      DoneStays(scope, call, PhaseAt(scope, call, answers, lo, hi - 1), answers(hi - 1));
    }
  }

  lemma StartBudget(scope: Scope, call: Call)
    ensures Budget(Start(scope, call)) <= Limit(call)
  {
    hide NextRow;
  }

  /** Only a finished call has nothing left to do. */
  lemma DoneBudget(scope: Scope, call: Call, phase: Phase)
    requires Runs(scope, call, phase)
    ensures 0 <= Budget(phase) && (Budget(phase) == 0 <==> phase.Done?)
  {
    hide NextRow;
  }

  lemma DoneStays(scope: Scope, call: Call, phase: Phase, answer: Answer)
    requires phase.Done?
    ensures Next(scope, call, phase, answer) == phase
  {
  }

  /** Whatever the database answers, an upsert, publish or archive ends within 7 operations, a seed within 30. */
  lemma CallsEnd(scope: Scope, call: Call, answers: nat -> Answer, lo: nat, hi: nat)
    requires hi - lo >= Limit(call)
    ensures PhaseAt(scope, call, answers, lo, hi).Done?
  {
    hide NextRow, Next, Runs, Budget, PhaseAt;
    BudgetLeft(scope, call, answers, lo, hi);
    DoneBudget(scope, call, PhaseAt(scope, call, answers, lo, hi));
  }

  /** Whatever the database answers, no call ends because the row it compared has changed: a seed goes round again. */
  lemma {:induction false} ConflictStaysInside(scope: Scope, call: Call, answers: nat -> Answer, lo: nat, hi: nat)
    ensures PhaseAt(scope, call, answers, lo, hi) != Done(Failed(SourceChanged))
    decreases hi
  {
    hide NextRow, Next, Runs;
    if hi > lo {
      ConflictStaysInside(scope, call, answers, lo, hi - 1);
      NextStaysInside(scope, call, PhaseAt(scope, call, answers, lo, hi - 1), answers(hi - 1));
    } else {
      StartStaysInside(scope, call);
    }
  }

  lemma StartStaysInside(scope: Scope, call: Call)
    ensures Start(scope, call) != Done(Failed(SourceChanged))
  {
    hide NextRow;
  }

  lemma NextStaysInside(scope: Scope, call: Call, phase: Phase, answer: Answer)
    requires Runs(scope, call, phase) && phase != Done(Failed(SourceChanged))
    ensures Next(scope, call, phase, answer) != Done(Failed(SourceChanged))
  {
    hide NextRow, ToRecord;
  }

  /** What cannot be read ends the call, and so does a store that fails; the errors are told apart. */
  lemma FailedReads(scope: Scope, call: Call, answers: nat -> Answer, lo: nat, hi: nat)
    requires lo < hi
    ensures var phase := PhaseAt(scope, call, answers, lo, hi - 1);
      && (phase.Load? || phase.Reread? ==>
            && (answers(hi - 1).Found? && ToRecord(scope, answers(hi - 1).row).None? ==>
                  PhaseAt(scope, call, answers, lo, hi) == Done(Failed(Unloadable)))
            && (phase.Reread? && answers(hi - 1).Absent? ==> PhaseAt(scope, call, answers, lo, hi) == Done(Failed(NotFound))))
      && (!phase.Done? && answers(hi - 1).Broken? ==> PhaseAt(scope, call, answers, lo, hi) == Done(Failed(StoreError)))
  {
    hide NextRow, ToRecord;
  }

  // ---- retries ----

  /** How many transactions of this call failed their condition. */
  ghost function Conflicts(scope: Scope, call: Call, answers: nat -> Answer, lo: nat, hi: nat): nat
    decreases hi
  {
    if hi <= lo then 0
    else
      Conflicts(scope, call, answers, lo, hi - 1)
      + if PhaseAt(scope, call, answers, lo, hi - 1).Write? && answers(hi - 1).ConditionFailed? then 1 else 0
  }

  /** The attempt of a phase is the number of conflicts so far. */
  ghost predicate Counts(phase: Phase, conflicts: nat) {
    if phase.Done? then conflicts <= RETRY_LIMIT && (conflicts == RETRY_LIMIT <==> phase == Done(Failed(Exhausted)))
    else conflicts == phase.attempt && (phase.frame.Upserting? || (phase.frame.Transitioning? && phase.frame.outer.None?))
  }

  lemma NextCounts(scope: Scope, call: Call, phase: Phase, answer: Answer, conflicts: nat)
    requires call.UpsertSoul? || call.Publish? || call.Archive?
    requires Runs(scope, call, phase) && Counts(phase, conflicts)
    ensures Counts(Next(scope, call, phase, answer), conflicts + if phase.Write? && answer.ConditionFailed? then 1 else 0)
  {
    hide NextRow, ToRecord;
  }

  lemma StartCounts(scope: Scope, call: Call)
    requires call.UpsertSoul? || call.Publish? || call.Archive?
    ensures Counts(Start(scope, call), 0)
  {
    hide NextRow;
  }

  lemma {:induction false} PhaseCounts(scope: Scope, call: Call, answers: nat -> Answer, lo: nat, hi: nat)
    requires call.UpsertSoul? || call.Publish? || call.Archive?
    ensures Counts(PhaseAt(scope, call, answers, lo, hi), Conflicts(scope, call, answers, lo, hi))
    decreases hi
  {
    hide NextRow, Next, Runs, Counts;
    if hi > lo {
      PhaseCounts(scope, call, answers, lo, hi - 1);
      NextCounts(scope, call, PhaseAt(scope, call, answers, lo, hi - 1), answers(hi - 1), Conflicts(scope, call, answers, lo, hi - 1));
    } else {
      StartCounts(scope, call);
    }
  }

  /** An upsert, publish or archive gives up exactly when its third transaction has failed its condition. */
  lemma ThreeConflicts(scope: Scope, call: Call, answers: nat -> Answer, lo: nat, hi: nat)
    requires call.UpsertSoul? || call.Publish? || call.Archive?
    ensures PhaseAt(scope, call, answers, lo, hi) == Done(Failed(Exhausted)) <==> Conflicts(scope, call, answers, lo, hi) == 3
    ensures Conflicts(scope, call, answers, lo, hi) <= 3
  {
    hide PhaseAt, Conflicts;
    PhaseCounts(scope, call, answers, lo, hi);
    assert Runs(scope, call, PhaseAt(scope, call, answers, lo, hi));
  }

  /** After a failed condition a call reads the row again, or gives up; the draft seed always reads. */
  lemma ConflictRetries(scope: Scope, call: Call, answers: nat -> Answer, lo: nat, hi: nat)
    requires lo < hi && PhaseAt(scope, call, answers, lo, hi - 1).Write? && answers(hi - 1).ConditionFailed?
    ensures var next := PhaseAt(scope, call, answers, lo, hi);
      if call.SeedDraft? then next.Reread? else next.Load? || next == Done(Failed(Exhausted))
  {
    hide NextRow, ToRecord;
  }

  /** What a call does with a row it has read does not depend on how many attempts went before. */
  lemma RetriesAlike(scope: Scope, call: Call, frame: Frame, a: nat, b: nat, answer: Answer)
    requires Fits(call, frame)
    ensures var p, q := Next(scope, call, Load(frame, a), answer), Next(scope, call, Load(frame, b), answer);
      && (p.Done? <==> q.Done?) && (p.Done? ==> p == q)
      && (p.Write? <==> q.Write?) && (p.Write? ==> p.source == q.source && p.op == q.op)
  {
    hide NextRow, ToRecord;
  }

  /** A seed that created the draft, or met another creator, goes on from the row it reads back as from any row. */
  lemma ReadBackAlike(scope: Scope, call: Call, created: bool, attempt: nat, row: Row, now: int)
    requires call.SeedPublished? && !IsLegacy(row)
    ensures Next(scope, call, Reread(Seeding(created), attempt), Found(row, now))
      == Next(scope, call, Load(Seeding(true), attempt), Found(row, now))
  {
    hide NextRow, ToRecord, Compare;
  }

  class Store {
    const scope: Scope
    const db: Database

    constructor (scope: Scope, db: Database)
      ensures this.scope == scope && this.db == db
    {
      this.scope, this.db := scope, db;
    }

    /** The machine is in this phase, and has sent what the method has sent since start. */
    ghost predicate InPhase(call: Call, start: nat, before: seq<Tx>, phase: Phase)
      reads db
    {
      && start <= db.cursor && PhaseAt(scope, call, db.answers, start, db.cursor) == phase
      && db.sent == before + SentAt(scope, call, db.answers, start, db.cursor)
    }

    /** The machine has read the row of this record after a committed write. */
    ghost predicate GotRecord(call: Call, start: nat, before: seq<Tx>, phase: Phase, record: Record)
      requires phase.Reread? && Fits(call, phase.frame)
      reads db
    {
      exists row ::
        && ToRecord(scope, row) == Some(record)
        && InPhase(call, start, before, AfterReread(scope, call, phase.frame, phase.attempt, Some(row)))
    }

    method Query(call: Call, ghost start: nat, ghost before: seq<Tx>, ghost phase: Phase) returns (answer: Answer)
      requires InPhase(call, start, before, phase) && (phase.Load? || phase.Reread?)
      modifies db
      ensures Runs(scope, call, phase) && InPhase(call, start, before, Next(scope, call, phase, answer))
    {
      hide Next, Runs, BuildTx;
      answer := db.First();
    }

    method Send(call: Call, tx: Tx, ghost start: nat, ghost before: seq<Tx>, ghost phase: Phase) returns (answer: Answer)
      requires InPhase(call, start, before, phase) && phase.Write? && NextRow(scope, phase.op, phase.source).Some?
      requires tx == BuildTx(scope, phase.op, phase.source)
      modifies db
      ensures Runs(scope, call, phase) && InPhase(call, start, before, Next(scope, call, phase, answer))
    {
      hide Next, BuildTx, NextRow, Runs;
      answer := db.TransactWrite(tx);
    }

    /** loadRecord: the row, its absence, or the reply that ends the call. */
    method LoadRecord(call: Call, ghost start: nat, ghost before: seq<Tx>, ghost phase: Phase)
      returns (failure: Option<Error>, current: Option<Row>, now: int)
      requires InPhase(call, start, before, phase) && (phase.Load? || phase.Reread?)
      modifies db
      ensures Runs(scope, call, phase)
      ensures failure.Some? ==> InPhase(call, start, before, Fail(failure.value))
      ensures failure.None? ==> current.Some? ==> ToRecord(scope, current.value).Some?
      ensures failure.None? ==> InPhase(call, start, before,
        if phase.Load? then AfterLoad(scope, call, phase.frame, phase.attempt, current, now)
        else AfterReread(scope, call, phase.frame, phase.attempt, current))
    {
      hide NextRow, ToRecord, InPhase;
      var found := Query(call, start, before, phase);
      match found
      case Found(row, at) =>
        failure, current, now := if ToRecord(scope, row).None? then Some(Unloadable) else None, Some(row), at;
      case Absent(at) => failure, current, now := None, None, at;
      case _ => failure, current, now := Some(StoreError), None, 0;
    }

    /** Get after a committed write: the record may be newer than the write. */
    method Get(call: Call, ghost start: nat, ghost before: seq<Tx>, ghost phase: Phase)
      returns (result: Result)
      requires InPhase(call, start, before, phase) && phase.Reread?
      modifies db
      ensures Runs(scope, call, phase)
      ensures result.Failure? ==> InPhase(call, start, before, Fail(result.error))
      ensures result.Success? ==> GotRecord(call, start, before, phase, result.record)
      ensures !result.Conflict?
    {
      hide NextRow, ToRecord, InPhase;
      var failure, current, _ := LoadRecord(call, start, before, phase);
      if failure.Some? {
        return Failure(failure.value);
      }
      if current.None? {
        return Failure(NotFound);
      }
      result := Success(ToRecord(scope, current.value).value);
    }

    /** Upsert for agent_soul, with its validation. */
    method UpsertSoul(call: Call) returns (reply: Reply)
      requires call.UpsertSoul?
      modifies db
      ensures InPhase(call, old(db.cursor), old(db.sent), Done(reply))
    {
      hide NextRow, ToRecord, BuildTx;
      ghost var start, before := db.cursor, db.sent;
      if Trim(call.subject) == "" {
        return Failed(MissingSubject);
      }
      if !scope.acceptsDraft(call.doc) {
        return Failed(InvalidDocument);
      }
      var op := Author(call.doc, Trim(call.subject), call.now);
      var attempt := 0;
      assert InPhase(call, start, before, Load(Upserting, 0));
      hide InPhase;
      while attempt < RETRY_LIMIT
        invariant attempt <= RETRY_LIMIT
        invariant InPhase(call, start, before,
                          if attempt < RETRY_LIMIT then Load(Upserting, attempt) else Fail(Exhausted))
      {
        var failure, current, _ := LoadRecord(call, start, before, Load(Upserting, attempt));
        if failure.Some? {
          return Failed(failure.value);
        }
        if NextRow(scope, op, current).None? {
          return Failed(InvalidDocument);
        }
        ghost var phase := Write(Upserting, attempt, current, op);
        var fate := Send(call, BuildTx(scope, op, current), start, before, phase);
        if fate.Committed? {
          var result := Get(call, start, before, Reread(Upserting, attempt));
          return if result.Success? then Ok(result.record, false) else Failed(result.error);
        } else if !fate.ConditionFailed? {
          return Failed(StoreError);
        }
        attempt := attempt + 1;
      }
      reply := Failed(Exhausted);
    }

    /** The two-item transaction that creates a draft, and nothing else. */
    method CreateInitialSoulDraft(call: Call, now: int, ghost frame: Frame, ghost attempt: nat,
                                  ghost start: nat, ghost before: seq<Tx>)
      returns (result: Result)
      requires Fits(call, frame) && (frame.Seeding? || frame.SeedingDraft?)
      requires InPhase(call, start, before, TryWrite(scope, frame, attempt, None, Author(call.doc, Trim(call.subject), now)))
      modifies db
      ensures result.Success? ==> GotRecord(call, start, before, Reread(frame, attempt), result.record)
      ensures result.Conflict? ==> InPhase(call, start, before, AfterConflict(frame, attempt))
      ensures result.Failure? ==> InPhase(call, start, before, Fail(result.error))
    {
      hide NextRow, ToRecord, BuildTx, InPhase;
      var op := Author(call.doc, Trim(call.subject), now);
      if NextRow(scope, op, None).None? {
        return Failure(InvalidDocument);
      }
      var fate := Send(call, BuildTx(scope, op, None), start, before, Write(frame, attempt, None, op));
      if fate.Committed? {
        result := Get(call, start, before, Reread(frame, attempt));
      } else {
        result := if fate.ConditionFailed? then Conflict(Exhausted) else Failure(StoreError);
      }
    }

    /** Publish or archive, from the state the lifecycle asks for; expected 0 accepts any record version. */
    method TransitionSoul(call: Call, to: State, expected: int, ghost outer: Option<Outer>, ghost start: nat, ghost before: seq<Tx>)
      returns (result: Result)
      requires Fits(call, Transitioning(to, expected, outer))
      requires InPhase(call, start, before, Load(Transitioning(to, expected, outer), 0))
      modifies db
      ensures var frame := Transitioning(to, expected, outer);
        match result
        case Success(record) => InPhase(call, start, before, Done(Ok(record, Created(frame))))
        case Conflict(error) => InPhase(call, start, before, Conflicted(frame, error))
        case Failure(error) => InPhase(call, start, before, Fail(error))
    {
      hide NextRow, ToRecord, BuildTx, InPhase;
      ghost var frame := Transitioning(to, expected, outer);
      var attempt := 0;
      while attempt < RETRY_LIMIT
        invariant attempt <= RETRY_LIMIT
        invariant InPhase(call, start, before,
                          if attempt < RETRY_LIMIT then Load(frame, attempt) else Conflicted(frame, Exhausted))
      {
        var failure, loaded, now := LoadRecord(call, start, before, Load(frame, attempt));
        if failure.Some? {
          return Failure(failure.value);
        }
        if loaded.None? {
          return Failure(NotFound);
        }
        var current := loaded.value;
        if IsLegacy(current) {
          return Failure(RewriteRequired);
        }
        if expected > 0 && current.version != expected {
          return Conflict(SourceChanged);
        }
        if current.state == to {
          return Success(ToRecord(scope, current).value);
        }
        if current.state != From(to) {
          return Failure(InvalidTransition);
        }
        var op := Transition(to, Trim(call.subject), now);
        if NextRow(scope, op, loaded).None? {
          return Failure(InvalidDocument);
        }
        var fate := Send(call, BuildTx(scope, op, loaded), start, before, Write(frame, attempt, loaded, op));
        if fate.Committed? {
          result := Get(call, start, before, Reread(frame, attempt));
          return;
        } else if !fate.ConditionFailed? {
          return Failure(StoreError);
        }
        attempt := attempt + 1;
      }
      result := Conflict(Exhausted);
    }

    /** Publish and Archive for agent_soul. */
    method Transit(call: Call) returns (reply: Reply)
      requires call.Publish? || call.Archive?
      modifies db
      ensures InPhase(call, old(db.cursor), old(db.sent), Done(reply))
    {
      hide NextRow, ToRecord, BuildTx;
      ghost var start, before := db.cursor, db.sent;
      if Trim(call.subject) == "" {
        return Failed(MissingSubject);
      }
      var to := if call.Publish? then Published else Archived;
      assert InPhase(call, start, before, Load(Transitioning(to, 0, None), 0));
      hide InPhase;
      var result := TransitionSoul(call, to, 0, None, start, before);
      reply := if result.Success? then Ok(result.record, false) else Failed(result.error);
    }

    /** Create and publish a finalized declaration, never over other content. */
    method SeedPublished(call: Call) returns (reply: Reply)
      requires call.SeedPublished?
      modifies db
      ensures InPhase(call, old(db.cursor), old(db.sent), Done(reply))
    {
      hide NextRow, ToRecord, BuildTx;
      ghost var start, before := db.cursor, db.sent;
      if Trim(call.subject) == "" {
        return Failed(MissingSubject);
      }
      if !scope.acceptsDraft(call.doc) {
        return Failed(InvalidDocument);
      }
      var created, attempt := false, 0;
      assert InPhase(call, start, before, Load(Seeding(false), 0));
      hide InPhase;
      while attempt < RETRY_LIMIT
        invariant attempt <= RETRY_LIMIT
        invariant InPhase(call, start, before,
                          if attempt < RETRY_LIMIT then Load(Seeding(created), attempt) else Fail(Exhausted))
      {
        ghost var was := created;
        var failure, stored, now := LoadRecord(call, start, before, Load(Seeding(created), attempt));
        if failure.Some? {
          return Failed(failure.value);
        }
        var current: Option<Record> := None;
        if stored.None? {
          var draft := CreateInitialSoulDraft(call, now, Seeding(created), attempt, start, before);
          if draft.Failure? {
            return Failed(draft.error);
          }
          if draft.Success? {
            current, created := Some(draft.record), true;
          }
        } else if IsLegacy(stored.value) {
          return Failed(RewriteRequired);
        } else {
          current := ToRecord(scope, stored.value);
        }
        if current.Some? {
          var record := current.value;
          assert InPhase(call, start, before, Compare(scope, call.doc, attempt, created, record));
          if !scope.same(record.document, call.doc) {
            return Failed(Differs);
          }
          if record.state == Published {
            return Ok(record, created);
          }
          if record.state == Archived {
            return Failed(InvalidTransition);
          }
          // The publish is bound to the draft that was just compared.
          ghost var outer := Some(Outer(attempt, created));
          var published := TransitionSoul(call, Published, record.version, outer, start, before);
          if published.Success? {
            return Ok(published.record, created);
          }
          if published.Failure? {
            return Failed(published.error);
          }
        }
        attempt := attempt + 1;
      }
      reply := Failed(Exhausted);
    }

    /** Create the draft, or accept an existing record with the same content. */
    method SeedDraft(call: Call) returns (reply: Reply)
      requires call.SeedDraft?
      modifies db
      ensures InPhase(call, old(db.cursor), old(db.sent), Done(reply))
    {
      hide NextRow, ToRecord, BuildTx;
      ghost var start, before := db.cursor, db.sent;
      if Trim(call.subject) == "" {
        return Failed(MissingSubject);
      }
      if !scope.acceptsDraft(call.doc) {
        return Failed(InvalidDocument);
      }
      assert InPhase(call, start, before,
                     TryWrite(scope, SeedingDraft(true), 0, None, Author(call.doc, Trim(call.subject), call.now)));
      hide InPhase;
      var draft := CreateInitialSoulDraft(call, call.now, SeedingDraft(true), 0, start, before);
      if draft.Success? {
        return Ok(draft.record, true);
      }
      if draft.Failure? {
        return Failed(draft.error);
      }
      var result := Get(call, start, before, Reread(SeedingDraft(false), 0));
      if result.Failure? {
        return Failed(result.error);
      }
      reply := if scope.same(result.record.document, call.doc) then Ok(result.record, false) else Failed(Differs);
    }
  }

  /** A record, ErrContentConflict, or any other error. */
  datatype Result = Success(record: Record) | Conflict(error: Error) | Failure(error: Error)
}
