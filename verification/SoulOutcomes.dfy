/**
 What a finished call of the soul store may conclude from its reply: how many writes it committed, what
 the returned record is, and, with consistent reads, why it ran out of attempts.
 */
module SoulOutcomes {
  import opened Wrappers
  import opened ContentKeys
  import opened SoulDocument
  import opened SoulRows
  import opened SoulClients
  import opened SoulWorld

  // ---- how often a call commits ----

  /** The writes of call c in the log: author writes or lifecycle transitions. */
  function Own(log: seq<Entry>, c: nat, author: bool): nat {
    if log == [] then 0
    else
      var e := log[|log| - 1];
      Own(log[..|log| - 1], c, author) + if e.client == c && e.op.Author? == author then 1 else 0
  }

  function Count(b: bool): nat { if b then 1 else 0 }

  /** A reply of one of these kinds is given only before the last write of a call. */
  predicate BeforeLastWrite(error: Error) {
    error in {MissingSubject, InvalidDocument, RewriteRequired, InvalidTransition, Exhausted, SourceChanged, Differs}
  }

  /** authored and moved count the writes a call has committed so far, phase by phase. */
  ghost predicate Tally(call: Call, phase: Phase, authored: nat, moved: nat) {
    match phase
    case Done(Ok(_, created)) =>
      && moved <= 1 && authored == Count(call.UpsertSoul? || created)
      && (moved == 1 ==> !call.UpsertSoul? && !call.SeedDraft?)
      && (created ==> call.SeedPublished? || call.SeedDraft?)
    case Done(Failed(error)) =>
      && authored <= 1 && moved <= 1
      && (authored == 1 ==> !call.Publish? && !call.Archive?) && (moved == 1 ==> !call.UpsertSoul? && !call.SeedDraft?)
      && (BeforeLastWrite(error) ==> moved == 0 && (authored == 1 ==> call.SeedPublished?))
    case Reread(frame, _) =>
      authored == Count(Created(frame) || frame.Upserting? || frame.Seeding?) && moved == Count(frame.Transitioning?)
    case _ => authored == Count(Created(phase.frame) && !phase.frame.SeedingDraft?) && moved == 0
  }

  lemma ConflictTally(scope: Scope, call: Call, phase: Phase, authored: nat)
    requires WellFormed(scope, call, phase) && phase.Write? && Tally(call, phase, authored, 0)
    ensures Tally(call, Next(scope, call, phase, ConditionFailed), authored, 0)
  {
    hide NextRow;
  }

  lemma BrokenTally(scope: Scope, call: Call, phase: Phase, authored: nat, moved: nat)
    requires WellFormed(scope, call, phase) && Tally(call, phase, authored, moved)
    ensures Tally(call, Next(scope, call, phase, Broken), authored, moved)
  {
    hide NextRow;
  }

  lemma LoadTally(scope: Scope, call: Call, frame: Frame, attempt: nat, found: Option<Row>, now: int, authored: nat)
    requires WellFormed(scope, call, Load(frame, attempt)) && Tally(call, Load(frame, attempt), authored, 0)
    ensures Tally(call, AfterLoad(scope, call, frame, attempt, found, now), authored, 0)
  {
    hide NextRow, ToRecord;
  }

  lemma RereadTally(scope: Scope, call: Call, frame: Frame, attempt: nat, found: Option<Row>, authored: nat, moved: nat)
    requires WellFormed(scope, call, Reread(frame, attempt)) && Tally(call, Reread(frame, attempt), authored, moved)
    ensures Tally(call, AfterReread(scope, call, frame, attempt, found), authored, moved)
  {
    hide NextRow, ToRecord;
  }

  /** A write that is committed is counted by the next phase, whether or not the client learns of it. */
  lemma CommitTally(scope: Scope, call: Call, phase: Phase, answer: Answer, authored: nat, moved: nat)
    requires WellFormed(scope, call, phase) && phase.Write? && Tally(call, phase, authored, moved)
    requires answer == Committed || answer == Broken
    requires phase.frame.Seeding? ==> !phase.frame.created
    ensures Tally(call, Next(scope, call, phase, answer),
                  authored + Count(phase.op.Author?), moved + Count(!phase.op.Author?))
  {
    hide NextRow;
  }

  lemma QuietTally(scope: Scope, call: Call, phase: Phase, answer: Answer, authored: nat, moved: nat)
    requires WellFormed(scope, call, phase) && Tally(call, phase, authored, moved)
    requires answer == Broken || (phase.Write? && answer == ConditionFailed)
          || ((phase.Load? || phase.Reread?) && (answer.Found? || answer.Absent?))
    ensures Tally(call, Next(scope, call, phase, answer), authored, moved)
  {
    hide NextRow, AfterLoad, AfterReread, WellFormed, AfterConflict;
    if answer == Broken {
      BrokenTally(scope, call, phase, authored, moved);
    } else if phase.Write? {
      ConflictTally(scope, call, phase, authored);
    } else if phase.Load? {
      LoadTally(scope, call, phase.frame, phase.attempt, FoundIn(answer), answer.now, authored);
    } else {
      RereadTally(scope, call, phase.frame, phase.attempt, FoundIn(answer), authored, moved);
    }
  }

  /** Every call accounts for its writes, and calls not started yet have none. */
  ghost predicate Accounts(w: World) {
    forall c :: c in w.clients ==> Tally(w.clients[c].call, w.clients[c].phase, Own(w.log, c, true), Own(w.log, c, false))
  }

  lemma {:induction false} OwnNone(log: seq<Entry>, c: nat, author: bool)
    requires forall i :: 0 <= i < |log| ==> log[i].client != c
    ensures Own(log, c, author) == 0
  {
    if log != [] {
      OwnNone(log[..|log| - 1], c, author);
    }
  }

  lemma {:induction false} OwnSome(log: seq<Entry>, c: nat, author: bool) returns (i: nat)
    requires Own(log, c, author) > 0
    ensures i < |log| && log[i].client == c && log[i].op.Author? == author
  {
    i := |log| - 1;
    if log[i].client != c || log[i].op.Author? != author {
      i := OwnSome(log[..|log| - 1], c, author);
    }
  }

  lemma OwnAppended(w: World, later: World, writer: nat, c: nat, author: bool)
    requires AppendedBy(w, later, writer)
    ensures Own(later.log, c, author)
      == Own(w.log, c, author) + Count(writer == c && w.clients[writer].phase.op.Author? == author)
  {
    assert later.log[..|later.log| - 1] == w.log;
  }

  lemma StartTally(scope: Scope, call: Call)
    ensures Tally(call, Start(scope, call), 0, 0)
  {
    hide NextRow;
  }

  /** A seed that has created the draft finds the record present, so its create can only fail. */
  lemma SeedCreatesOnce(scope: Scope, w: World, c: nat)
    requires Inv(scope, w) && Accounts(w)
    requires c in w.clients && w.clients[c].phase.Write? && w.clients[c].phase.source == w.table.current
    ensures w.clients[c].phase.frame.Seeding? ==> !w.clients[c].phase.frame.created
  {
    hide NextRow, Chain, HistoryOf, EntryOf, BoundTo;
    var client := w.clients[c];
    assert ClientOk(scope, w.base, w.log, client);
    if client.phase.frame.Seeding? && client.phase.frame.created {
      var i := OwnSome(w.log, c, true);
    }
  }

  lemma StepAccounts(scope: Scope, w: World, later: World, c: nat, answer: Answer, at: nat, committed: bool)
    requires Inv(scope, w) && Accounts(w)
    requires c in w.clients && WellFormed(scope, w.clients[c].call, w.clients[c].phase)
    requires Steps(scope, w, later, c, answer, at, committed)
    ensures Accounts(later)
  {
    hide Tally, Inv, Next, WellFormed, NextRow, Own, IdOf, HistoryFor;
    var client := w.clients[c];
    if committed {
      SeedCreatesOnce(scope, w, c);
      CommitTally(scope, client.call, client.phase, answer, Own(w.log, c, true), Own(w.log, c, false));
    } else {
      QuietTally(scope, client.call, client.phase, answer, Own(w.log, c, true), Own(w.log, c, false));
    }
    forall d | d in later.clients
      ensures Tally(later.clients[d].call, later.clients[d].phase, Own(later.log, d, true), Own(later.log, d, false))
    {
      if committed {
        OwnAppended(w, later, c, d, true);
        OwnAppended(w, later, c, d, false);
      }
    }
  }

  lemma ExecAccounts(scope: Scope, w: World, e: Event)
    requires Inv(scope, w) && Accounts(w)
    ensures ClientsOk(scope, w) && Accounts(Exec(scope, w, e))
  {
    hide Tally, Exec, Next, WellFormed, NextRow, Own, Steps, Chain, HistoryOf, EntryOf, ClientOk;
    var answer, at, committed := ExecSteps(scope, w, e);
    var later := Exec(scope, w, e);
    if later != w {
      if e.client in w.clients {
        StepAccounts(scope, w, later, e.client, answer, at, committed);
      } else {
        StartTally(scope, e.call);
        OwnNone(w.log, e.client, true);
        OwnNone(w.log, e.client, false);
      }
    }
  }

  // ---- what a returned record is ----

  /** A returned record is the row of one committed state, as toRecord reads it. */
  ghost predicate Returned(scope: Scope, base: Option<Row>, log: seq<Entry>, client: Client) {
    client.phase.Done? && client.phase.reply.Ok? ==>
      && client.readAt <= |log| && Snap(base, log, client.readAt).Some?
      && ToRecord(scope, Snap(base, log, client.readAt).value) == Some(client.phase.reply.record)
  }

  /** What success means when the call itself committed no transition: the wanted state was already there. */
  ghost predicate Meant(scope: Scope, call: Call, phase: Phase, moved: nat) {
    phase.Done? && phase.reply.Ok? && moved == 0 ==>
      var record := phase.reply.record;
      match call
      case UpsertSoul(_, _, _) => true
      case Publish(_) => record.state == Published
      case Archive(_) => record.state == Archived
      case SeedPublished(doc, _) => record.state == Published && scope.same(record.document, doc)
      case SeedDraft(doc, _, _) => phase.reply.created || scope.same(record.document, doc)
  }

  /** The content a bound publish compared is the content of every row of that version. */
  ghost predicate Compared(scope: Scope, call: Call, frame: Frame, found: Row) {
    frame.Transitioning? && frame.outer.Some? && call.SeedPublished? && found.version == frame.expected ==>
      Matches(scope, found, call.doc)
  }

  lemma ReturnedByCompare(scope: Scope, call: Call, attempt: nat, created: bool, record: Record, moved: nat)
    requires call.SeedPublished?
    ensures var after := Compare(scope, call.doc, attempt, created, record);
      after.Done? && after.reply.Ok? ==> after.reply.record == record && Meant(scope, call, after, moved)
  {
  }

  lemma ReturnedByLoad(scope: Scope, call: Call, frame: Frame, attempt: nat, found: Option<Row>, now: int)
    requires Running(scope, call, frame, attempt) && (found.Some? ==> Compared(scope, call, frame, found.value))
    ensures var after := AfterLoad(scope, call, frame, attempt, found, now);
      after.Done? && after.reply.Ok? ==>
        found.Some? && ToRecord(scope, found.value) == Some(after.reply.record) && Meant(scope, call, after, 0)
  {
    hide NextRow, DocumentOf, Compare;
    match frame
    case Seeding(created) =>
      hide ToRecord;
      if found.Some? && ToRecord(scope, found.value).Some? {
        ReturnedByCompare(scope, call, attempt, created, ToRecord(scope, found.value).value, 0);
      }
    case Transitioning(to, _, _) =>
      hide Meant;
      TransitionReturned(scope, call, frame, attempt, found, now);
    case _ =>
  }

  lemma TransitionReturned(scope: Scope, call: Call, frame: Frame, attempt: nat, found: Option<Row>, now: int)
    requires Running(scope, call, frame, attempt) && (found.Some? ==> Compared(scope, call, frame, found.value))
    requires frame.Transitioning?
    ensures var after := AfterLoad(scope, call, frame, attempt, found, now);
      after.Done? && after.reply.Ok? ==>
        found.Some? && ToRecord(scope, found.value) == Some(after.reply.record) && Meant(scope, call, after, 0)
  {
    hide NextRow, DocumentOf, Compare;
  }

  lemma ReturnedByReread(scope: Scope, call: Call, frame: Frame, attempt: nat, found: Option<Row>, moved: nat)
    requires Running(scope, call, frame, attempt) && (frame.Transitioning? ==> moved > 0)
    ensures var after := AfterReread(scope, call, frame, attempt, found);
      after.Done? && after.reply.Ok? ==>
        found.Some? && ToRecord(scope, found.value) == Some(after.reply.record) && Meant(scope, call, after, moved)
  {
    hide NextRow, DocumentOf;
  }

  lemma NotReturned(scope: Scope, call: Call, phase: Phase, answer: Answer)
    requires WellFormed(scope, call, phase) && !phase.Done?
    requires answer.Broken? || (phase.Write? && (answer.Committed? || answer.ConditionFailed?))
    ensures var after := Next(scope, call, phase, answer); after.Done? ==> !after.reply.Ok?
  {
    hide NextRow, AfterLoad, AfterReread;
  }

  ghost predicate Honest(scope: Scope, w: World) {
    forall c :: c in w.clients ==>
      Returned(scope, w.base, w.log, w.clients[c]) && Meant(scope, w.clients[c].call, w.clients[c].phase, Own(w.log, c, false))
  }

  lemma ReadHonest(scope: Scope, base: Option<Row>, log: seq<Entry>, client: Client, answer: Answer, at: nat,
                   authored: nat, moved: nat)
    requires Lawful(scope) && ClientOk(scope, base, log, client) && at <= |log|
    requires client.phase.Load? || client.phase.Reread?
    requires (answer.Found? || answer.Absent?) && FoundIn(answer) == Snap(base, log, at)
    requires Tally(client.call, client.phase, authored, moved)
    ensures var after := Learn(scope, client, answer).(readAt := at);
      Returned(scope, base, log, after) && Meant(scope, client.call, after.phase, moved)
  {
    hide NextRow, ToRecord, AfterLoad, AfterReread, Meant;
    if client.phase.Load? {
      if Bound(client.phase) {
        assert BoundTo(scope, base, log, client.phase.frame.expected, client.call.doc);
      }
      ReturnedByLoad(scope, client.call, client.phase.frame, client.phase.attempt, FoundIn(answer), answer.now);
    } else {
      ReturnedByReread(scope, client.call, client.phase.frame, client.phase.attempt, FoundIn(answer), moved);
    }
    NotDoneMeant(scope, client.call, Next(scope, client.call, client.phase, answer), moved);
  }

  lemma NotDoneMeant(scope: Scope, call: Call, phase: Phase, moved: nat)
    ensures !phase.Done? || !phase.reply.Ok? ==> Meant(scope, call, phase, moved)
  {
  }

  lemma OwnHonest(scope: Scope, w: World, later: World, c: nat, answer: Answer, at: nat, committed: bool)
    requires Inv(scope, w) && Accounts(w) && Honest(scope, w)
    requires c in w.clients && WellFormed(scope, w.clients[c].call, w.clients[c].phase)
    requires Steps(scope, w, later, c, answer, at, committed)
    ensures Returned(scope, later.base, later.log, later.clients[c])
    ensures Meant(scope, later.clients[c].call, later.clients[c].phase, Own(later.log, c, false))
  {
    hide NextRow, Next, Chain, HistoryOf, EntryOf, ClientOk, IdOf, HistoryFor, Own, Meant, Tally, Returned;
    var client := w.clients[c];
    var moved := Own(w.log, c, false);
    if answer.Found? || answer.Absent? {
      ReadHonest(scope, w.base, w.log, client, answer, at, Own(w.log, c, true), moved);
    } else if client.phase.Done? {
      DoneLearns(scope, client, answer);
    } else {
      NotReturned(scope, client.call, client.phase, answer);
      NothingReturned(scope, later.base, later.log, later.clients[c], Own(later.log, c, false));
    }
  }

  lemma NothingReturned(scope: Scope, base: Option<Row>, log: seq<Entry>, client: Client, moved: nat)
    requires client.phase.Done? ==> !client.phase.reply.Ok?
    ensures Returned(scope, base, log, client) && Meant(scope, client.call, client.phase, moved)
  {
  }

  lemma DoneLearns(scope: Scope, client: Client, answer: Answer)
    requires client.phase.Done?
    ensures Learn(scope, client, answer) == client
  {
  }

  lemma ReturnedStays(scope: Scope, base: Option<Row>, log: seq<Entry>, later: seq<Entry>, client: Client)
    requires log <= later && Returned(scope, base, log, client)
    ensures Returned(scope, base, later, client)
  {
    hide ToRecord;
  }

  lemma ExecHonest(scope: Scope, w: World, e: Event)
    requires Inv(scope, w) && Accounts(w) && Honest(scope, w)
    ensures ClientsOk(scope, w) && Honest(scope, Exec(scope, w, e))
  {
    hide Inv, Exec, Next, WellFormed, NextRow, IdOf, HistoryFor, Start, Own, Meant, Returned, Tally;
    var answer, at, committed := ExecSteps(scope, w, e);
    var later := Exec(scope, w, e);
    if later != w {
      if e.client !in w.clients {
        StartReturns(scope, e.call);
        NothingReturned(scope, w.base, w.log, later.clients[e.client], Own(w.log, e.client, false));
      } else {
        OwnHonest(scope, w, later, e.client, answer, at, committed);
        forall d | d in later.clients && d != e.client
          ensures Returned(scope, later.base, later.log, later.clients[d])
          ensures Meant(scope, later.clients[d].call, later.clients[d].phase, Own(later.log, d, false))
        {
          assert later.clients[d] == w.clients[d];
          ReturnedStays(scope, w.base, w.log, later.log, w.clients[d]);
          if committed {
            OwnAppended(w, later, e.client, d, false);
          }
        }
      }
    }
  }

  lemma StartReturns(scope: Scope, call: Call)
    ensures Start(scope, call).Done? ==> !Start(scope, call).reply.Ok?
  {
    hide NextRow;
  }

  lemma {:induction false} RunHonest(scope: Scope, w: World, events: seq<Event>)
    requires Inv(scope, w) && Accounts(w) && Honest(scope, w)
    ensures Accounts(Run(scope, w, events)) && Honest(scope, Run(scope, w, events))
    decreases |events|
  {
    hide Inv, Exec, Accounts, Honest;
    if events != [] {
      ExecInv(scope, w, events[0]);
      ExecAccounts(scope, w, events[0]);
      ExecHonest(scope, w, events[0]);
      RunHonest(scope, Exec(scope, w, events[0]), events[1..]);
    }
  }

  /**
   What a finished call knows, even when its reads were stale. A success returns one committed state;
   an upsert has committed exactly one draft, a seed exactly one draft if it reports created, and no call
   commits two transitions. A success without a transition found the wanted state, or the same content,
   already there. A conflict or a refusal means that nothing was committed, except for the draft of a seed.
   */
  lemma Replies(scope: Scope, base: Option<Row>, events: seq<Event>, c: nat)
    requires Lawful(scope) && BaseOk(scope, base)
    ensures Inv(scope, Initial(base))
    ensures var w := Run(scope, Initial(base), events);
      c in w.clients ==>
        && Returned(scope, w.base, w.log, w.clients[c])
        && Tally(w.clients[c].call, w.clients[c].phase, Own(w.log, c, true), Own(w.log, c, false))
        && Meant(scope, w.clients[c].call, w.clients[c].phase, Own(w.log, c, false))
  {
    hide Returned, Tally, Meant, Own, Chain, HistoryOf;
    InitialInv(scope, base);
    RunHonest(scope, Initial(base), events);
  }
}
