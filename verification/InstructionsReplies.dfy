/** What the replies to instructions calls mean, in every run and for a call that nobody disturbs. */
module InstructionsReplies {
  import opened Wrappers
  import opened ContentKeys
  import opened Text
  import opened Instructions
  import opened InstructionsWorld
  import Utf8

  /** Client c has written nothing. */
  ghost predicate WroteNothing(log: seq<Entry>, c: nat) { forall i :: 0 <= i < |log| ==> log[i].client != c }

  /** Commit i is the one write of client c. */
  ghost predicate WroteOnce(log: seq<Entry>, c: nat, i: nat) {
    i < |log| && forall j :: 0 <= j < |log| ==> (log[j].client == c <==> j == i)
  }

  /** This record is a row that was stored at some time, its subject trimmed. */
  ghost predicate WasStored(base: Option<Row>, log: seq<Entry>, record: Row) {
    exists i: nat :: i <= |log| && ShownAt(base, log, i, record)
  }

  ghost predicate ShownAt(base: Option<Row>, log: seq<Entry>, i: nat, record: Row)
    requires i <= |log|
  {
    Snap(base, log, i).Some? && Shows(record, Snap(base, log, i).value)
  }

  ghost predicate Shows(record: Row, row: Row) {
    && record.content == row.content && record.version == row.version && record.state == row.state
    && record.createdAt == row.createdAt && record.updatedAt == row.updatedAt && record.updatedBy == Trim(row.updatedBy)
  }

  /** The write of this call, as its row shows it. */
  ghost predicate Wrote(call: Call, e: Entry, record: Row) {
    && Shows(record, e.row) && record.updatedAt == call.now && record.updatedBy == Trim(call.subject)
    && (if call.Archive? then e.op.Retire? && record.state == Archived
        else e.op.Write? && record.state == Draft && record.content == call.content)
  }

  ghost predicate Answered(base: Option<Row>, log: seq<Entry>, c: nat, call: Call, reply: Reply) {
    match reply
    case Ok(record, created) =>
      if call.Seed? && !created then WroteNothing(log, c) && WasStored(base, log, record)
      else
        && (created <==> call.Seed?)
        && exists i: nat :: WroteOnce(log, c, i) && Wrote(call, log[i], record) && (created ==> i == 0 && base == None)
    case Failed(error) =>
      WroteNothing(log, c) || (error == StoreError && exists i: nat :: WroteOnce(log, c, i))
  }

  ghost predicate Tally(base: Option<Row>, log: seq<Entry>, c: nat, client: Client) {
    match client.phase
    case Done(reply) => Answered(base, log, c, client.call, reply)
    case _ => WroteNothing(log, c)
  }

  ghost predicate TallyAt(w: World, c: nat) { if c in w.clients then Tally(w.base, w.log, c, w.clients[c]) else WroteNothing(w.log, c) }

  lemma WasStoredGrows(base: Option<Row>, log: seq<Entry>, e: Entry, record: Row)
    requires WasStored(base, log, record)
    ensures WasStored(base, log + [e], record)
  {
    var i: nat :| i <= |log| && ShownAt(base, log, i, record);
    SnapAppend(base, log, e);
    assert ShownAt(base, log + [e], i, record);
  }

  /** A commit of somebody else changes nothing that is said of c. */
  lemma TallyGrows(base: Option<Row>, log: seq<Entry>, e: Entry, c: nat, client: Client)
    requires Tally(base, log, c, client) && e.client != c
    ensures Tally(base, log + [e], c, client)
  {
    hide Shows;
    if client.phase.Done? {
      var reply := client.phase.reply;
      if reply.Ok? && client.call.Seed? && !reply.created {
        WasStoredGrows(base, log, e, reply.record);
      } else if !WroteNothing(log, c) {
        var i: nat :| WroteOnce(log, c, i) && (reply.Ok? ==>
          Wrote(client.call, log[i], reply.record) && (reply.created ==> i == 0 && base == None));
        assert WroteOnce(log + [e], c, i) && (log + [e])[i] == log[i];
      }
    }
  }

  lemma RecordShows(row: Row)
    requires row.state != Published
    ensures ToRecord(row).Some? && Shows(ToRecord(row).value, row)
  {
  }

  lemma LoadedShows(row: Row)
    requires ToRecord(row).Some?
    ensures Shows(ToRecord(row).value, row)
  {
  }

  /** The row of a commit shows what the call meant. */
  lemma CommitShows(w: World, c: nat)
    requires c in w.clients && CommitOf(w, c).Some?
    ensures var e := CommitOf(w, c).value;
      ToRecord(e.row).Some? && Wrote(w.clients[c].call, e, ToRecord(e.row).value) && e.client == c
      && (w.clients[c].phase.Creating? ==> w.row == None && e.row == Created(OpOf(w.clients[c].call)) && !w.clients[c].call.Archive?)
  {
    hide Valid;
    TrimTwice(w.clients[c].call.subject);
    RecordShows(CommitOf(w, c).value.row);
  }

  /** What a committing client learns, when it is told. */
  lemma CommitLearned(w: World, c: nat)
    requires c in w.clients && CommitOf(w, c).Some? && Fits(w.clients[c].call, w.clients[c].phase)
    ensures var e := CommitOf(w, c).value;
      Next(w.clients[c].call, w.clients[c].phase, Committed(e.row))
      == Done(Ok(ToRecord(e.row).value, w.clients[c].call.Seed?))
  {
    CommitShows(w, c);
    hide ToRecord, Wrote, Shows, Valid;
  }

  lemma CommitTally(w: World, c: nat, reported: bool)
    requires Inv(w) && c in w.clients && CommitOf(w, c).Some? && TallyAt(w, c)
    ensures TallyAt(Exec(w, Send(c, reported)), c)
  {
    hide Chain, EntryOk, Valid, Next, Wrote, Shows, ToRecord, OpOf, Created, Applied;
    var e := CommitOf(w, c).value;
    assert ClientOk(w.base, w.log, w.clients[c]);
    CommitShows(w, c);
    CommitLearned(w, c);
    BrokenEnds(w.clients[c].call, w.clients[c].phase);
    EmptyLog(w);
    var later := Exec(w, Send(c, reported));
    assert later.log == w.log + [e] && later.log[|w.log|] == e;
    assert WroteOnce(later.log, c, |w.log|);
    assert later.clients[c].call == w.clients[c].call;
  }

  lemma BrokenEnds(call: Call, phase: Phase)
    requires !phase.Done?
    ensures Next(call, phase, Broken) == Done(Failed(StoreError))
  {
  }

  lemma EmptyLog(w: World)
    requires Inv(w)
    ensures w.row == None ==> w.base == None && w.log == []
  {
    hide ClientOk, EntryOk, Linked;
  }

  /** A client that learns something without a write. */
  lemma QuietTally(w: World, c: nat, answer: Answer)
    requires c in w.clients && Tally(w.base, w.log, c, w.clients[c]) && Fits(w.clients[c].call, w.clients[c].phase)
    requires !answer.Committed?
    requires answer.Found? ==> exists i: nat :: i <= |w.log| && Snap(w.base, w.log, i) == Some(answer.row)
    ensures Tally(w.base, w.log, c, Learn(w.clients[c], answer))
  {
    hide Valid, Shows, OpOf;
    var client := w.clients[c];
    if client.phase.Getting? && answer.Found? && ToRecord(answer.row).Some? {
      LoadedShows(answer.row);
      var i: nat :| i <= |w.log| && Snap(w.base, w.log, i) == Some(answer.row);
      assert ShownAt(w.base, w.log, i, ToRecord(answer.row).value);
    }
  }

  lemma ExecTally(w: World, e: Event, c: nat)
    requires Inv(w) && TallyAt(w, c)
    ensures TallyAt(Exec(w, e), c)
  {
    hide Chain, EntryOk, Tally, Next, WroteNothing, Fits;
    var later := Exec(w, e);
    if e.client != c {
      if later.log != w.log {
        var entry := later.log[|w.log|];
        OthersEntry(w, e);
        if c in w.clients {
          TallyGrows(w.base, w.log, entry, c, w.clients[c]);
        } else {
          StillNothing(w.log, entry, c);
        }
      }
    } else if e.Invoke? {
      if c !in w.clients {
        StartTally(w, c, e.call);
      }
    } else if c in w.clients {
      assert ClientOk(w.base, w.log, w.clients[c]);
      ExecOwn(w, e, c);
    }
  }

  lemma StartTally(w: World, c: nat, call: Call)
    requires WroteNothing(w.log, c)
    ensures Tally(w.base, w.log, c, Client(call, Start(call), |w.log|))
  {
    hide Valid, WroteNothing;
  }

  lemma StillNothing(log: seq<Entry>, e: Entry, c: nat)
    requires WroteNothing(log, c) && e.client != c
    ensures WroteNothing(log + [e], c)
  {
  }

  lemma OthersEntry(w: World, e: Event)
    requires Exec(w, e).log != w.log
    ensures |Exec(w, e).log| == |w.log| + 1 && Exec(w, e).log[|w.log|].client == e.client
    ensures Exec(w, e).log == w.log + [Exec(w, e).log[|w.log|]]
  {
    hide Next, OpOf, Applied, Created;
  }

  lemma ExecOwn(w: World, e: Event, c: nat)
    requires Inv(w) && TallyAt(w, c) && c in w.clients && e.client == c && !e.Invoke?
    ensures TallyAt(Exec(w, e), c)
  {
    hide Chain, EntryOk, Tally, Next, Fits, CommitOf, Snap;
    var client := w.clients[c];
    assert ClientOk(w.base, w.log, client);
    match e
    case Read(_, lag) =>
      if client.phase.Loading? || client.phase.Getting? {
        var at := if lag <= |w.log| then |w.log| - lag else 0;
        var found := Snap(w.base, w.log, at);
        var answer := if found.Some? then Found(found.value) else Absent;
        QuietTally(w, c, answer);
        SameTally(w.base, w.log, c, Learn(client, answer), at);
      }
    case Send(_, reported) =>
      if client.phase.Creating? || client.phase.Updating? {
        if CommitOf(w, c).Some? {
          CommitTally(w, c, reported);
        } else {
          QuietTally(w, c, if reported then ConditionFailed else Broken);
        }
      }
    case Break(_) => QuietTally(w, c, Broken);
  }

  lemma SameTally(base: Option<Row>, log: seq<Entry>, c: nat, client: Client, at: nat)
    requires Tally(base, log, c, client)
    ensures Tally(base, log, c, client.(readAt := at))
  {
    hide Answered;
  }

  lemma {:induction false} RunTally(w: World, events: seq<Event>, c: nat)
    requires Inv(w) && TallyAt(w, c)
    ensures TallyAt(Run(w, events), c)
    decreases |events|
  {
    hide Inv, Exec, TallyAt;
    if events != [] {
      ExecInv(w, events[0]);
      ExecTally(w, events[0], c);
      RunTally(Exec(w, events[0]), events[1..], c);
    }
  }

  /**
   In every run: an upsert or archive that replies Ok committed exactly one write and returns its row. A seed
   that replies created committed exactly the first row of an absent record and returns it; one that replies
   Ok without committed nothing and returns a stored row. A failure committed nothing, unless the reply was lost.
   */
  lemma Replies(base: Option<Row>, events: seq<Event>, c: nat)
    ensures var w := Run(Initial(base), events);
      c in w.clients && w.clients[c].phase.Done? ==> Answered(base, w.log, c, w.clients[c].call, w.clients[c].phase.reply)
  {
    hide Exec, Inv, Answered;
    InitialInv(base);
    RunInv(Initial(base), events);
    RunTally(Initial(base), events, c);
  }

  ghost predicate ReportsCreated(w: World, c: nat) {
    && c in w.clients && w.clients[c].call.Seed? && w.clients[c].phase.Done?
    && w.clients[c].phase.reply.Ok? && w.clients[c].phase.reply.created
  }

  /** A finished seed whose reply was not lost reports created exactly when the first commit is its own. */
  lemma CreatedIff(base: Option<Row>, events: seq<Event>, c: nat)
    ensures var w := Run(Initial(base), events);
      c in w.clients && w.clients[c].call.Seed? && w.clients[c].phase.Done? && w.clients[c].phase.reply != Failed(StoreError) ==>
        (ReportsCreated(w, c) <==> |w.log| > 0 && w.log[0].client == c)
  {
    hide Exec, Inv, Wrote, WasStored;
    Replies(base, events, c);
  }

  /** At most one seed reports created. */
  lemma CreatedOnce(base: Option<Row>, events: seq<Event>, c: nat, d: nat)
    ensures var w := Run(Initial(base), events); ReportsCreated(w, c) && ReportsCreated(w, d) ==> c == d
  {
    hide Exec, Inv, Wrote, WasStored;
    Replies(base, events, c);
    Replies(base, events, d);
  }

  // ---- a call that nobody disturbs ----

  /** A call that begins, sends, reads the stored row and sends again, as far as it needs to. */
  function Undisturbed(w: World, c: nat, call: Call): World {
    Exec(Exec(Exec(Exec(w, Invoke(c, call)), Send(c, true)), Read(c, 0)), Send(c, true))
  }

  ghost predicate Ends(last: World, c: nat, row: Option<Row>, commits: nat, reply: Reply) {
    last.row == row && |last.log| == commits && c in last.clients && last.clients[c].phase == Done(reply)
  }

  predicate Acceptable(call: Call) {
    Trim(call.subject) != "" && (call.Archive? || |Utf8.Encode(call.content)| <= 65536)
  }

  function Plain(row: Row): Row {
    Row(row.content, row.version, row.state, row.createdAt, row.updatedAt, Trim(row.updatedBy))
  }

  /** The table and the reply afterwards, by the stored row. */
  ghost predicate Outcome(w: World, last: World, c: nat, call: Call) {
    var n, subject := |w.log|, Trim(call.subject);
    if !Acceptable(call) then Ends(last, c, w.row, n, Failed(InvalidInput))
    else
      match w.row
      case None =>
        if call.Archive? then Ends(last, c, None, n, Failed(NotFound))
        else
          var row := Row(call.content, 1, Draft, call.now, call.now, subject);
          Ends(last, c, Some(row), n + 1, Ok(row, call.Seed?))
      case Some(old_) =>
        if old_.state == Published then Ends(last, c, w.row, n, Failed(Unloadable))
        else
          match call
          case Seed(_, _, _) => Ends(last, c, w.row, n, Ok(Plain(old_), false))
          case Upsert(content, _, now) =>
            var row := Row(content, old_.version + 1, Draft, old_.createdAt, now, subject);
            Ends(last, c, Some(row), n + 1, Ok(row, false))
          case Archive(_, now) =>
            var row := Row(old_.content, old_.version, Archived, old_.createdAt, now, subject);
            Ends(last, c, Some(row), n + 1, Ok(row, false))
  }

  lemma UndisturbedAbsent(w: World, c: nat, call: Call)
    requires c !in w.clients && w.row == None && Snap(w.base, w.log, |w.log|) == None
    ensures Outcome(w, Undisturbed(w, c, call), c, call)
  {
    hide Trim, Utf8.Encode;
    TrimTwice(call.subject);
  }

  lemma UndisturbedStored(w: World, c: nat, call: Call)
    requires c !in w.clients && w.row.Some? && Snap(w.base, w.log, |w.log|) == w.row
    ensures Outcome(w, Undisturbed(w, c, call), c, call)
  {
    hide Trim, Utf8.Encode, Snap;
    TrimTwice(call.subject);
    var w2 := Exec(Exec(w, Invoke(c, call)), Send(c, true));
    assert w2.log == w.log && w2.row == w.row && w2.base == w.base;
  }

  /** An undisturbed call creates, updates, archives, returns what is there, or is refused, exactly by the stored row. */
  lemma UndisturbedOutcome(w: World, c: nat, call: Call)
    requires Inv(w) && c !in w.clients
    ensures Outcome(w, Undisturbed(w, c, call), c, call)
  {
    hide Undisturbed, Outcome, Chain, EntryOk, ClientOk;
    if w.row.None? {
      UndisturbedAbsent(w, c, call);
    } else {
      UndisturbedStored(w, c, call);
    }
  }
}
