/**
 Any number of clients over one agent_instructions record, interleaved step by step, with stale reads, lost
 replies and crashes. The log is ghost history: every committed write, with the row its client had read.
 */
module InstructionsWorld {
  import opened Wrappers
  import opened ContentKeys
  import opened Text
  import opened Instructions

  /** seen is the row an update was based on, and seenAt the log position it was read at; a create has seen none. */
  datatype Entry = Entry(client: nat, op: Op, seen: Option<Row>, seenAt: nat, row: Row)

  datatype Client = Client(call: Call, phase: Phase, readAt: nat)

  datatype World = World(base: Option<Row>, row: Option<Row>, log: seq<Entry>, clients: map<nat, Client>)

  /** A read answers with the state lag commits ago; a write may be applied without its client learning so. */
  datatype Event = Invoke(client: nat, call: Call) | Read(client: nat, lag: nat) | Send(client: nat, reported: bool) | Break(client: nat)

  function Snap(base: Option<Row>, log: seq<Entry>, i: nat): Option<Row>
    requires i <= |log|
  {
    if i == 0 then base else Some(log[i - 1].row)
  }

  function Learn(client: Client, answer: Answer): Client { client.(phase := Next(client.call, client.phase, answer)) }

  /** The write of this client, when the table accepts it. */
  function CommitOf(w: World, c: nat): Option<Entry>
    requires c in w.clients
  {
    var client := w.clients[c];
    var op := OpOf(client.call);
    match client.phase
    case Creating => if w.row.None? && op.Write? then Some(Entry(c, op, None, |w.log|, Created(op))) else None
    case Updating(_, source) =>
      if w.row.Some? && w.row.value.version == source.version
      then Some(Entry(c, op, Some(source), client.readAt, Applied(op, w.row.value))) else None
    case _ => None
  }

  function Exec(w: World, e: Event): World {
    if e.Invoke? then
      if e.client in w.clients then w
      else w.(clients := w.clients[e.client := Client(e.call, Start(e.call), |w.log|)])
    else if e.client !in w.clients then w
    else
      var client := w.clients[e.client];
      match e
      case Read(c, lag) =>
        if !client.phase.Loading? && !client.phase.Getting? then w
        else
          var at := if lag <= |w.log| then |w.log| - lag else 0;
          var found := Snap(w.base, w.log, at);
          w.(clients := w.clients[c := Learn(client, if found.Some? then Found(found.value) else Absent).(readAt := at)])
      case Send(c, reported) =>
        if !client.phase.Creating? && !client.phase.Updating? then w
        else
          (match CommitOf(w, c)
           case None => w.(clients := w.clients[c := Learn(client, if reported then ConditionFailed else Broken)])
           case Some(entry) =>
             World(w.base, Some(entry.row), w.log + [entry],
                   w.clients[c := Learn(client, if reported then Committed(entry.row) else Broken)]))
      case Break(c) => w.(clients := w.clients[c := Learn(client, Broken)])
  }

  function Run(w: World, events: seq<Event>): World
    decreases |events|
  {
    if events == [] then w else Run(Exec(w, events[0]), events[1..])
  }

  function Initial(base: Option<Row>): World { World(base, base, [], map[]) }

  // ---- the invariant ----

  /** A create found nothing; an update found the version it was based on, and changed the row that was there. */
  ghost predicate Linked(base: Option<Row>, log: seq<Entry>, i: nat)
    requires i < |log|
  {
    var e, before := log[i], Snap(base, log, i);
    match e.seen
    case None => before.None? && e.op.Write? && e.row == Created(e.op)
    case Some(source) =>
      && e.seenAt <= i && Snap(base, log, e.seenAt) == e.seen
      && before.Some? && before.value.version == source.version && e.row == Applied(e.op, before.value)
  }

  ghost predicate Chain(base: Option<Row>, log: seq<Entry>) { forall i :: 0 <= i < |log| ==> Linked(base, log, i) }

  ghost predicate ClientOk(base: Option<Row>, log: seq<Entry>, client: Client) {
    && Fits(client.call, client.phase) && client.readAt <= |log|
    && (client.phase.Updating? ==> Snap(base, log, client.readAt) == Some(client.phase.source))
  }

  /** Clients write their own op, and a seed does nothing but create. */
  ghost predicate EntryOk(clients: map<nat, Client>, e: Entry) {
    && e.client in clients && e.op == OpOf(clients[e.client].call)
    && (clients[e.client].call.Seed? ==> e.seen.None?)
  }

  ghost predicate Inv(w: World) {
    && w.row == Snap(w.base, w.log, |w.log|) && Chain(w.base, w.log)
    && (forall c :: c in w.clients ==> ClientOk(w.base, w.log, w.clients[c]))
    && (forall i :: 0 <= i < |w.log| ==> EntryOk(w.clients, w.log[i]))
  }

  lemma NextFits(call: Call, phase: Phase, answer: Answer)
    requires Fits(call, phase)
    ensures Fits(call, Next(call, phase, answer))
    ensures Next(call, phase, answer).Updating? ==> phase == Next(call, phase, answer) || answer == Found(Next(call, phase, answer).source)
    ensures phase.Updating? ==> !Next(call, phase, answer).Updating?
  {
    hide ToRecord, OpOf, Valid;
  }

  lemma StartFits(call: Call)
    ensures Fits(call, Start(call)) && !Start(call).Updating?
  {
    hide Valid;
  }

  lemma SnapAppend(base: Option<Row>, log: seq<Entry>, e: Entry)
    ensures forall i: nat :: i <= |log| ==> Snap(base, log + [e], i) == Snap(base, log, i)
  {
  }

  lemma ChainAppend(base: Option<Row>, log: seq<Entry>, e: Entry)
    requires Chain(base, log) && Linked(base, log + [e], |log|)
    ensures Chain(base, log + [e])
  {
    SnapAppend(base, log, e);
    forall i | 0 <= i < |log + [e]| ensures Linked(base, log + [e], i) {
      if i < |log| {
        assert Linked(base, log, i) && (log + [e])[i] == log[i];
      }
    }
  }

  /** One client learns something, and nothing is written. */
  lemma QuietStep(w: World, c: nat, client: Client)
    requires Inv(w) && ClientOk(w.base, w.log, client) && (c in w.clients ==> client.call == w.clients[c].call)
    ensures Inv(w.(clients := w.clients[c := client]))
  {
    hide Chain, ClientOk;
  }

  lemma CommitLinked(w: World, c: nat)
    requires Inv(w) && c in w.clients && CommitOf(w, c).Some?
    ensures var e := CommitOf(w, c).value; Linked(w.base, w.log + [e], |w.log|) && EntryOk(w.clients, e)
  {
    hide Valid, OpOf, Applied, Created;
    var e := CommitOf(w, c).value;
    assert ClientOk(w.base, w.log, w.clients[c]);
    SnapAppend(w.base, w.log, e);
  }

  lemma ClientGrows(base: Option<Row>, log: seq<Entry>, e: Entry, client: Client)
    requires ClientOk(base, log, client)
    ensures ClientOk(base, log + [e], client)
  {
    SnapAppend(base, log, e);
  }

  lemma CommitStep(w: World, c: nat, reported: bool)
    requires Inv(w) && c in w.clients && CommitOf(w, c).Some?
    ensures Inv(Exec(w, Send(c, reported)))
  {
    hide Chain, Linked, OpOf, Fits, Next, Snap;
    var e := CommitOf(w, c).value;
    CommitLinked(w, c);
    ChainAppend(w.base, w.log, e);
    var answer := if reported then Committed(e.row) else Broken;
    NextFits(w.clients[c].call, w.clients[c].phase, answer);
    assert ClientOk(w.base, w.log, w.clients[c]);
    LastSnap(w.base, w.log, e);
    var w' := Exec(w, Send(c, reported));
    forall d | d in w'.clients ensures ClientOk(w'.base, w'.log, w'.clients[d]) {
      var client := if d == c then Learn(w.clients[c], answer) else w.clients[d];
      LearnOk(w.base, w.log, w.clients[c], answer);
      ClientGrows(w.base, w.log, e, client);
    }
  }

  lemma LastSnap(base: Option<Row>, log: seq<Entry>, e: Entry)
    ensures Snap(base, log + [e], |log + [e]|) == Some(e.row)
  {
  }

  lemma LearnOk(base: Option<Row>, log: seq<Entry>, client: Client, answer: Answer)
    requires ClientOk(base, log, client) && !answer.Found?
    ensures ClientOk(base, log, Learn(client, answer))
  {
    hide Next, Fits, Snap;
    NextFits(client.call, client.phase, answer);
  }

  lemma ReadOk(w: World, client: Client, at: nat)
    requires ClientOk(w.base, w.log, client) && at <= |w.log| && (client.phase.Loading? || client.phase.Getting?)
    ensures var found := Snap(w.base, w.log, at);
      ClientOk(w.base, w.log, Learn(client, if found.Some? then Found(found.value) else Absent).(readAt := at))
  {
    hide Next, Fits;
    var found := Snap(w.base, w.log, at);
    var answer := if found.Some? then Found(found.value) else Absent;
    NextFits(client.call, client.phase, answer);
  }

  lemma ExecInv(w: World, e: Event)
    requires Inv(w)
    ensures Inv(Exec(w, e))
  {
    hide Chain, ClientOk, EntryOk, Snap, CommitOf, Next;
    if e.Invoke? {
      if e.client !in w.clients {
        var client := Client(e.call, Start(e.call), |w.log|);
        StartsOk(w, e.call);
        QuietStep(w, e.client, client);
      }
    } else if e.client in w.clients {
      var client := w.clients[e.client];
      assert ClientOk(w.base, w.log, client);
      match e
      case Read(c, lag) =>
        if client.phase.Loading? || client.phase.Getting? {
          var at := if lag <= |w.log| then |w.log| - lag else 0;
          var found := Snap(w.base, w.log, at);
          ReadOk(w, client, at);
          QuietStep(w, c, Learn(client, if found.Some? then Found(found.value) else Absent).(readAt := at));
        }
      case Send(c, reported) =>
        if client.phase.Creating? || client.phase.Updating? {
          if CommitOf(w, c).Some? {
            CommitStep(w, c, reported);
          } else {
            var answer := if reported then ConditionFailed else Broken;
            LearnOk(w.base, w.log, client, answer);
            QuietStep(w, c, Learn(client, answer));
          }
        }
      case Break(c) =>
        LearnOk(w.base, w.log, client, Broken);
        QuietStep(w, c, Learn(client, Broken));
    }
  }

  lemma StartsOk(w: World, call: Call)
    ensures ClientOk(w.base, w.log, Client(call, Start(call), |w.log|))
  {
    StartFits(call);
  }

  lemma {:induction false} RunInv(w: World, events: seq<Event>)
    requires Inv(w)
    ensures Inv(Run(w, events)) && Run(w, events).base == w.base
    decreases |events|
  {
    hide Inv;
    if events != [] {
      ExecInv(w, events[0]);
      RunInv(Exec(w, events[0]), events[1..]);
    }
  }

  lemma InitialInv(base: Option<Row>)
    ensures Inv(Initial(base))
  {
  }

  // ---- versions count content writes ----

  /** The writes of content among the commits lo .. hi. */
  function Writes(log: seq<Entry>, lo: nat, hi: nat): nat
    requires hi <= |log|
    decreases hi
  {
    if hi <= lo then 0 else Writes(log, lo, hi - 1) + if log[hi - 1].op.Write? then 1 else 0
  }

  lemma {:induction false} WritesSplit(log: seq<Entry>, lo: nat, mid: nat, hi: nat)
    requires lo <= mid <= hi <= |log|
    ensures Writes(log, lo, hi) == Writes(log, lo, mid) + Writes(log, mid, hi)
    decreases hi
  {
    if mid < hi {
      WritesSplit(log, lo, mid, hi - 1);
    }
  }

  function VersionOf(row: Option<Row>): int { if row.None? then 0 else row.value.version }

  lemma StepVersion(base: Option<Row>, log: seq<Entry>, i: nat)
    requires i < |log| && Linked(base, log, i)
    ensures VersionOf(Snap(base, log, i + 1)) == VersionOf(Snap(base, log, i)) + if log[i].op.Write? then 1 else 0
    ensures Snap(base, log, i).Some? && !log[i].op.Write? ==> log[i].row.content == Snap(base, log, i).value.content
    ensures Snap(base, log, i).Some? ==> log[i].row.createdAt == Snap(base, log, i).value.createdAt
    ensures log[i].row.state == if log[i].op.Write? then Draft else Archived
  {
  }

  lemma {:induction false} VersionsCount(base: Option<Row>, log: seq<Entry>, lo: nat, hi: nat)
    requires Chain(base, log) && lo <= hi <= |log|
    ensures VersionOf(Snap(base, log, hi)) == VersionOf(Snap(base, log, lo)) + Writes(log, lo, hi)
    ensures Snap(base, log, lo).Some? ==> Snap(base, log, hi).Some?
    ensures Snap(base, log, lo).Some? && Writes(log, lo, hi) == 0 ==>
      Snap(base, log, hi).value.content == Snap(base, log, lo).value.content
    ensures Snap(base, log, lo).Some? ==> Snap(base, log, hi).value.createdAt == Snap(base, log, lo).value.createdAt
    decreases hi
  {
    if lo < hi {
      VersionsCount(base, log, lo, hi - 1);
      assert Linked(base, log, hi - 1);
      hide Linked, Chain;
      StepVersion(base, log, hi - 1);
    }
  }

  /** In every run the record version counts the writes of content, archives not among them. */
  lemma VersionsCountWrites(base: Option<Row>, events: seq<Event>)
    ensures var w := Run(Initial(base), events);
      VersionOf(w.row) == VersionOf(base) + Writes(w.log, 0, |w.log|)
  {
    hide Exec, Chain, ClientOk, EntryOk;
    InitialInv(base);
    RunInv(Initial(base), events);
    var w := Run(Initial(base), events);
    VersionsCount(w.base, w.log, 0, |w.log|);
  }

  /** An update is applied exactly when no content was written since its client read the row: archives do not count. */
  lemma UpdateAppliedIff(w: World, c: nat, reported: bool)
    requires Inv(w) && c in w.clients && w.clients[c].phase.Updating?
    ensures w.clients[c].readAt <= |w.log|
    ensures |Exec(w, Send(c, reported)).log| == |w.log| + 1 <==> Writes(w.log, w.clients[c].readAt, |w.log|) == 0
  {
    hide Chain, EntryOk, CommitOf, Next, Writes, Fits;
    assert ClientOk(w.base, w.log, w.clients[c]);
    VersionsCount(w.base, w.log, w.clients[c].readAt, |w.log|);
    UpdateCommits(w, c);
  }

  lemma UpdateCommits(w: World, c: nat)
    requires c in w.clients && w.clients[c].phase.Updating?
    ensures CommitOf(w, c).Some? <==> w.row.Some? && w.row.value.version == w.clients[c].phase.source.version
  {
  }

  /**
   No write of content is lost: an update replaces the very content and version that its client had read. So
   an archive retires exactly the content it was meant for.
   */
  lemma ContentSerial(base: Option<Row>, events: seq<Event>, i: nat)
    ensures var w := Run(Initial(base), events);
      i < |w.log| && w.log[i].seen.Some? ==>
        && Snap(base, w.log, i).Some?
        && w.log[i].seen.value.content == Snap(base, w.log, i).value.content
        && w.log[i].seen.value.version == Snap(base, w.log, i).value.version
        && (w.log[i].op.Retire? ==> w.log[i].row.content == w.log[i].seen.value.content)
  {
    hide Exec, Chain, ClientOk, EntryOk;
    InitialInv(base);
    RunInv(Initial(base), events);
    var w := Run(Initial(base), events);
    if i < |w.log| && w.log[i].seen.Some? {
      ChainAt(w.base, w.log, i);
      VersionsCount(w.base, w.log, w.log[i].seenAt, i);
      StepVersion(w.base, w.log, i);
    }
  }

  lemma ChainAt(base: Option<Row>, log: seq<Entry>, i: nat)
    requires Chain(base, log) && i < |log|
    ensures Linked(base, log, i)
  {
  }

  /** A seed writes only the first row of a record that was absent. */
  lemma SeedsOnlyCreate(base: Option<Row>, events: seq<Event>, i: nat)
    ensures var w := Run(Initial(base), events);
      i < |w.log| && w.log[i].client in w.clients && w.clients[w.log[i].client].call.Seed? ==> i == 0 && base == None
  {
    hide Exec, Chain, ClientOk;
    InitialInv(base);
    RunInv(Initial(base), events);
    var w := Run(Initial(base), events);
    if i < |w.log| && w.log[i].client in w.clients && w.clients[w.log[i].client].call.Seed? {
      assert EntryOk(w.clients, w.log[i]);
      ChainAt(w.base, w.log, i);
    }
  }

  // ---- when an archive survives ----

  /** The record is archived after every commit in lo .. hi. */
  ghost predicate ArchivedFrom(base: Option<Row>, log: seq<Entry>, lo: nat, hi: nat)
    requires hi <= |log|
  {
    forall k: nat :: lo < k <= hi ==> Snap(base, log, k).Some? && Snap(base, log, k).value.state == Archived
  }

  lemma {:induction false} ArchiveStands(base: Option<Row>, log: seq<Entry>, i: nat, hi: nat)
    requires Chain(base, log) && i < hi <= |log| && log[i].op.Retire?
    ensures ArchivedFrom(base, log, i, hi) <==> Writes(log, i + 1, hi) == 0
    decreases hi
  {
    ChainAt(base, log, hi - 1);
    hide Chain, Linked;
    StepVersion(base, log, hi - 1);
    if i < hi - 1 {
      ArchiveStands(base, log, i, hi - 1);
      assert ArchivedFrom(base, log, i, hi) <==> ArchivedFrom(base, log, i, hi - 1) && log[hi - 1].row.state == Archived;
    } else {
      assert Writes(log, i + 1, hi) == 0;
    }
  }

  /** In every run an archive stands exactly as long as no content is written after it. */
  lemma ArchiveSurvivesIff(base: Option<Row>, events: seq<Event>, i: nat)
    ensures var w := Run(Initial(base), events);
      i < |w.log| && w.log[i].op.Retire? ==>
        (ArchivedFrom(base, w.log, i, |w.log|) <==> Writes(w.log, i + 1, |w.log|) == 0)
  {
    hide Exec, Chain, ClientOk, EntryOk, Linked, ArchivedFrom, Writes;
    InitialInv(base);
    RunInv(Initial(base), events);
    var w := Run(Initial(base), events);
    if i < |w.log| && w.log[i].op.Retire? {
      ArchiveStands(base, w.log, i, |w.log|);
    }
  }

  /**
   In an archived record, one step ends the archive exactly when it sends an upsert that is based on the
   archived version, whether its client read the row before the archive or after it.
   */
  lemma SurvivesStepIff(w: World, e: Event)
    requires Inv(w) && w.row.Some? && w.row.value.state == Archived
    ensures Exec(w, e).row.Some?
    ensures Exec(w, e).row.value.state == Archived <==> !Overrides(w, e)
  {
    hide Chain, ClientOk, EntryOk, Next, Snap;
    if e.Send? && e.client in w.clients {
      assert ClientOk(w.base, w.log, w.clients[e.client]);
      CallFits(w, e.client);
    }
  }

  ghost predicate Overrides(w: World, e: Event) {
    && e.Send? && e.client in w.clients && w.clients[e.client].call.Upsert? && w.clients[e.client].phase.Updating?
    && w.row.Some? && w.clients[e.client].phase.source.version == w.row.value.version
  }

  lemma CallFits(w: World, c: nat)
    requires c in w.clients && ClientOk(w.base, w.log, w.clients[c])
    ensures w.clients[c].phase.Updating? ==> !w.clients[c].call.Seed?
  {
  }

  /** Client c has read the row before commit i, and goes on to write over it. */
  ghost predicate Blind(w: World, i: nat, j: nat)
    requires i < j < |w.log|
  {
    w.log[j].seen.Some? && w.log[j].seenAt <= i
  }

  /**
   In every run: the first write of content after an archive was based on the archived version and content.
   It knew of the archive exactly when it read the row after it; a blind one read the same content in the
   state before.
   */
  lemma ArchiveOverridden(base: Option<Row>, events: seq<Event>, i: nat, j: nat)
    ensures var w := Run(Initial(base), events);
      i < j < |w.log| && w.log[i].op.Retire? && w.log[j].op.Write? && Writes(w.log, i + 1, j) == 0 ==>
        && w.log[j].seen.Some?
        && w.log[j].seen.value.version == w.log[i].row.version && w.log[j].seen.value.content == w.log[i].row.content
        && (if Blind(w, i, j) then Writes(w.log, w.log[j].seenAt, i) == 0 else w.log[j].seen.value.state == Archived)
  {
    hide Exec, Chain, ClientOk, EntryOk, Linked;
    InitialInv(base);
    RunInv(Initial(base), events);
    var w := Run(Initial(base), events);
    if i < j < |w.log| && w.log[i].op.Retire? && w.log[j].op.Write? && Writes(w.log, i + 1, j) == 0 {
      OverriddenAt(w.base, w.log, i, j);
    }
  }

  lemma OverriddenAt(base: Option<Row>, log: seq<Entry>, i: nat, j: nat)
    requires Chain(base, log) && i < j < |log| && log[i].op.Retire? && log[j].op.Write? && Writes(log, i + 1, j) == 0
    ensures log[j].seen.Some? && log[j].seenAt <= j
    ensures log[j].seen.value.version == log[i].row.version && log[j].seen.value.content == log[i].row.content
    ensures log[j].seenAt > i ==> log[j].seen.value.state == Archived
    ensures log[j].seenAt <= i ==> Writes(log, log[j].seenAt, i) == 0
  {
    ChainAt(base, log, j);
    VersionsCount(base, log, i + 1, j);
    var r := log[j].seenAt;
    VersionsCount(base, log, r, j);
    hide Chain, Linked;
    if r > i {
      WritesSplit(log, i + 1, r, j);
      ArchiveStands(base, log, i, r);
      assert ArchivedFrom(base, log, i, r);
    } else {
      WritesSplit(log, r, i, j);
    }
  }

  // ---- an archive that is overridden unseen ----

  /** An owner has read the draft in order to write over it. */
  function Reading(old_: string, next: string, subject: string, now: int): World {
    var drafted := Exec(Exec(Initial(None), Invoke(0, Upsert(old_, subject, now))), Send(0, true));
    Exec(Exec(Exec(drafted, Invoke(1, Upsert(next, subject, now))), Send(1, true)), Read(1, 0))
  }

  /** An archive comes in between. */
  function Crossing(old_: string, next: string, subject: string, now: int): World {
    Exec(Exec(Exec(Reading(old_, next, subject, now), Invoke(2, Archive(subject, now))), Read(2, 0)), Send(2, true))
  }

  lemma ReadingIs(old_: string, next: string, subject: string, now: int)
    requires Valid(Upsert(old_, subject, now)) && Valid(Upsert(next, subject, now))
    ensures var row := Created(OpOf(Upsert(old_, subject, now)));
      var w := Reading(old_, next, subject, now);
      && w.base == None && w.row == Some(row) && |w.log| == 1 && w.log[0].row == row
      && w.clients.Keys == {0, 1} && w.clients[1] == Client(Upsert(next, subject, now), Updating(0, row), 1)
  {
    hide Valid, Trim, ToRecord, Returned;
    var row := Created(OpOf(Upsert(old_, subject, now)));
    Loads(row);
    var drafted := Exec(Exec(Initial(None), Invoke(0, Upsert(old_, subject, now))), Send(0, true));
    assert drafted.row == Some(row) && |drafted.log| == 1 && drafted.log[0].row == row;
  }

  lemma CrossingIs(old_: string, next: string, subject: string, now: int)
    requires Valid(Upsert(old_, subject, now)) && Valid(Upsert(next, subject, now))
    ensures var row := Created(OpOf(Upsert(old_, subject, now)));
      var archived := Applied(OpOf(Archive(subject, now)), row);
      var w := Crossing(old_, next, subject, now);
      && w.base == None && w.row == Some(archived) && |w.log| == 2 && w.log[1].op.Retire?
      && w.clients.Keys == {0, 1, 2} && w.clients[1] == Client(Upsert(next, subject, now), Updating(0, row), 1)
      && w.clients[2].phase == Returned(archived, false)
  {
    hide Valid, Trim, ToRecord, Returned, Reading;
    var row := Created(OpOf(Upsert(old_, subject, now)));
    Loads(row);
    ValidArchive(old_, subject, now);
    ReadingIs(old_, next, subject, now);
    var before := Exec(Exec(Reading(old_, next, subject, now), Invoke(2, Archive(subject, now))), Read(2, 0));
    assert before.clients[2] == Client(Archive(subject, now), Updating(0, row), 1);
  }

  lemma Loads(row: Row)
    requires row.state != Published
    ensures ToRecord(row).Some?
  {
  }

  lemma ValidArchive(content: string, subject: string, now: int)
    requires Valid(Upsert(content, subject, now))
    ensures Valid(Archive(subject, now))
  {
  }

  /** The archive is confirmed to its caller, and then overridden by an upsert that never saw it and is confirmed too. */
  lemma ArchiveOverriddenUnseen(old_: string, next: string, subject: string, now: int)
    requires Valid(Upsert(old_, subject, now)) && Valid(Upsert(next, subject, now))
    ensures var w := Exec(Crossing(old_, next, subject, now), Send(1, true));
      && w.row == Some(Row(next, 2, Draft, now, now, Trim(subject)))
      && |w.log| == 3 && w.log[1].op.Retire? && Blind(w, 1, 2) && w.log[2].seen.value.state == Draft
      && 2 in w.clients && w.clients[2].phase.Done? && w.clients[2].phase.reply.Ok? && w.clients[2].phase.reply.record.state == Archived
      && 1 in w.clients && w.clients[1].phase.Done? && w.clients[1].phase.reply.Ok? && w.clients[1].phase.reply.record.state == Draft
  {
    hide Valid, Trim, Crossing;
    CrossingIs(old_, next, subject, now);
  }
}
