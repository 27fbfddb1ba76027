/**
 Any number of clients over one soul record, interleaved step by step. The log is ghost history: every
 committed write with the row its client had loaded. Reads may be stale: they return any committed
 state, so every safety result holds without consistent reads.
 */
module SoulWorld {
  import opened Wrappers
  import opened ContentKeys
  import opened SoulDocument
  import opened SoulRows
  import opened SoulClients
  import opened Text

  datatype Entry = Entry(client: nat, op: Op, source: Option<Row>, row: Row)

  /** began and readAt are log positions: when the call started and what its last read saw. */
  datatype Client = Client(call: Call, phase: Phase, began: nat, readAt: nat)

  datatype World = World(base: Option<Row>, table: Table, log: seq<Entry>, clients: map<nat, Client>)

  /**
   One step of one client. A read answers with the state lag commits ago; a transaction or a read may
   also end in a store error, and a transaction may then have been applied or not. A client that
   crashes takes no further step.
   */
  datatype Event =
    | Invoke(client: nat, call: Call)
    | Read(client: nat, lag: nat, now: int)
    | Transact(client: nat, reported: bool)
    | Break(client: nat)

  /** The row after the first i commits. */
  function Snap(base: Option<Row>, log: seq<Entry>, i: nat): Option<Row>
    requires i <= |log|
  {
    if i == 0 then base else Some(log[i - 1].row)
  }

  function AnswerOf(row: Option<Row>, now: int): Answer {
    if row.Some? then Found(row.value, now) else Absent(now)
  }

  ghost predicate ClientsOk(scope: Scope, w: World) {
    forall c :: c in w.clients ==> WellFormed(scope, w.clients[c].call, w.clients[c].phase)
  }

  function Learn(scope: Scope, client: Client, answer: Answer): Client
    requires client.phase.Done? || Fits(client.call, client.phase.frame)
  {
    client.(phase := Next(scope, client.call, client.phase, answer))
  }

  ghost function Exec(scope: Scope, w: World, e: Event): World
    requires ClientsOk(scope, w)
  {
    if e.Invoke? then
      if e.client in w.clients then w
      else w.(clients := w.clients[e.client := Client(e.call, Start(scope, e.call), |w.log|, |w.log|)])
    else if e.client !in w.clients then w
    else
      var client := w.clients[e.client];
      assert WellFormed(scope, client.call, client.phase);
      match e
      case Read(c, lag, now) =>
        if !client.phase.Load? && !client.phase.Reread? then w
        else
          var at := if lag <= |w.log| then |w.log| - lag else 0;
          w.(clients := w.clients[c := Learn(scope, client, AnswerOf(Snap(w.base, w.log, at), now)).(readAt := at)])
      case Transact(c, reported) =>
        if !client.phase.Write? then w
        else
          (match Commit(w.table, BuildTx(scope, client.phase.op, client.phase.source))
          case None =>
            w.(clients := w.clients[c := Learn(scope, client, if reported then ConditionFailed else Broken)])
          case Some(t) =>
            var entry := Entry(c, client.phase.op, client.phase.source, t.current.value);
            World(w.base, t, w.log + [entry], w.clients[c := Learn(scope, client, if reported then Committed else Broken)]))
      case Break(c) => w.(clients := w.clients[c := Learn(scope, client, Broken)])
  }

  // ---- the invariant ----

  /** The record starts absent, or as a legacy opaque row that loads. */
  ghost predicate BaseOk(scope: Scope, base: Option<Row>) {
    base.Some? ==> IsLegacy(base.value) && Sound(scope, base.value)
  }

  /** Every committed write was computed from its immediate predecessor. */
  ghost predicate Chain(scope: Scope, base: Option<Row>, log: seq<Entry>) {
    forall i :: 0 <= i < |log| ==> Linked(scope, base, log, i)
  }

  ghost predicate Linked(scope: Scope, base: Option<Row>, log: seq<Entry>, i: nat)
    requires i < |log|
  {
    && log[i].source == Snap(base, log, i)
    && NextRow(scope, log[i].op, log[i].source) == Some(log[i].row)
  }

  function HistoryOf(log: seq<Entry>): map<HistoryId, HistoryRow> {
    if log == [] then map[]
    else
      var last := log[|log| - 1];
      HistoryOf(log[..|log| - 1])[IdOf(last.row) := HistoryFor(last.op, last.row)]
  }

  function BaseVersion(base: Option<Row>): int { if base.None? then 0 else base.value.version }

  function BaseSoulVersion(base: Option<Row>): int { if base.None? then 0 else EffectiveSoulVersion(base.value) }

  /** Which writes a call may have committed, always in its own name. */
  ghost predicate EntryOf(scope: Scope, call: Call, e: Entry) {
    e.op.subject == Trim(call.subject) &&
    match call
    case UpsertSoul(doc, _, _) => e.op.Author? && e.op.doc == doc
    case Publish(_) => e.op.Transition? && e.op.to == Published
    case Archive(_) => e.op.Transition? && e.op.to == Archived
    case SeedDraft(doc, _, _) => e.source == None && e.op.Author? && e.op.doc == doc
    case SeedPublished(doc, _) =>
      || (e.source == None && e.op.Author? && e.op.doc == doc)
      || (e.op.Transition? && e.op.to == Published && e.source.Some? && Matches(scope, e.source.value, doc))
  }

  ghost predicate Matches(scope: Scope, row: Row, doc: Document) {
    ToRecord(scope, row).Some? && scope.same(ToRecord(scope, row).value.document, doc)
  }

  /** A seed publishes only the version it compared: every committed row of that version has the seed's content. */
  ghost predicate BoundTo(scope: Scope, base: Option<Row>, log: seq<Entry>, expected: int, doc: Document) {
    && expected <= BaseVersion(base) + |log|
    && forall i: nat :: i <= |log| && Snap(base, log, i).Some? && Snap(base, log, i).value.version == expected
         ==> Matches(scope, Snap(base, log, i).value, doc)
  }

  ghost predicate ClientOk(scope: Scope, base: Option<Row>, log: seq<Entry>, client: Client) {
    && WellFormed(scope, client.call, client.phase)
    && client.began <= |log| && client.readAt <= |log|
    && (client.phase.Write? ==> client.phase.source == None || client.phase.source == Snap(base, log, client.readAt))
    && (Bound(client.phase) ==> BoundTo(scope, base, log, client.phase.frame.expected, client.call.doc))
  }

  ghost predicate Inv(scope: Scope, w: World) {
    && Lawful(scope) && BaseOk(scope, w.base)
    && Chain(scope, w.base, w.log)
    && w.table.current == Snap(w.base, w.log, |w.log|)
    && w.table.history == HistoryOf(w.log)
    && (forall c :: c in w.clients ==> ClientOk(scope, w.base, w.log, w.clients[c]))
    && (forall i :: 0 <= i < |w.log| ==>
          w.log[i].client in w.clients && EntryOf(scope, w.clients[w.log[i].client].call, w.log[i]))
  }

  // ---- consequences of the chain ----

  ghost predicate SoundAt(scope: Scope, row: Option<Row>, version: int) {
    row.Some? ==> Sound(scope, row.value) && row.value.version == version
  }

  lemma LinkedSound(scope: Scope, source: Option<Row>, op: Op, row: Row, version: int)
    requires Lawful(scope) && SoundAt(scope, source, version) && (source.None? ==> version == 0)
    requires NextRow(scope, op, source) == Some(row)
    ensures SoundAt(scope, Some(row), version + 1) && !IsLegacy(row)
  {
    NextRowSound(scope, op, source);
  }

  /** Record versions count commits, so a version identifies a committed row. */
  lemma {:induction false} SnapSound(scope: Scope, base: Option<Row>, log: seq<Entry>, i: nat)
    requires Lawful(scope) && BaseOk(scope, base) && Chain(scope, base, log) && i <= |log|
    ensures SoundAt(scope, Snap(base, log, i), BaseVersion(base) + i)
    ensures i > 0 ==> !IsLegacy(Snap(base, log, i).value)
  {
    hide NextRow, Sound, EffectiveSoulVersion;
    if i > 0 {
      SnapSound(scope, base, log, i - 1);
      assert Linked(scope, base, log, i - 1);
      LinkedSound(scope, log[i - 1].source, log[i - 1].op, log[i - 1].row, BaseVersion(base) + i - 1);
    }
  }

  /** What the next lemmas need of the rows, without their documents. */
  ghost predicate Stored(row: Row, version: int) {
    row.version == version && !IsLegacy(row) && row.soulVersion >= 1
  }

  lemma SnapStored(scope: Scope, base: Option<Row>, log: seq<Entry>, i: nat)
    requires Lawful(scope) && BaseOk(scope, base) && Chain(scope, base, log) && i < |log|
    ensures Stored(log[i].row, BaseVersion(base) + i + 1)
    ensures log[i].source.Some? ==> Rank(log[i].source.value) < Rank(log[i].row)
    ensures log[i].source == Snap(base, log, i)
  {
    hide NextRow;
    SnapSound(scope, base, log, i);
    assert Linked(scope, base, log, i);
    NextRowSound(scope, log[i].op, log[i].source);
  }

  lemma {:induction false} RankIncreases(scope: Scope, base: Option<Row>, log: seq<Entry>, i: nat, j: nat)
    requires Lawful(scope) && BaseOk(scope, base) && Chain(scope, base, log) && i < j <= |log|
    requires Snap(base, log, i).Some?
    ensures Rank(Snap(base, log, i).value) < Rank(log[j - 1].row)
  {
    hide Lawful, BaseOk, Chain, NextRow, Rank, Sound, Stored;
    SnapStored(scope, base, log, j - 1);
    if i < j - 1 {
      RankIncreases(scope, base, log, i, j - 1);
    }
  }

  lemma {:induction false} HistoryKeys(log: seq<Entry>, id: HistoryId) returns (i: nat)
    requires id in HistoryOf(log)
    ensures i < |log| && IdOf(log[i].row) == id
  {
    if id == IdOf(log[|log| - 1].row) {
      i := |log| - 1;
    } else {
      i := HistoryKeys(log[..|log| - 1], id);
    }
  }

  /** A row that ranks above the current one has a free history key. */
  lemma HigherKeyFree(scope: Scope, base: Option<Row>, log: seq<Entry>, next: Row)
    requires Lawful(scope) && BaseOk(scope, base) && Chain(scope, base, log)
    requires !IsLegacy(next) && next.soulVersion >= 1
    requires log != [] ==> Rank(log[|log| - 1].row) < Rank(next)
    ensures IdOf(next) !in HistoryOf(log)
  {
    hide Lawful, BaseOk, Chain, NextRow, Sound, HistoryOf;
    if IdOf(next) in HistoryOf(log) {
      var i := HistoryKeys(log, IdOf(next));
      SnapStored(scope, base, log, i);
      assert Rank(log[i].row) == Rank(next);
      if i + 1 < |log| {
        RankIncreases(scope, base, log, i + 1, |log|);
      }
    }
  }

  /** The history key of the next row is always free: a history collision is impossible. */
  lemma NextKeyFree(scope: Scope, base: Option<Row>, log: seq<Entry>, op: Op)
    requires Lawful(scope) && BaseOk(scope, base) && Chain(scope, base, log)
    requires NextRow(scope, op, Snap(base, log, |log|)).Some?
    ensures IdOf(NextRow(scope, op, Snap(base, log, |log|)).value) !in HistoryOf(log)
  {
    hide Lawful, BaseOk, Chain, Rank, IdOf, NextRow, Sound, HistoryOf;
    SnapSound(scope, base, log, |log|);
    NextRowSound(scope, op, Snap(base, log, |log|));
    HigherKeyFree(scope, base, log, NextRow(scope, op, Snap(base, log, |log|)).value);
  }

  lemma SnapVersion(scope: Scope, base: Option<Row>, log: seq<Entry>, i: nat)
    requires Lawful(scope) && BaseOk(scope, base) && Chain(scope, base, log) && i <= |log|
    ensures Snap(base, log, i).Some? ==> Snap(base, log, i).value.version == BaseVersion(base) + i
    ensures i > 0 ==> Snap(base, log, i).Some?
  {
    hide NextRow, Sound;
    SnapSound(scope, base, log, i);
  }

  lemma StaleConflict(t: Table, scope: Scope, op: Op, source: Option<Row>)
    requires NextRow(scope, op, source).Some?
    requires source.None? ==> t.current.Some?
    requires source.Some? && t.current.Some? ==> t.current.value.version != source.value.version
    ensures Commit(t, BuildTx(scope, op, source)) == None
  {
    hide NextRow;
  }

  /** A transaction commits exactly when its client loaded the current row; then the current row is its source. */
  lemma CommitIff(scope: Scope, base: Option<Row>, log: seq<Entry>, t: Table, op: Op, source: Option<Row>, at: nat)
    requires Lawful(scope) && BaseOk(scope, base) && Chain(scope, base, log)
    requires t.current == Snap(base, log, |log|) && t.history == HistoryOf(log)
    requires at <= |log| && (source == None || source == Snap(base, log, at))
    requires NextRow(scope, op, source).Some?
    ensures source != t.current ==> Commit(t, BuildTx(scope, op, source)) == None
    ensures source == t.current ==>
              var next := NextRow(scope, op, source).value;
              Commit(t, BuildTx(scope, op, source))
              == Some(Table(Some(next), t.history[IdOf(next) := HistoryFor(op, next)]))
  {
    hide Lawful, BaseOk, Chain, IdOf, HistoryFor, NextRow, Commit, BuildTx, HistoryOf;
    if source == t.current {
      NextKeyFree(scope, base, log, op);
      CommitFromCurrent(scope, op, t);
    } else {
      SnapVersion(scope, base, log, |log|);
      SnapVersion(scope, base, log, at);
      StaleConflict(t, scope, op, source);
    }
  }

  // ---- every step keeps the invariant ----

  lemma ChainAppend(scope: Scope, base: Option<Row>, log: seq<Entry>, e: Entry)
    requires Lawful(scope) && BaseOk(scope, base) && Chain(scope, base, log)
    requires e.source == Snap(base, log, |log|) && NextRow(scope, e.op, e.source) == Some(e.row)
    ensures Chain(scope, base, log + [e])
    ensures forall i: nat :: i <= |log| ==> Snap(base, log + [e], i) == Snap(base, log, i)
  {
    hide NextRow;
    forall i | 0 <= i < |log + [e]| ensures Linked(scope, base, log + [e], i) {
      if i < |log| {
        assert Linked(scope, base, log, i);
        assert (log + [e])[i] == log[i];
      }
    }
  }

  lemma HistoryAppend(log: seq<Entry>, e: Entry)
    ensures HistoryOf(log + [e]) == HistoryOf(log)[IdOf(e.row) := HistoryFor(e.op, e.row)]
  {
    assert (log + [e])[..|log|] == log;
  }

  lemma BoundGrows(scope: Scope, base: Option<Row>, log: seq<Entry>, e: Entry, expected: int, doc: Document)
    requires Lawful(scope) && BaseOk(scope, base) && Chain(scope, base, log) && Chain(scope, base, log + [e])
    requires BoundTo(scope, base, log, expected, doc)
    ensures BoundTo(scope, base, log + [e], expected, doc)
  {
    hide NextRow, Matches;
    forall i: nat | i <= |log + [e]| && Snap(base, log + [e], i).Some? && Snap(base, log + [e], i).value.version == expected
      ensures Matches(scope, Snap(base, log + [e], i).value, doc)
    {
      if i <= |log| {
        assert Snap(base, log + [e], i) == Snap(base, log, i);
      } else {
        SnapVersion(scope, base, log + [e], i);
        assert false;
      }
    }
  }

  lemma ClientGrows(scope: Scope, base: Option<Row>, log: seq<Entry>, e: Entry, client: Client)
    requires Lawful(scope) && BaseOk(scope, base) && Chain(scope, base, log) && Chain(scope, base, log + [e])
    requires ClientOk(scope, base, log, client)
    ensures ClientOk(scope, base, log + [e], client)
  {
    hide NextRow, Matches, BoundTo;
    if Bound(client.phase) {
      BoundGrows(scope, base, log, e, client.phase.frame.expected, client.call.doc);
    }
    assert Snap(base, log + [e], client.readAt) == Snap(base, log, client.readAt);
  }

  lemma BoundByRead(scope: Scope, base: Option<Row>, log: seq<Entry>, at: nat, doc: Document)
    requires Lawful(scope) && BaseOk(scope, base) && Chain(scope, base, log) && at <= |log|
    requires Snap(base, log, at).Some? && Matches(scope, Snap(base, log, at).value, doc)
    ensures BoundTo(scope, base, log, Snap(base, log, at).value.version, doc)
  {
    hide NextRow, ToRecord;
    SnapVersion(scope, base, log, at);
    forall i: nat | i <= |log| && Snap(base, log, i).Some? && Snap(base, log, i).value.version == Snap(base, log, at).value.version
      ensures Matches(scope, Snap(base, log, i).value, doc)
    {
      SnapVersion(scope, base, log, i);
    }
  }

  /** Whatever a client learns, from a read at `at` or otherwise, it stays in an accounted-for phase. */
  lemma LearnKeeps(scope: Scope, base: Option<Row>, log: seq<Entry>, client: Client, answer: Answer, at: nat)
    requires Lawful(scope) && BaseOk(scope, base) && Chain(scope, base, log)
    requires ClientOk(scope, base, log, client) && at <= |log|
    requires answer.Found? || answer.Absent? ==> FoundIn(answer) == Snap(base, log, at)
    ensures ClientOk(scope, base, log, Learn(scope, client, answer).(readAt := at))
  {
    hide NextRow, Sound, BoundTo, Next, ToRecord;
    var after := Learn(scope, client, answer).(readAt := at);
    SnapSound(scope, base, log, at);
    NextWellFormed(scope, client.call, client.phase, answer);
    NextBound(scope, client.call, client.phase, answer);
    if Bound(after.phase) && !(!client.phase.Done? && client.phase.frame == after.phase.frame) {
      BoundByRead(scope, base, log, at, client.call.doc);
    }
  }

  lemma InvClients(scope: Scope, w: World)
    requires Inv(scope, w)
    ensures ClientsOk(scope, w)
  {
    forall c | c in w.clients ensures WellFormed(scope, w.clients[c].call, w.clients[c].phase) {
      assert ClientOk(scope, w.base, w.log, w.clients[c]);
    }
  }

  /** A client that commits writes what its call is for. */
  lemma CommittedEntry(scope: Scope, base: Option<Row>, log: seq<Entry>, client: Client, c: nat)
    requires Lawful(scope) && BaseOk(scope, base) && Chain(scope, base, log)
    requires ClientOk(scope, base, log, client) && client.phase.Write?
    requires client.phase.source == Snap(base, log, |log|)
    ensures EntryOf(scope, client.call,
      Entry(c, client.phase.op, client.phase.source, NextRow(scope, client.phase.op, client.phase.source).value))
  {
    hide NextRow;
    if Bound(client.phase) {
      SnapVersion(scope, base, log, |log|);
      assert BoundTo(scope, base, log, client.phase.frame.expected, client.call.doc);
    }
  }

  lemma CommitStep(scope: Scope, w: World, c: nat, reported: bool)
    requires Inv(scope, w) && ClientsOk(scope, w)
    requires c in w.clients && w.clients[c].phase.Write? && w.clients[c].phase.source == w.table.current
    ensures Inv(scope, Exec(scope, w, Transact(c, reported)))
  {
    hide Lawful, BaseOk, Chain, Bound, NextRow, Commit, BuildTx, Sound, EntryOf, Next, HistoryOf, BoundTo;
    var client := w.clients[c];
    var op, source := client.phase.op, client.phase.source;
    CommitIff(scope, w.base, w.log, w.table, op, source, client.readAt);
    var e := Entry(c, op, source, NextRow(scope, op, source).value);
    ChainAppend(scope, w.base, w.log, e);
    HistoryAppend(w.log, e);
    CommittedEntry(scope, w.base, w.log, client, c);
    LearnKeeps(scope, w.base, w.log, client, if reported then Committed else Broken, client.readAt);
    var after := Learn(scope, client, if reported then Committed else Broken);
    assert after.(readAt := client.readAt) == after;
    var w' := Exec(scope, w, Transact(c, reported));
    assert w' == World(w.base, w'.table, w.log + [e], w.clients[c := after]);
    forall d | d in w'.clients ensures ClientOk(scope, w'.base, w'.log, w'.clients[d]) {
      ClientGrows(scope, w.base, w.log, e, if d == c then after else w.clients[d]);
    }
    forall i | 0 <= i < |w'.log|
      ensures w'.log[i].client in w'.clients && EntryOf(scope, w'.clients[w'.log[i].client].call, w'.log[i])
    {
      if i < |w.log| {
        assert w'.log[i] == w.log[i];
      }
    }
  }

  /** Steps that leave the table alone: only one client changes. */
  lemma QuietStep(scope: Scope, w: World, w': World, c: nat, client: Client)
    requires Inv(scope, w)
    requires w' == w.(clients := w.clients[c := client]) && ClientOk(scope, w.base, w.log, client)
    requires c in w.clients ==> client.call == w.clients[c].call
    ensures Inv(scope, w')
  {
    hide EntryOf, ClientOk, Chain, HistoryOf;
    forall i | 0 <= i < |w'.log|
      ensures w'.log[i].client in w'.clients && EntryOf(scope, w'.clients[w'.log[i].client].call, w'.log[i])
    {
      assert w.log[i].client in w.clients;
    }
  }

  lemma ExecInv(scope: Scope, w: World, e: Event)
    requires Inv(scope, w)
    ensures ClientsOk(scope, w) && Inv(scope, Exec(scope, w, e))
  {
    hide Lawful, BaseOk, Bound, NextRow, Sound, Next, HistoryOf, BoundTo, EntryOf, Chain, Commit, BuildTx;
    InvClients(scope, w);
    var w' := Exec(scope, w, e);
    if e.client !in w.clients {
      if e.Invoke? {
        StartWellFormed(scope, e.call);
        StartUnbound(scope, e.call);
        QuietStep(scope, w, w', e.client, Client(e.call, Start(scope, e.call), |w.log|, |w.log|));
      }
    } else if !e.Invoke? {
      var client := w.clients[e.client];
      if e.Transact? && client.phase.Write? && client.phase.source == w.table.current {
        CommitStep(scope, w, e.client, e.reported);
      } else if e.Transact? && client.phase.Write? {
        CommitIff(scope, w.base, w.log, w.table, client.phase.op, client.phase.source, client.readAt);
        var answer := if e.reported then ConditionFailed else Broken;
        LearnKeeps(scope, w.base, w.log, client, answer, client.readAt);
        assert Learn(scope, client, answer).(readAt := client.readAt) == Learn(scope, client, answer);
        QuietStep(scope, w, w', e.client, Learn(scope, client, answer));
      } else if e.Read? && (client.phase.Load? || client.phase.Reread?) {
        var at := if e.lag <= |w.log| then |w.log| - e.lag else 0;
        var answer := AnswerOf(Snap(w.base, w.log, at), e.now);
        LearnKeeps(scope, w.base, w.log, client, answer, at);
        QuietStep(scope, w, w', e.client, Learn(scope, client, answer).(readAt := at));
      } else if e.Break? {
        LearnKeeps(scope, w.base, w.log, client, Broken, client.readAt);
        assert Learn(scope, client, Broken).(readAt := client.readAt) == Learn(scope, client, Broken);
        QuietStep(scope, w, w', e.client, Learn(scope, client, Broken));
      }
    }
  }

  /** The step committed one write of client c, under a history key that was free. */
  ghost predicate AppendedBy(w: World, later: World, c: nat) {
    && |later.log| == |w.log| + 1 && later.log[..|w.log|] == w.log
    && c in w.clients && w.clients[c].phase.Write?
    && var e := later.log[|w.log|];
      && e.client == c && e.op == w.clients[c].phase.op
      && e.source == w.clients[c].phase.source == w.table.current
      && IdOf(e.row) !in w.table.history
      && later.table == Table(Some(e.row), w.table.history[IdOf(e.row) := HistoryFor(e.op, e.row)])
  }

  /** A step changes the table only by committing one write. */
  lemma ExecLog(scope: Scope, w: World, e: Event)
    requires Inv(scope, w)
    ensures ClientsOk(scope, w)
    ensures var later := Exec(scope, w, e);
      && later.base == w.base
      && ((later.log == w.log && later.table == w.table) || AppendedBy(w, later, e.client))
  {
    hide Next, Sound, BuildTx, Commit, HistoryOf, EntryOf, BoundTo, NextRow, Chain;
    InvClients(scope, w);
    if e.client in w.clients && e.Transact? && w.clients[e.client].phase.Write? {
      var client := w.clients[e.client];
      assert ClientOk(scope, w.base, w.log, client);
      CommitIff(scope, w.base, w.log, w.table, client.phase.op, client.phase.source, client.readAt);
      if client.phase.source == w.table.current {
        NextKeyFree(scope, w.base, w.log, client.phase.op);
      }
    }
  }

  /** A read saw the state after the first `at` commits. */
  ghost predicate Saw(w: World, client: Client, answer: Answer, at: nat) {
    && (client.phase.Load? || client.phase.Reread?) && at <= |w.log|
    && (answer.Found? || answer.Absent?) && FoundIn(answer) == Snap(w.base, w.log, at)
  }

  /** A transaction was refused because its source is no longer the stored row. */
  ghost predicate Refused(w: World, client: Client, answer: Answer, at: nat) {
    answer == ConditionFailed && client.phase.Write? && client.phase.source != w.table.current && at == client.readAt
  }

  /** What a step of client c does: c learns one answer, and at most one write is committed. */
  ghost predicate Steps(scope: Scope, w: World, later: World, c: nat, answer: Answer, at: nat, committed: bool)
    requires c in w.clients && WellFormed(scope, w.clients[c].call, w.clients[c].phase)
  {
    var client := w.clients[c];
    && later.base == w.base && later.clients == w.clients[c := Learn(scope, client, answer).(readAt := at)]
    && if committed then
         AppendedBy(w, later, c) && (answer == Committed || answer == Broken) && at == client.readAt
       else
         && later.log == w.log && later.table == w.table
         && ((answer == Broken && at == client.readAt) || Refused(w, client, answer, at) || Saw(w, client, answer, at))
  }

  /** Every event is the start of a call, a step of one call, or nothing. */
  lemma ExecSteps(scope: Scope, w: World, e: Event) returns (answer: Answer, at: nat, committed: bool)
    requires Inv(scope, w)
    ensures ClientsOk(scope, w)
    ensures var later := Exec(scope, w, e);
      || later == w
      || (e.client !in w.clients && e.Invoke?
          && later == w.(clients := w.clients[e.client := Client(e.call, Start(scope, e.call), |w.log|, |w.log|)]))
      || (e.client in w.clients && WellFormed(scope, w.clients[e.client].call, w.clients[e.client].phase)
          && Steps(scope, w, later, e.client, answer, at, committed)
          && (Saw(w, w.clients[e.client], answer, at) && e.Read? && e.lag == 0 ==> at == |w.log|)
          && (Saw(w, w.clients[e.client], answer, at) ==> e.Read?))
  {
    hide Lawful, BaseOk, Bound, Next, Sound, BuildTx, Commit, HistoryOf, EntryOf, BoundTo, NextRow, Chain;
    InvClients(scope, w);
    ExecLog(scope, w, e);
    answer, at, committed := Broken, 0, false;
    if e.client in w.clients && !e.Invoke? {
      var client := w.clients[e.client];
      at := client.readAt;
      assert ClientOk(scope, w.base, w.log, client);
      if e.Transact? && client.phase.Write? {
        CommitIff(scope, w.base, w.log, w.table, client.phase.op, client.phase.source, client.readAt);
        committed := client.phase.source == w.table.current;
        answer := if !e.reported then Broken else if committed then Committed else ConditionFailed;
        assert Learn(scope, client, answer).(readAt := at) == Learn(scope, client, answer);
      } else if e.Read? && (client.phase.Load? || client.phase.Reread?) {
        at := if e.lag <= |w.log| then |w.log| - e.lag else 0;
        answer := AnswerOf(Snap(w.base, w.log, at), e.now);
      } else if e.Break? {
        assert Learn(scope, client, answer).(readAt := at) == Learn(scope, client, answer);
      }
    }
  }

  lemma StartUnbound(scope: Scope, call: Call)
    ensures !Bound(Start(scope, call)) && (Start(scope, call).Write? ==> Start(scope, call).source == None)
  {
  }

  // ---- runs ----

  function Initial(base: Option<Row>): World { World(base, Table(base, map[]), [], map[]) }

  lemma InitialInv(scope: Scope, base: Option<Row>)
    requires Lawful(scope) && BaseOk(scope, base)
    ensures Inv(scope, Initial(base))
  {
  }

  /** Any interleaving of any calls. */
  ghost function Run(scope: Scope, w: World, events: seq<Event>): World
    requires Inv(scope, w)
    decreases |events|
  {
    if events == [] then w
    else
      ExecInv(scope, w, events[0]);
      Run(scope, Exec(scope, w, events[0]), events[1..])
  }

  /** The invariant holds in every reachable state, whatever the reads returned. */
  lemma {:induction false} Safety(scope: Scope, w: World, events: seq<Event>)
    requires Inv(scope, w)
    ensures Inv(scope, Run(scope, w, events))
    decreases |events|
  {
    if events != [] {
      ExecInv(scope, w, events[0]);
      Safety(scope, Exec(scope, w, events[0]), events[1..]);
    }
  }
}
