/**
 What every run of the soul store leaves behind: the counters, the immutable history, the lifecycle of
 each soul version, and the equality of the stored row with the commits replayed one after the other.
 None of these results needs a consistent read.
 */
module SoulHistory {
  import opened Wrappers
  import opened ContentKeys
  import opened SoulDocument
  import opened SoulRows
  import opened SoulClients
  import opened SoulWorld

  // ---- what one committed row is, next to its predecessor ----

  /** A draft opens the next soul version; the other states continue the version of the row before them. */
  ghost predicate Follows(scope: Scope, source: Option<Row>, op: Op, row: Row) {
    if op.Author? then
      row.state == Draft && row.soulVersion == (if source.None? then 1 else EffectiveSoulVersion(source.value) + 1)
    else
      && source.Some? && !IsLegacy(source.value) && row.state == op.to && op.to != Draft
      && source.value.state == From(op.to) && Continues(scope, source.value, row)
  }

  /** The next record version of the same soul version, with everything the author wrote unchanged. */
  ghost predicate Continues(scope: Scope, source: Row, row: Row) {
    && row.soulVersion == source.soulVersion && row.version == source.version + 1
    && row.content == source.content && row.updatedBy == source.updatedBy
    && row.createdAt == source.createdAt && row.updatedAt == source.updatedAt
    && ToRecord(scope, row).Some? && ToRecord(scope, source).Some?
    && scope.same(ToRecord(scope, row).value.document, ToRecord(scope, source).value.document)
  }

  lemma NextRowFollows(scope: Scope, op: Op, source: Option<Row>, row: Row)
    requires Lawful(scope) && NextRow(scope, op, source) == Some(row)
    requires source.Some? ==> Sound(scope, source.value)
    ensures Follows(scope, source, op, row)
  {
    hide Sound, ToRecord;
    if op.Author? {
      AuthoredLoads(scope, op, source);
    } else {
      TransitionedLoads(scope, op, source.value);
      TransitionKeepsAuthoring(scope, op, source.value);
      SoundLoads(scope, source.value);
    }
  }

  lemma SoundLoads(scope: Scope, row: Row)
    requires Sound(scope, row)
    ensures ToRecord(scope, row).Some?
  {
  }

  lemma LogFollows(scope: Scope, base: Option<Row>, log: seq<Entry>, i: nat)
    requires Lawful(scope) && BaseOk(scope, base) && Chain(scope, base, log) && i < |log|
    ensures log[i].source == Snap(base, log, i) && Follows(scope, log[i].source, log[i].op, log[i].row)
    ensures Stored(log[i].row, BaseVersion(base) + i + 1)
  {
    hide NextRow, Sound, Follows;
    SnapStored(scope, base, log, i);
    SnapSound(scope, base, log, i);
    assert Linked(scope, base, log, i);
    NextRowFollows(scope, log[i].op, log[i].source, log[i].row);
  }

  /** A published or archived row directly follows the row it was made from. */
  lemma PredecessorOf(scope: Scope, base: Option<Row>, log: seq<Entry>, i: nat)
    requires Lawful(scope) && BaseOk(scope, base) && Chain(scope, base, log) && i < |log|
    requires log[i].row.state != Draft
    ensures i > 0 && log[i - 1].row.state == From(log[i].row.state)
    ensures Continues(scope, log[i - 1].row, log[i].row)
  {
    hide NextRow, Sound, Continues;
    LogFollows(scope, base, log, i);
  }

  // ---- the counters and the history ----

  lemma ChainPrefix(scope: Scope, base: Option<Row>, log: seq<Entry>, n: nat)
    requires Chain(scope, base, log) && n <= |log|
    ensures Chain(scope, base, log[..n])
    ensures forall i: nat :: i <= n ==> Snap(base, log[..n], i) == Snap(base, log, i)
  {
    hide NextRow;
    forall i | 0 <= i < n ensures Linked(scope, base, log[..n], i) {
      assert Linked(scope, base, log, i);
    }
  }

  function DraftKeys(ids: set<HistoryId>): set<HistoryId> {
    set id | id in ids && id.state == Draft
  }

  /** A row of the log is in the history under its own key, exactly as it was committed. */
  ghost predicate Kept(history: map<HistoryId, HistoryRow>, e: Entry) {
    IdOf(e.row) in history && history[IdOf(e.row)] == HistoryFor(e.op, e.row)
  }

  /** Every row of the log took a history key that was free. */
  ghost predicate FreshKeys(log: seq<Entry>) {
    forall n: nat :: n < |log| ==> FreshAt(log, n)
  }

  ghost predicate FreshAt(log: seq<Entry>, n: nat)
    requires n < |log|
  {
    IdOf(log[n].row) !in HistoryOf(log[..n])
  }

  lemma KeysFresh(scope: Scope, base: Option<Row>, log: seq<Entry>)
    requires Lawful(scope) && BaseOk(scope, base) && Chain(scope, base, log)
    ensures FreshKeys(log)
  {
    hide NextRow, Sound, HistoryOf, IdOf;
    forall n: nat | n < |log| ensures FreshAt(log, n) {
      ChainPrefix(scope, base, log, n);
      assert Linked(scope, base, log, n);
      NextKeyFree(scope, base, log[..n], log[n].op);
    }
  }

  lemma {:induction false} HistoryKeeps(log: seq<Entry>, i: nat)
    requires FreshKeys(log) && i < |log|
    ensures Kept(HistoryOf(log), log[i])
    decreases |log|
  {
    hide IdOf, HistoryFor;
    var n := |log| - 1;
    assert FreshAt(log, n);
    if i < n {
      FreshPrefix(log, n);
      HistoryKeeps(log[..n], i);
    }
  }

  lemma FreshPrefix(log: seq<Entry>, n: nat)
    requires FreshKeys(log) && n <= |log|
    ensures FreshKeys(log[..n])
  {
    hide IdOf, HistoryOf;
    forall k: nat | k < n ensures FreshAt(log[..n], k) {
      assert FreshAt(log, k) && log[..n][..k] == log[..k];
    }
  }

  function Drafts(log: seq<Entry>): nat {
    if log == [] then 0 else Drafts(log[..|log| - 1]) + if log[|log| - 1].row.state == Draft then 1 else 0
  }

  lemma {:induction false} HistoryCounts(log: seq<Entry>)
    requires FreshKeys(log)
    ensures |HistoryOf(log)| == |log|
    ensures |DraftKeys(HistoryOf(log).Keys)| == Drafts(log)
    decreases |log|
  {
    hide HistoryFor;
    if log != [] {
      var n := |log| - 1;
      assert FreshAt(log, n);
      FreshPrefix(log, n);
      HistoryCounts(log[..n]);
      AddKey(HistoryOf(log[..n]).Keys, IdOf(log[n].row));
      assert HistoryOf(log).Keys == HistoryOf(log[..n]).Keys + {IdOf(log[n].row)};
    }
  }

  lemma {:induction false} SoulVersionCounts(scope: Scope, base: Option<Row>, log: seq<Entry>, n: nat)
    requires Lawful(scope) && BaseOk(scope, base) && Chain(scope, base, log) && 0 < n <= |log|
    ensures log[n - 1].row.soulVersion == BaseSoulVersion(base) + Drafts(log[..n])
  {
    hide NextRow, Sound, ToRecord, Drafts;
    LogFollows(scope, base, log, n - 1);
    DraftsStep(log, n);
    if n == 1 {
      assert log[0].source == base;
    } else {
      SoulVersionCounts(scope, base, log, n - 1);
      LogFollows(scope, base, log, n - 2);
      assert log[n - 1].source == Some(log[n - 2].row);
    }
  }

  lemma DraftsStep(log: seq<Entry>, n: nat)
    requires 0 < n <= |log|
    ensures Drafts(log[..n]) == Drafts(log[..n - 1]) + if log[n - 1].row.state == Draft then 1 else 0
    ensures Drafts(log[..0]) == 0
  {
    assert log[..n][..n - 1] == log[..n - 1];
  }

  /** One history row per commit, never overwritten; both version counters count rows of the history. */
  lemma Counts(scope: Scope, base: Option<Row>, log: seq<Entry>)
    requires Lawful(scope) && BaseOk(scope, base) && Chain(scope, base, log)
    ensures |HistoryOf(log)| == |log|
    ensures forall i :: 0 <= i < |log| ==> Kept(HistoryOf(log), log[i])
    ensures log != [] ==> log[|log| - 1].row.version == BaseVersion(base) + |HistoryOf(log)|
    ensures log != [] ==> log[|log| - 1].row.soulVersion == BaseSoulVersion(base) + |DraftKeys(HistoryOf(log).Keys)|
  {
    hide NextRow, Sound, Kept, FreshKeys, HistoryOf, Follows, Linked;
    KeysFresh(scope, base, log);
    HistoryCounts(log);
    forall i | 0 <= i < |log| ensures Kept(HistoryOf(log), log[i]) {
      HistoryKeeps(log, i);
    }
    if log != [] {
      SoulVersionCounts(scope, base, log, |log|);
      LogFollows(scope, base, log, |log| - 1);
      assert log[..|log|] == log;
    }
  }

  lemma AddKey(ids: set<HistoryId>, id: HistoryId)
    requires id !in ids
    ensures |ids + {id}| == |ids| + 1
    ensures |DraftKeys(ids + {id})| == |DraftKeys(ids)| + if id.state == Draft then 1 else 0
  {
    if id.state == Draft {
      assert DraftKeys(ids + {id}) == DraftKeys(ids) + {id};
    } else {
      assert DraftKeys(ids + {id}) == DraftKeys(ids);
    }
  }

  // ---- one soul version in the history table ----

  /** The lifecycle of one soul version, read off the table alone. */
  ghost predicate Lifecycle(scope: Scope, history: map<HistoryId, HistoryRow>, s: int) {
    && (HistoryId(s, Published) in history ==>
          && HistoryId(s, Draft) in history
          && Continues(scope, history[HistoryId(s, Draft)].row, history[HistoryId(s, Published)].row))
    && (HistoryId(s, Archived) in history ==>
          && HistoryId(s, Published) in history
          && Continues(scope, history[HistoryId(s, Published)].row, history[HistoryId(s, Archived)].row))
  }

  lemma ContinuedInHistory(scope: Scope, base: Option<Row>, log: seq<Entry>, s: int, state: State)
    requires Lawful(scope) && BaseOk(scope, base) && Chain(scope, base, log)
    requires state != Draft && HistoryId(s, state) in HistoryOf(log)
    ensures HistoryId(s, From(state)) in HistoryOf(log)
    ensures Continues(scope, HistoryOf(log)[HistoryId(s, From(state))].row, HistoryOf(log)[HistoryId(s, state)].row)
  {
    hide NextRow, Sound, ToRecord;
    var i := HistoryKeys(log, HistoryId(s, state));
    PredecessorOf(scope, base, log, i);
    Counts(scope, base, log);
    assert Kept(HistoryOf(log), log[i]) && Kept(HistoryOf(log), log[i - 1]);
  }

  lemma LifecycleHolds(scope: Scope, base: Option<Row>, log: seq<Entry>, s: int)
    requires Lawful(scope) && BaseOk(scope, base) && Chain(scope, base, log)
    ensures Lifecycle(scope, HistoryOf(log), s)
  {
    hide NextRow, Sound, Continues, HistoryOf;
    if HistoryId(s, Published) in HistoryOf(log) {
      ContinuedInHistory(scope, base, log, s, Published);
    }
    if HistoryId(s, Archived) in HistoryOf(log) {
      ContinuedInHistory(scope, base, log, s, Archived);
    }
  }

  // ---- every reachable table ----

  function ActionFor(state: State): Action {
    match state
    case Draft => UpsertAction
    case Published => PublishAction
    case Archived => ArchiveAction
  }

  /** A history row carries a row that loads, stored under its own key and for the action that made it. */
  ghost predicate HistoryLoads(scope: Scope, h: HistoryRow, id: HistoryId) {
    IdOf(h.row) == id && h.action == ActionFor(id.state) && ToRecord(scope, h.row).Some? && Projects(h.row, ToRecord(scope, h.row).value.document)
  }

  lemma RunBase(scope: Scope, w: World, events: seq<Event>)
    requires Inv(scope, w)
    ensures Run(scope, w, events).base == w.base
    decreases |events|
  {
    hide Inv, Chain, HistoryOf, Next, Commit, BuildTx, NextRow;
    if events != [] {
      ExecInv(scope, w, events[0]);
      RunBase(scope, Exec(scope, w, events[0]), events[1..]);
    }
  }

  /**
   From an absent row or a legacy one: Version counts the commits, SoulVersion the drafts, both offset by
   the starting row; the history holds one row per commit; and every soul version runs through draft,
   published and archived at consecutive record versions with the same authored content.
   */
  lemma VersionsCountHistory(scope: Scope, base: Option<Row>, events: seq<Event>)
    requires Lawful(scope) && BaseOk(scope, base)
    ensures Inv(scope, Initial(base))
    ensures var t := Run(scope, Initial(base), events).table;
      && (t.history == map[] ==> t.current == base)
      && (t.history != map[] ==>
            && t.current.Some? && !IsLegacy(t.current.value)
            && t.current.value.version == BaseVersion(base) + |t.history|
            && t.current.value.soulVersion == BaseSoulVersion(base) + |DraftKeys(t.history.Keys)|)
      && (forall s :: Lifecycle(scope, t.history, s))
  {
    hide Lifecycle, NextRow, Sound, Linked, DraftKeys;
    InitialInv(scope, base);
    Safety(scope, Initial(base), events);
    RunBase(scope, Initial(base), events);
    var w := Run(scope, Initial(base), events);
    Counts(scope, base, w.log);
    SnapSound(scope, base, w.log, |w.log|);
    forall s ensures Lifecycle(scope, w.table.history, s) {
      LifecycleHolds(scope, base, w.log, s);
    }
  }

  /** toRecord never rejects a row the store wrote: neither the current row nor any history row. */
  lemma EveryRowLoads(scope: Scope, base: Option<Row>, events: seq<Event>)
    requires Lawful(scope) && BaseOk(scope, base)
    ensures Inv(scope, Initial(base))
    ensures var t := Run(scope, Initial(base), events).table;
      && (t.current.Some? ==>
            && ToRecord(scope, t.current.value).Some?
            && Projects(t.current.value, ToRecord(scope, t.current.value).value.document))
      && (forall id :: id in t.history ==> HistoryLoads(scope, t.history[id], id))
  {
    hide NextRow, ToRecord, Projects, Chain, HistoryOf, Sound, HistoryLoads;
    InitialInv(scope, base);
    Safety(scope, Initial(base), events);
    RunBase(scope, Initial(base), events);
    var w := Run(scope, Initial(base), events);
    SnapLoads(scope, base, w.log, |w.log|);
    forall id | id in w.table.history ensures HistoryLoads(scope, w.table.history[id], id) {
      HistoryRowLoads(scope, base, w.log, id);
    }
  }

  lemma SnapLoads(scope: Scope, base: Option<Row>, log: seq<Entry>, i: nat)
    requires Lawful(scope) && BaseOk(scope, base) && Chain(scope, base, log) && i <= |log|
    ensures var row := Snap(base, log, i);
      row.Some? ==> ToRecord(scope, row.value).Some? && Projects(row.value, ToRecord(scope, row.value).value.document)
  {
    hide NextRow, ToRecord, Projects;
    SnapSound(scope, base, log, i);
    if Snap(base, log, i).Some? {
      RecordProjects(scope, Snap(base, log, i).value);
    }
  }

  lemma HistoryRowLoads(scope: Scope, base: Option<Row>, log: seq<Entry>, id: HistoryId)
    requires Lawful(scope) && BaseOk(scope, base) && Chain(scope, base, log) && id in HistoryOf(log)
    ensures HistoryLoads(scope, HistoryOf(log)[id], id)
  {
    hide NextRow, ToRecord, Projects, HistoryOf, Chain, Follows, Stored, ActionOf, ActionFor, FreshKeys, BaseOk, Lawful;
    var i := HistoryKeys(log, id);
    KeysFresh(scope, base, log);
    HistoryKeeps(log, i);
    LogFollows(scope, base, log, i);
    FollowsAction(scope, log[i].source, log[i].op, log[i].row);
    SnapLoads(scope, base, log, i + 1);
  }

  lemma FollowsAction(scope: Scope, source: Option<Row>, op: Op, row: Row)
    requires Follows(scope, source, op, row)
    ensures ActionOf(op) == ActionFor(row.state)
  {
    hide ToRecord;
  }

  // ---- histories only grow ----

  /** Nothing committed is rewritten or dropped. */
  ghost predicate Grows(w: World, later: World) {
    && w.log <= later.log
    && (forall id :: id in w.table.history ==> id in later.table.history && later.table.history[id] == w.table.history[id])
  }

  lemma ExecGrows(scope: Scope, w: World, e: Event)
    requires Inv(scope, w)
    ensures ClientsOk(scope, w)
    ensures var later := Exec(scope, w, e);
      Grows(w, later) && |w.log| <= |later.log| <= |w.log| + 1
      && |later.table.history| - |w.table.history| == |later.log| - |w.log|
  {
    hide Inv, Exec, IdOf, HistoryFor;
    ExecLog(scope, w, e);
    var later := Exec(scope, w, e);
    if later.log != w.log {
      AddKey(w.table.history.Keys, IdOf(later.log[|w.log|].row));
      assert later.table.history.Keys == w.table.history.Keys + {IdOf(later.log[|w.log|].row)};
    }
  }

  /** Commits are appended, and no run changes a history row that is already there. */
  lemma {:induction false} RunGrows(scope: Scope, w: World, events: seq<Event>)
    requires Inv(scope, w)
    ensures Grows(w, Run(scope, w, events))
    decreases |events|
  {
    hide Inv, Exec;
    if events != [] {
      ExecInv(scope, w, events[0]);
      ExecGrows(scope, w, events[0]);
      RunGrows(scope, Exec(scope, w, events[0]), events[1..]);
    }
  }

  // ---- linearizability ----

  /** The operations applied one after the other; None when one of them is refused. */
  function Replay(scope: Scope, source: Option<Row>, ops: seq<Op>): Option<Option<Row>>
    decreases |ops|
  {
    if ops == [] then Some(source)
    else
      var before :- Replay(scope, source, ops[..|ops| - 1]);
      var row :- NextRow(scope, ops[|ops| - 1], before);
      Some(Some(row))
  }

  function Ops(log: seq<Entry>): (ops: seq<Op>)
    ensures |ops| == |log| && forall i :: 0 <= i < |log| ==> ops[i] == log[i].op
  {
    seq(|log|, i requires 0 <= i < |log| => log[i].op)
  }

  lemma {:induction false} ChainReplays(scope: Scope, base: Option<Row>, log: seq<Entry>, n: nat)
    requires Chain(scope, base, log) && n <= |log|
    ensures Replay(scope, base, Ops(log)[..n]) == Some(Snap(base, log, n))
  {
    hide NextRow;
    if n > 0 {
      ChainReplays(scope, base, log, n - 1);
      assert Linked(scope, base, log, n - 1);
      var ops := Ops(log)[..n];
      assert ops[..|ops| - 1] == Ops(log)[..n - 1] && ops[|ops| - 1] == log[n - 1].op;
    }
  }

  /** No update is lost: the stored row is the committed operations applied sequentially in commit order. */
  lemma Linearizable(scope: Scope, base: Option<Row>, events: seq<Event>)
    requires Lawful(scope) && BaseOk(scope, base)
    ensures Inv(scope, Initial(base))
    ensures var w := Run(scope, Initial(base), events);
      Replay(scope, base, Ops(w.log)) == Some(w.table.current)
  {
    hide NextRow, Replay, Sound, Linked;
    InitialInv(scope, base);
    Safety(scope, Initial(base), events);
    RunBase(scope, Initial(base), events);
    var w := Run(scope, Initial(base), events);
    ChainReplays(scope, base, w.log, |w.log|);
    assert Ops(w.log)[..|w.log|] == Ops(w.log);
  }
}
