/**
 Concurrent writers of the agent registry. A call without an expected local id creates, or observes the
 winner and turns into a compare-and-set; a call with one goes straight to the compare-and-set.
 */
module RegistryWorld {
  import opened Wrappers
  import opened Text
  import opened ActorEndpoint
  import opened AgentRegistry

  datatype Phase = Creating(w: Write) | Observing(w: Write) | Updating(w: Write, expected: string) | Done(reply: Reply)

  datatype Client = Client(call: Call, now: int, phase: Phase)

  /** One committed version of a row and the call that committed it: ghost history. */
  datatype Commit = Commit(client: nat, row: Row)

  datatype World = World(table: map<Key, seq<Commit>>, clients: map<nat, Client>)

  datatype Event = Begin(client: nat, call: Call, now: int) | Step(client: nat, reported: bool) | Break(client: nat)

  function Start(f: CaseMap, call: Call): Phase {
    match Prepare(f, call)
    case None => Done(Failed(InvalidInput))
    case Some(w) => if w.Expected().Some? then Updating(w, w.Expected().value) else Creating(w)
  }

  function Last(table: map<Key, seq<Commit>>, key: Key): Option<Row> {
    if key in table && table[key] != [] then Some(table[key][|table[key]| - 1].row) else None
  }

  function Append(table: map<Key, seq<Commit>>, key: Key, c: Commit): map<Key, seq<Commit>> {
    table[key := (if key in table then table[key] else []) + [c]]
  }

  /** The observed row of a create conflict: a different username is never overwritten. */
  function AfterObserving(f: CaseMap, w: Write, found: Option<Row>): Phase {
    if found.None? then Done(Failed(NotFound))
    else
      var observed := ToAgent(f, found.value);
      if w.LocalId() != "" && observed.localId != "" && !Validate(w.LocalId(), observed.localId)
      then Done(Failed(LocalIdChanged)) else Updating(w, Trim(observed.localId))
  }

  /** The row a step commits, if it commits one. */
  function Committed(client: Client, found: Option<Row>): Option<Row> {
    match client.phase
    case Creating(w) => if found.None? then Some(w.NewRow(client.now)) else None
    case Updating(w, expected) =>
      if found.Some? && found.value.localId == expected then Some(w.Updated(found.value, client.now)) else None
    case _ => None
  }

  /** What a client knows after a step it was told about. */
  function Learned(f: CaseMap, client: Client, found: Option<Row>): Phase {
    match client.phase
    case Creating(w) =>
      if found.None? then Done(Ok(ToAgent(f, w.NewRow(client.now)), true))
      else if w.Plain? then Done(Failed(AlreadyExists)) else Observing(w)
    case Observing(w) => AfterObserving(f, w, found)
    case Updating(w, expected) =>
      if found.Some? && found.value.localId == expected then Done(Ok(ToAgent(f, w.Updated(found.value, client.now)), false))
      else Done(Failed(LocalIdChanged))
    case Done(_) => client.phase
  }

  function Exec(f: CaseMap, w: World, e: Event): World {
    match e
    case Begin(c, call, now) =>
      if c in w.clients then w else w.(clients := w.clients[c := Client(call, now, Start(f, call))])
    case Step(c, reported) =>
      if c !in w.clients || w.clients[c].phase.Done? then w
      else
        var client := w.clients[c];
        var key := client.phase.w.key;
        var found := Last(w.table, key);
        var row := Committed(client, found);
        World(if row.Some? then Append(w.table, key, Commit(c, row.value)) else w.table,
              w.clients[c := client.(phase := if reported then Learned(f, client, found) else Done(Failed(StoreError)))])
    case Break(c) =>
      if c !in w.clients || w.clients[c].phase.Done? then w
      else w.(clients := w.clients[c := w.clients[c].(phase := Done(Failed(StoreError)))])
  }

  function Run(f: CaseMap, w: World, events: seq<Event>): World
    decreases |events|
  {
    if events == [] then w else Run(f, Exec(f, w, events[0]), events[1..])
  }

  function Empty(): World { World(map[], map[]) }

  // ---- the invariant ----

  /** A validated write: normalized key, trimmed local ids. */
  ghost predicate Prepared(f: CaseMap, call: Call, w: Write) {
    && Prepare(f, call) == Some(w)
    && Trimmed(w.LocalId()) && (w.Expected().Some? ==> Trimmed(w.Expected().value)) && (w.Recover? ==> w.LocalId() != "")
  }

  lemma PrepareTrims(f: CaseMap, call: Call)
    ensures Prepare(f, call).Some? ==> Prepared(f, call, Prepare(f, call).value)
  {
    hide Trim, Normalize, Sha256Name;
  }

  /** This update may set its local id over that one. */
  ghost predicate MayReplace(w: Write, stored: string) {
    || stored == "" || w.LocalId() == "" || Fold(w.LocalId()) == Fold(stored) || w.Expected() == Some(stored)
  }

  /** Version i of a row: created by the first writer, or updated by a call that was allowed to. */
  ghost predicate VersionOk(f: CaseMap, clients: map<nat, Client>, key: Key, versions: seq<Commit>, i: nat)
    requires i < |versions|
  {
    && versions[i].client in clients && Trimmed(versions[i].row.localId)
    && var client := clients[versions[i].client];
      Prepare(f, client.call).Some?
      && var w := Prepare(f, client.call).value;
        && Prepared(f, client.call, w) && w.key == key
        && if i == 0 then versions[0].row == w.NewRow(client.now) && w.Expected() == None
           else !w.Plain? && versions[i].row == w.Updated(versions[i - 1].row, client.now)
                && MayReplace(w, versions[i - 1].row.localId)
  }

  ghost predicate KeyOk(f: CaseMap, w: World, key: Key) {
    key in w.table ==> (
      && w.table[key] != []
      && forall i: nat :: i < |w.table[key]| ==> VersionOk(f, w.clients, key, w.table[key], i))
  }

  ghost predicate ClientOk(f: CaseMap, table: map<Key, seq<Commit>>, c: nat, client: Client) {
    match client.phase
    case Creating(w) => Prepared(f, client.call, w) && w.Expected() == None
    case Observing(w) => Prepared(f, client.call, w) && !w.Plain? && w.Expected() == None && w.key in table
    case Updating(w, expected) =>
      && Prepared(f, client.call, w) && !w.Plain? && Trimmed(expected)
      && (w.Expected() == Some(expected)
          || (w.Expected() == None && (expected == "" || w.LocalId() == "" || Fold(w.LocalId()) == Fold(expected))))
    case Done(reply) =>
      reply.Ok? && reply.created ==>
        Prepare(f, client.call).Some? && var key := Prepare(f, client.call).value.key;
        key in table && table[key] != [] && table[key][0].client == c
  }

  ghost predicate Inv(f: CaseMap, w: World) {
    && (forall key :: KeyOk(f, w, key))
    && (forall c :: c in w.clients ==> ClientOk(f, w.table, c, w.clients[c]))
  }

  lemma StartOk(f: CaseMap, table: map<Key, seq<Commit>>, c: nat, call: Call, now: int)
    ensures ClientOk(f, table, c, Client(call, now, Start(f, call)))
  {
    hide Prepare;
    PrepareTrims(f, call);
    PlainExpects(f, call);
  }

  lemma PlainExpects(f: CaseMap, call: Call)
    ensures Prepare(f, call).Some? && Prepare(f, call).value.Plain? ==> Prepare(f, call).value.Expected() == None
  {
    hide ValidFinalized, ValidRecovered;
  }

  lemma ObserveOk(f: CaseMap, table: map<Key, seq<Commit>>, c: nat, client: Client, found: Option<Row>)
    requires ClientOk(f, table, c, client) && client.phase.Observing?
    requires found.Some? ==> Trimmed(found.value.localId)
    ensures ClientOk(f, table, c, client.(phase := AfterObserving(f, client.phase.w, found)))
  {
    hide Prepare, Trim, Normalize, Fold;
  }

  lemma LearnedOk(f: CaseMap, w: World, c: nat, later: map<Key, seq<Commit>>)
    requires Inv(f, w) && c in w.clients && !w.clients[c].phase.Done?
    requires var key := w.clients[c].phase.w.key;
      var row := Committed(w.clients[c], Last(w.table, key));
      later == if row.Some? then Append(w.table, key, Commit(c, row.value)) else w.table
    ensures var found := Last(w.table, w.clients[c].phase.w.key);
      ClientOk(f, later, c, w.clients[c].(phase := Learned(f, w.clients[c], found)))
  {
    hide Prepare, AfterObserving, Validate, Fold, ToAgent;
    var client := w.clients[c];
    var key := client.phase.w.key;
    assert ClientOk(f, w.table, c, client) && KeyOk(f, w, key);
    if client.phase.Observing? {
      assert VersionOk(f, w.clients, key, w.table[key], |w.table[key]| - 1);
      ObserveOk(f, w.table, c, client, Last(w.table, key));
    }
  }

  /** The version a step commits is in order. */
  lemma CommittedOk(f: CaseMap, w: World, c: nat, row: Row, clients: map<nat, Client>)
    requires Inv(f, w) && c in w.clients && !w.clients[c].phase.Done?
    requires Committed(w.clients[c], Last(w.table, w.clients[c].phase.w.key)) == Some(row)
    requires clients.Keys == w.clients.Keys
    requires forall d :: d in clients ==> clients[d].call == w.clients[d].call && clients[d].now == w.clients[d].now
    ensures var key := w.clients[c].phase.w.key;
      KeyOk(f, World(Append(w.table, key, Commit(c, row)), clients), key)
  {
    hide Prepare, Fold, Trimmed;
    var client := w.clients[c];
    var key := client.phase.w.key;
    var later := Append(w.table, key, Commit(c, row));
    assert ClientOk(f, w.table, c, client) && KeyOk(f, w, key);
    var old_ := if key in w.table then w.table[key] else [];
    assert later[key] == old_ + [Commit(c, row)];
    forall i: nat | i < |later[key]| ensures VersionOk(f, clients, key, later[key], i) {
      if i < |old_| {
        assert VersionOk(f, w.clients, key, old_, i);
        assert later[key][i] == old_[i] && (i > 0 ==> later[key][i - 1] == old_[i - 1]);
      } else if i > 0 {
        assert VersionOk(f, w.clients, key, old_, i - 1);
        if client.phase.w.LocalId() == "" {
          UpdateKeeps(client.phase.w, old_[i - 1].row, client.now);
        }
      }
    }
  }

  lemma StepInv(f: CaseMap, w: World, c: nat, reported: bool)
    requires Inv(f, w)
    ensures Inv(f, Exec(f, w, Step(c, reported)))
  {
    hide Prepare, Learned, Committed, VersionOk;
    var later := Exec(f, w, Step(c, reported));
    if c in w.clients && !w.clients[c].phase.Done? {
      var client := w.clients[c];
      var key := client.phase.w.key;
      var row := Committed(client, Last(w.table, key));
      LearnedOk(f, w, c, later.table);
      forall k ensures KeyOk(f, later, k) {
        if row.Some? && k == key {
          CommittedOk(f, w, c, row.value, later.clients);
        } else {
          assert KeyOk(f, w, k);
          SameVersions(f, w, later, k);
        }
      }
      forall d | d in later.clients ensures ClientOk(f, later.table, d, later.clients[d]) {
        if d != c {
          assert ClientOk(f, w.table, d, w.clients[d]);
        }
      }
    }
  }

  lemma SameVersions(f: CaseMap, w: World, later: World, key: Key)
    requires KeyOk(f, w, key) && (key in later.table <==> key in w.table)
    requires key in w.table ==> later.table[key] == w.table[key]
    requires forall d :: d in w.clients ==>
      d in later.clients && later.clients[d].call == w.clients[d].call && later.clients[d].now == w.clients[d].now
    ensures KeyOk(f, later, key)
  {
    hide Prepare, Prepared, MayReplace, Trimmed;
    if key in w.table {
      forall i: nat | i < |w.table[key]| ensures VersionOk(f, later.clients, key, w.table[key], i) {
        assert VersionOk(f, w.clients, key, w.table[key], i);
      }
    }
  }

  lemma ExecInv(f: CaseMap, w: World, e: Event)
    requires Inv(f, w)
    ensures Inv(f, Exec(f, w, e))
  {
    hide Prepare, Learned, Committed, VersionOk, Start;
    var later := Exec(f, w, e);
    if e.Step? {
      StepInv(f, w, e.client, e.reported);
    } else if later != w {
      forall k ensures KeyOk(f, later, k) {
        assert KeyOk(f, w, k);
        SameVersions(f, w, later, k);
      }
      if e.Begin? {
        StartOk(f, w.table, e.client, e.call, e.now);
      }
    }
  }

  lemma {:induction false} RunInv(f: CaseMap, w: World, events: seq<Event>)
    requires Inv(f, w)
    ensures Inv(f, Run(f, w, events))
    decreases |events|
  {
    hide Inv, Exec;
    if events != [] {
      ExecInv(f, w, events[0]);
      RunInv(f, Exec(f, w, events[0]), events[1..]);
    }
  }

  // ---- every run ----

  /** The call reported that it created the row of this key. */
  ghost predicate Creates(f: CaseMap, w: World, c: nat, key: Key) {
    && c in w.clients && w.clients[c].phase.Done? && w.clients[c].phase.reply.Ok? && w.clients[c].phase.reply.created
    && Prepare(f, w.clients[c].call).Some? && Prepare(f, w.clients[c].call).value.key == key
  }

  /** At most one call per key reports that it created the row. */
  lemma CreatedOnce(f: CaseMap, events: seq<Event>, c: nat, d: nat, key: Key)
    ensures var w := Run(f, Empty(), events);
      Creates(f, w, c, key) && Creates(f, w, d, key) ==> c == d
  {
    hide Exec, Prepare, KeyOk;
    assert Inv(f, Empty()) by { EmptyInv(f); }
    RunInv(f, Empty(), events);
    var w := Run(f, Empty(), events);
    assert c in w.clients ==> ClientOk(f, w.table, c, w.clients[c]);
    assert d in w.clients ==> ClientOk(f, w.table, d, w.clients[d]);
  }

  lemma EmptyInv(f: CaseMap)
    ensures Inv(f, Empty())
  {
  }

  /** The write that committed version i. */
  ghost predicate WrittenBy(f: CaseMap, w: World, key: Key, i: nat, write: Write) {
    && key in w.table && i < |w.table[key]| && w.table[key][i].client in w.clients
    && Prepare(f, w.clients[w.table[key][i].client].call) == Some(write)
  }

  /** From one version to the next: the identity stays, and so does the username, unless the writer had seen it. */
  ghost predicate StepOk(before: Row, after: Row, write: Write) {
    && after.account == before.account && after.agentId == before.agentId && after.createdAt == before.createdAt
    && (before.localId != "" ==> after.localId != "")
    && (before.localId != "" && Fold(after.localId) != Fold(before.localId) ==> write.Expected() == Some(before.localId))
  }

  lemma VersionStep(f: CaseMap, w: World, key: Key, i: nat, write: Write)
    requires Inv(f, w) && i > 0 && WrittenBy(f, w, key, i, write)
    ensures StepOk(w.table[key][i - 1].row, w.table[key][i].row, write)
  {
    hide Prepare, Fold;
    assert KeyOk(f, w, key) && VersionOk(f, w.clients, key, w.table[key], i);
    UpdateKeeps(write, w.table[key][i - 1].row, w.clients[w.table[key][i].client].now);
  }

  /**
   In every run of concurrent writers, a local id is never cleared, and a change of the username it folds
   to is committed only by a call whose expected local id is the one stored at that moment.
   */
  lemma UsernameGuarded(f: CaseMap, events: seq<Event>, key: Key, i: nat, write: Write)
    ensures var w := Run(f, Empty(), events);
      i > 0 && WrittenBy(f, w, key, i, write) ==> StepOk(w.table[key][i - 1].row, w.table[key][i].row, write)
  {
    hide Exec, Prepare, StepOk, Inv;
    EmptyInv(f);
    RunInv(f, Empty(), events);
    var w := Run(f, Empty(), events);
    if i > 0 && WrittenBy(f, w, key, i, write) {
      VersionStep(f, w, key, i, write);
    }
  }

  /** No version of the key in lo .. hi was written by a call that named an expected local id. */
  ghost predicate Unguided(f: CaseMap, w: World, key: Key, lo: nat, hi: nat) {
    key in w.table && forall i: nat :: lo < i <= hi && i < |w.table[key]| ==> Blind(f, w, key, i)
  }

  ghost predicate Blind(f: CaseMap, w: World, key: Key, i: nat)
    requires key in w.table && i < |w.table[key]|
  {
    w.table[key][i].client in w.clients
    && Prepare(f, w.clients[w.table[key][i].client].call).Some?
    && Prepare(f, w.clients[w.table[key][i].client].call).value.Expected() == None
  }

  /** Callers without an expected local id never change a username once there is one, however many they are. */
  lemma {:induction false} UsernameStable(f: CaseMap, w: World, key: Key, i: nat, j: nat)
    requires Inv(f, w) && key in w.table && i <= j < |w.table[key]|
    requires w.table[key][i].row.localId != "" && Unguided(f, w, key, i, j)
    ensures w.table[key][j].row.localId != ""
    ensures Fold(w.table[key][j].row.localId) == Fold(w.table[key][i].row.localId)
    decreases j
  {
    hide Prepare, Fold, Inv;
    if i < j {
      UsernameStable(f, w, key, i, j - 1);
      assert Blind(f, w, key, j);
      var write := Prepare(f, w.clients[w.table[key][j].client].call).value;
      VersionStep(f, w, key, j, write);
    }
  }

  /** So it is in every run, between any two versions of a row. */
  lemma UsernameStableRuns(f: CaseMap, events: seq<Event>, key: Key, i: nat, j: nat)
    ensures var w := Run(f, Empty(), events);
      key in w.table && i <= j < |w.table[key]| && w.table[key][i].row.localId != "" && Unguided(f, w, key, i, j) ==>
        w.table[key][j].row.localId != "" && Fold(w.table[key][j].row.localId) == Fold(w.table[key][i].row.localId)
  {
    hide Exec, Prepare, Inv, Fold, Unguided;
    EmptyInv(f);
    RunInv(f, Empty(), events);
    var w := Run(f, Empty(), events);
    if key in w.table && i <= j < |w.table[key]| && w.table[key][i].row.localId != "" && Unguided(f, w, key, i, j) {
      UsernameStable(f, w, key, i, j);
    }
  }

  // ---- an undisturbed call ----

  /** The table and the reply after a call that runs alone, told of every step. */
  function Alone(f: CaseMap, rows: map<Key, Row>, call: Call, now: int): (map<Key, Row>, Reply) {
    match Prepare(f, call)
    case None => (rows, Failed(InvalidInput))
    case Some(w) =>
      if w.key !in rows then
        if w.Expected().Some? then (rows, Failed(LocalIdChanged))
        else (rows[w.key := w.NewRow(now)], Ok(ToAgent(f, w.NewRow(now)), true))
      else if w.Plain? then (rows, Failed(AlreadyExists))
      else
        var row := rows[w.key];
        var stored := Trim(row.localId);
        var refused :=
          if w.Expected().Some? then row.localId != w.Expected().value
          else row.localId != stored || (w.LocalId() != "" && stored != "" && !Validate(w.LocalId(), stored));
        if refused then (rows, Failed(LocalIdChanged))
        else (rows[w.key := w.Updated(row, now)], Ok(ToAgent(f, w.Updated(row, now)), false))
  }

  /** The stored row of every key. */
  function Rows(table: map<Key, seq<Commit>>): map<Key, Row>
    requires forall key :: key in table ==> table[key] != []
  {
    map key | key in table :: table[key][|table[key]| - 1].row
  }

  /** A call that begins and takes three steps with nobody in between. */
  function Undisturbed(f: CaseMap, w: World, c: nat, call: Call, now: int): World {
    Exec(f, Exec(f, Exec(f, Exec(f, w, Begin(c, call, now)), Step(c, true)), Step(c, true)), Step(c, true))
  }

  ghost predicate Ends(w: World, c: nat, rows: map<Key, Row>, reply: Reply) {
    (forall key :: key in w.table ==> w.table[key] != []) && Rows(w.table) == rows
    && c in w.clients && w.clients[c].phase == Done(reply)
  }

  ghost predicate Waits(w: World, c: nat, call: Call, now: int, phase: Phase) {
    (forall key :: key in w.table ==> w.table[key] != []) && c in w.clients && w.clients[c] == Client(call, now, phase)
  }

  lemma EndsStays(f: CaseMap, w: World, c: nat, rows: map<Key, Row>, reply: Reply)
    requires Ends(w, c, rows, reply)
    ensures Ends(Exec(f, w, Step(c, true)), c, rows, reply)
  {
  }

  /** One step: commit and finish, or go on over the same rows. */
  lemma StepWaits(f: CaseMap, w: World, c: nat, call: Call, now: int, phase: Phase)
    requires Waits(w, c, call, now, phase) && !phase.Done?
    ensures var rows := Rows(w.table);
      var found := if phase.w.key in rows then Some(rows[phase.w.key]) else None;
      var row := Committed(w.clients[c], found);
      var later := Exec(f, w, Step(c, true));
      && Waits(later, c, call, now, Learned(f, w.clients[c], found))
      && Rows(later.table) == if row.Some? then rows[phase.w.key := row.value] else rows
  {
    hide Learned, Committed;
    assert Last(w.table, phase.w.key) == if phase.w.key in w.table then Some(Rows(w.table)[phase.w.key]) else None;
  }

  lemma UpdatingEnds(f: CaseMap, w: World, c: nat, call: Call, now: int, write: Write, expected: string)
    requires Waits(w, c, call, now, Updating(write, expected))
    ensures var rows := Rows(w.table);
      var later := Exec(f, w, Step(c, true));
      if write.key in rows && rows[write.key].localId == expected
      then Ends(later, c, rows[write.key := write.Updated(rows[write.key], now)],
                Ok(ToAgent(f, write.Updated(rows[write.key], now)), false))
      else Ends(later, c, rows, Failed(LocalIdChanged))
  {
    hide ToAgent, Exec;
    StepWaits(f, w, c, call, now, Updating(write, expected));
  }

  /** The steps of a call refine the sequential call when nobody acts in between. */
  lemma AloneIsSequential(f: CaseMap, w: World, c: nat, call: Call, now: int)
    requires c !in w.clients && forall key :: key in w.table ==> w.table[key] != []
    ensures var (rows, reply) := Alone(f, Rows(w.table), call, now);
      Ends(Undisturbed(f, w, c, call, now), c, rows, reply)
  {
    hide Prepare, Validate, ToAgent, Trim, Ends, Exec;
    PlainExpects(f, call);
    var (rows, reply) := Alone(f, Rows(w.table), call, now);
    var w1 := Exec(f, w, Begin(c, call, now));
    var w2 := Exec(f, w1, Step(c, true));
    var w3 := Exec(f, w2, Step(c, true));
    BeginWaits(f, w, c, call, now);
    if Start(f, call).Done? {
      StartEnds(w1, c, call, now, InvalidInput);
      EndsStays(f, w1, c, rows, reply);
      EndsStays(f, w2, c, rows, reply);
      EndsStays(f, w3, c, rows, reply);
    } else if Start(f, call).Updating? {
      UpdatingEnds(f, w1, c, call, now, Start(f, call).w, Start(f, call).expected);
      EndsStays(f, w2, c, rows, reply);
      EndsStays(f, w3, c, rows, reply);
    } else {
      CreatingEnds(f, w1, c, call, now, Start(f, call).w);
    }
  }

  lemma BeginWaits(f: CaseMap, w: World, c: nat, call: Call, now: int)
    requires c !in w.clients && forall key :: key in w.table ==> w.table[key] != []
    ensures var later := Exec(f, w, Begin(c, call, now));
      Waits(later, c, call, now, Start(f, call)) && later.table == w.table
  {
    hide Start;
  }

  lemma StartEnds(w: World, c: nat, call: Call, now: int, error: Error)
    requires Waits(w, c, call, now, Done(Failed(error)))
    ensures Ends(w, c, Rows(w.table), Failed(error))
  {
  }

  /** Create, observe, update. */
  lemma CreatingEnds(f: CaseMap, w: World, c: nat, call: Call, now: int, write: Write)
    requires Waits(w, c, call, now, Creating(write)) && Prepare(f, call) == Some(write) && write.Expected() == None
    ensures var (rows, reply) := Alone(f, Rows(w.table), call, now);
      Ends(Exec(f, Exec(f, Exec(f, w, Step(c, true)), Step(c, true)), Step(c, true)), c, rows, reply)
  {
    hide Prepare, Validate, ToAgent, Trim, Exec;
    var table := Rows(w.table);
    var (rows, reply) := Alone(f, table, call, now);
    StepWaits(f, w, c, call, now, Creating(write));
    var w2 := Exec(f, w, Step(c, true));
    var w3 := Exec(f, w2, Step(c, true));
    if write.key !in table || write.Plain? {
      EndsStays(f, w2, c, rows, reply);
    } else {
      ObservedLocalId(f, table[write.key]);
      TrimTwice(table[write.key].localId);
      StepWaits(f, w2, c, call, now, Observing(write));
      if w3.clients[c].phase.Updating? {
        UpdatingEnds(f, w3, c, call, now, write, Trim(table[write.key].localId));
        return;
      }
    }
    EndsStays(f, w3, c, rows, reply);
  }

  /** The registry of one process: the table it shares, and its three writes. */
  class Store {
    const f: CaseMap
    var rows: map<Key, Row>

    constructor (f: CaseMap)
      ensures this.f == f && rows == map[]
    {
      this.f, rows := f, map[];
    }

    /** IfNotExists().Create(). */
    method CreateIfAbsent(row: Row, key: Key) returns (ok: bool)
      modifies this
      ensures ok == (key !in old(rows))
      ensures rows == if ok then old(rows)[key := row] else old(rows)
    {
      ok := key !in rows;
      if ok {
        rows := rows[key := row];
      }
    }

    method Upsert(call: Call, now: int) returns (reply: Reply)
      modifies this
      ensures (rows, reply) == Alone(f, old(rows), call, now)
    {
      hide Prepare, Validate, ToAgent, Trim;
      var prepared := Prepare(f, call);
      if prepared.None? {
        return Failed(InvalidInput);
      }
      var w := prepared.value;
      PlainExpects(f, call);
      var expected := w.Expected();
      if expected.None? {
        var record := w.NewRow(now);
        var created := CreateIfAbsent(record, w.key);
        if created {
          return Ok(ToAgent(f, record), true);
        }
        if w.Plain? {
          return Failed(AlreadyExists);
        }
        var observed := ToAgent(f, rows[w.key]);
        ObservedLocalId(f, rows[w.key]);
        if w.LocalId() != "" && observed.localId != "" {
          if !Validate(w.LocalId(), observed.localId) {
            return Failed(LocalIdChanged);
          }
        }
        expected := Some(observed.localId);
      }
      if w.key !in rows || rows[w.key].localId != expected.value {
        return Failed(LocalIdChanged);
      }
      var updated := w.Updated(rows[w.key], now);
      rows := rows[w.key := updated];
      reply := Ok(ToAgent(f, updated), false);
    }
  }

  lemma ObservedLocalId(f: CaseMap, row: Row)
    ensures ToAgent(f, row).localId == Trim(row.localId)
  {
    hide Trim;
  }
}
