/**
 Any number of issuers and consumers of download grants, interleaved. A consume is two database steps,
 the conditional update and, when that fails, the read that classifies the failure; other clients may act
 between the two, and the read may be stale.
 */
module GrantWorld {
  import opened Wrappers
  import opened Text
  import opened DownloadGrant

  /** What was issued under a grant id; token is the raw token handed out once. */
  datatype Issue = Issue(binding: Binding, token: string, now: int, ttl: int)

  /** saw is the row the update met, met the row the read found: ghost history, like issues and winners below. */
  datatype Phase = Presenting(ticket: Ticket) | Classifying(ticket: Ticket) | Done(result: Result)
  datatype Consumer = Consumer(input: Input, now: int, phase: Phase, saw: Option<Row>, met: Option<Row>)

  /** rows holds every version of a row, oldest first; the last one is stored. */
  datatype World = World(
    rows: map<string, seq<Row>>, issues: map<string, Issue>, clients: map<nat, Consumer>, winners: map<string, nat>)

  datatype Event =
    | Create(id: string, binding: Binding, ttl: int, token: string, now: int)
    | Begin(client: nat, input: Input, now: int)
    | Update(client: nat, reported: bool)
    | Read(client: nat, lag: nat)
    | Break(client: nat)

  /** The row Issue writes. */
  function IssuedRow(h: Digest, id: string, i: Issue): Row {
    Row(id, ACTIVE, h(Trim(i.token)), i.binding, i.now, None, ExpiryOf(i.now, i.ttl))
  }

  /** The version of a row that was stored lag writes ago. */
  function View(rows: map<string, seq<Row>>, id: string, lag: nat): Option<Row> {
    if id in rows && lag < |rows[id]| then Some(rows[id][|rows[id]| - 1 - lag]) else None
  }

  function WonReply(f: CaseMap, row: Row): Result {
    match ToGrant(f, row)
    case Some(grant) => Won(grant)
    case None => Failed(Unreadable)
  }

  function Exec(f: CaseMap, h: Digest, w: World, e: Event): World {
    match e
    case Create(id, binding, ttl, token, now) =>
      var n, key := NormalizeBinding(f, binding), Trim(id);
      if n.None? || key == "" || Trim(token) == "" || key in w.rows then w
      else
        var i := Issue(n.value, token, now, ttl);
        w.(rows := w.rows[key := [IssuedRow(h, key, i)]], issues := w.issues[key := i])
    case Begin(c, input, now) =>
      if c in w.clients then w
      else
        var phase := match Check(f, h, input, now)
                     case Valid(t) => Presenting(t)
                     case Invalid(error) => Done(Failed(error));
        w.(clients := w.clients[c := Consumer(input, now, phase, None, None)])
    case Update(c, reported) =>
      if c !in w.clients || !w.clients[c].phase.Presenting? then w
      else
        var client := w.clients[c];
        var t := client.phase.ticket;
        var row := View(w.rows, t.grantId, 0);
        if row.Some? && Accepts(row.value, t) then
          var next := MarkConsumed(row.value, t.now);
          w.(rows := w.rows[t.grantId := w.rows[t.grantId] + [next]],
             winners := w.winners[t.grantId := c],
             clients := w.clients[c := client.(phase := Done(if reported then WonReply(f, next) else Failed(StoreError)), saw := row)])
        else
          w.(clients := w.clients[c := client.(phase := if reported then Classifying(t) else Done(Failed(StoreError)), saw := row)])
    case Read(c, lag) =>
      if c !in w.clients || !w.clients[c].phase.Classifying? then w
      else
        var t := w.clients[c].phase.ticket;
        var row := View(w.rows, t.grantId, lag);
        w.(clients := w.clients[c := w.clients[c].(phase := Done(Classify(f, row, t)), met := row)])
    case Break(c) =>
      if c !in w.clients || w.clients[c].phase.Done? then w
      else w.(clients := w.clients[c := w.clients[c].(phase := Done(Failed(StoreError)))])
  }

  function Run(f: CaseMap, h: Digest, w: World, events: seq<Event>): World
    decreases |events|
  {
    if events == [] then w else Run(f, h, Exec(f, h, w, events[0]), events[1..])
  }

  function Empty(): World { World(map[], map[], map[], map[]) }

  // ---- the invariant ----

  /** Client c consumed the grant: its ticket was accepted by the row as issued. */
  ghost predicate WonBy(f: CaseMap, h: Digest, rows: seq<Row>, id: string, client: Consumer) {
    |rows| == 2 && client.phase.Done?
    && match Check(f, h, client.input, client.now)
       case Invalid(_) => false
       case Valid(t) =>
         && t.grantId == id && Accepts(rows[0], t) && rows[1] == MarkConsumed(rows[0], t.now)
         && (client.phase.result == Failed(StoreError)
             || (ToGrant(f, rows[1]).Some? && client.phase.result == Won(ToGrant(f, rows[1]).value)))
  }

  /** A row is as issued, or consumed once. */
  ghost predicate RowsOk(f: CaseMap, h: Digest, id: string, i: Issue, rows: seq<Row>) {
    && Trimmed(id) && NormalizeBinding(f, i.binding) == Some(i.binding)
    && 1 <= |rows| <= 2 && rows[0] == IssuedRow(h, id, i)
    && (|rows| == 2 ==> rows[1].consumedAt.Some? && rows[1] == MarkConsumed(rows[0], rows[1].consumedAt.value))
  }

  ghost predicate ClientOk(f: CaseMap, h: Digest, w: World, c: nat, client: Consumer) {
    match client.phase
    case Presenting(t) => Check(f, h, client.input, client.now) == Valid(t) && client.saw == None
    case Classifying(t) =>
      && Check(f, h, client.input, client.now) == Valid(t)
      && (client.saw.Some? ==> t.grantId in w.rows && client.saw.value in w.rows[t.grantId] && !Accepts(client.saw.value, t))
    case Done(result) =>
      result.Won? ==>
        && Check(f, h, client.input, client.now).Valid?
        && var id := Check(f, h, client.input, client.now).ticket.grantId;
          id in w.winners && w.winners[id] == c
  }

  /** One grant: its versions, and the winner of the second one. */
  ghost predicate GrantOk(f: CaseMap, h: Digest, w: World, id: string) {
    && (id in w.rows <==> id in w.issues)
    && (id in w.winners <==> id in w.rows && |w.rows[id]| == 2)
    && (id in w.rows ==> RowsOk(f, h, id, w.issues[id], w.rows[id]))
    && (id in w.winners ==> w.winners[id] in w.clients && WonBy(f, h, w.rows[id], id, w.clients[w.winners[id]]))
  }

  ghost predicate ConsumerOk(f: CaseMap, h: Digest, w: World, c: nat) {
    c in w.clients ==> ClientOk(f, h, w, c, w.clients[c])
  }

  ghost predicate Inv(f: CaseMap, h: Digest, w: World) {
    (forall id :: GrantOk(f, h, w, id)) && (forall c :: ConsumerOk(f, h, w, c))
  }

  lemma IssuedWellFormed(f: CaseMap, h: Digest, id: string, i: Issue, rows: seq<Row>, k: nat)
    requires RowsOk(f, h, id, i, rows) && k < |rows|
    ensures WellFormed(f, rows[k])
  {
    hide NormalizeBinding, Trim, Trimmed;
    assert TrimmedHash(h);
  }

  lemma CreateInv(f: CaseMap, h: Digest, w: World, e: Event)
    requires Inv(f, h, w) && e.Create?
    ensures Inv(f, h, Exec(f, h, w, e))
  {
    hide NormalizeBinding, Trim, Check, WonBy;
    var later := Exec(f, h, w, e);
    if later != w {
      NormalizeBindingIdempotent(f, e.binding);
      forall id ensures GrantOk(f, h, later, id) {
        assert GrantOk(f, h, w, id);
      }
      forall c ensures ConsumerOk(f, h, later, c) {
        assert ConsumerOk(f, h, w, c);
      }
    }
  }

  /** A client that is not a winner learns something, and no row changes. */
  lemma LearnInv(f: CaseMap, h: Digest, w: World, c: nat, client: Consumer)
    requires Inv(f, h, w) && ClientOk(f, h, w, c, client)
    requires c in w.clients ==> !w.clients[c].phase.Done?
    ensures Inv(f, h, w.(clients := w.clients[c := client]))
  {
    hide NormalizeBinding, Trim, Check, Accepts, RowsOk;
    var later := w.(clients := w.clients[c := client]);
    forall id ensures GrantOk(f, h, later, id) {
      assert GrantOk(f, h, w, id);
    }
    forall d ensures ConsumerOk(f, h, later, d) {
      assert ConsumerOk(f, h, w, d);
    }
  }

  lemma WinGrant(f: CaseMap, h: Digest, w: World, c: nat, reported: bool, t: Ticket)
    requires Inv(f, h, w) && c in w.clients && w.clients[c].phase == Presenting(t)
    requires View(w.rows, t.grantId, 0).Some? && Accepts(View(w.rows, t.grantId, 0).value, t)
    ensures |w.rows[t.grantId]| == 1 && GrantOk(f, h, Exec(f, h, w, Update(c, reported)), t.grantId)
  {
    hide NormalizeBinding, Trim, Check, ToGrant, IssuedRow;
    var rows := w.rows[t.grantId];
    assert GrantOk(f, h, w, t.grantId) && ConsumerOk(f, h, w, c);
    StatusesDiffer();
    var later := Exec(f, h, w, Update(c, reported));
    assert later.rows[t.grantId] == [rows[0], MarkConsumed(rows[0], t.now)];
    assert RowsOk(f, h, t.grantId, w.issues[t.grantId], later.rows[t.grantId]);
    IssuedWellFormed(f, h, t.grantId, w.issues[t.grantId], later.rows[t.grantId], 1);
    StoredReads(f, later.rows[t.grantId][1]);
  }

  lemma WinInv(f: CaseMap, h: Digest, w: World, c: nat, reported: bool, t: Ticket)
    requires Inv(f, h, w) && c in w.clients && w.clients[c].phase == Presenting(t)
    requires View(w.rows, t.grantId, 0).Some? && Accepts(View(w.rows, t.grantId, 0).value, t)
    ensures Inv(f, h, Exec(f, h, w, Update(c, reported)))
  {
    hide NormalizeBinding, Trim, Check, ToGrant, Accepts, RowsOk, MarkConsumed, WonBy;
    WinGrant(f, h, w, c, reported, t);
    var later := Exec(f, h, w, Update(c, reported));
    assert ConsumerOk(f, h, w, c);
    forall id ensures GrantOk(f, h, later, id) {
      assert GrantOk(f, h, w, id);
      if id in w.winners && w.winners[id] == c {
        WinnerDone(f, h, w.rows[id], id, w.clients[c]);
      }
    }
    forall d ensures ConsumerOk(f, h, later, d) {
      assert ConsumerOk(f, h, w, d);
      if d in w.clients && w.clients[d].phase.Done? && w.clients[d].phase.result.Won? {
        assert GrantOk(f, h, w, t.grantId);
      }
    }
  }

  lemma WinnerDone(f: CaseMap, h: Digest, rows: seq<Row>, id: string, client: Consumer)
    requires WonBy(f, h, rows, id, client)
    ensures client.phase.Done?
  {
  }

  lemma ExecInv(f: CaseMap, h: Digest, w: World, e: Event)
    requires Inv(f, h, w)
    ensures Inv(f, h, Exec(f, h, w, e))
  {
    hide NormalizeBinding, Trim, Check, ToGrant, WonBy, RowsOk, Classify, GrantOk;
    if e.Create? {
      CreateInv(f, h, w, e);
    } else {
      var c := e.client;
      var later := Exec(f, h, w, e);
      if e.Update? && c in w.clients && w.clients[c].phase.Presenting?
         && View(w.rows, w.clients[c].phase.ticket.grantId, 0).Some?
         && Accepts(View(w.rows, w.clients[c].phase.ticket.grantId, 0).value, w.clients[c].phase.ticket) {
        WinInv(f, h, w, c, e.reported, w.clients[c].phase.ticket);
      } else if later != w {
        ClassifyNeverWins(f, w, e);
        assert ConsumerOk(f, h, w, c);
        LearnInv(f, h, w, c, later.clients[c]);
        assert later == w.(clients := w.clients[c := later.clients[c]]);
      }
    }
  }

  lemma ClassifyNeverWins(f: CaseMap, w: World, e: Event)
    ensures e.Read? && e.client in w.clients && w.clients[e.client].phase.Classifying? ==>
      var t := w.clients[e.client].phase.ticket;
      !Classify(f, View(w.rows, t.grantId, e.lag), t).Won?
  {
    hide ToGrant, Trim;
  }

  lemma {:induction false} RunInv(f: CaseMap, h: Digest, w: World, events: seq<Event>)
    requires Inv(f, h, w)
    ensures Inv(f, h, Run(f, h, w, events))
    decreases |events|
  {
    hide Inv, Exec;
    if events != [] {
      ExecInv(f, h, w, events[0]);
      RunInv(f, h, Exec(f, h, w, events[0]), events[1..]);
    }
  }

  lemma EmptyInv(f: CaseMap, h: Digest)
    ensures Inv(f, h, Empty())
  {
  }

  // ---- one winner, and only a rightful one ----

  /** A consume that reported success; its grant id. */
  ghost predicate Wins(f: CaseMap, h: Digest, w: World, c: nat, id: string) {
    && c in w.clients && w.clients[c].phase.Done? && w.clients[c].phase.result.Won?
    && Check(f, h, w.clients[c].input, w.clients[c].now).Valid?
    && Check(f, h, w.clients[c].input, w.clients[c].now).ticket.grantId == id
  }

  /** Over every interleaving a grant is consumed at most once. */
  lemma AtMostOnce(f: CaseMap, h: Digest, events: seq<Event>, c: nat, d: nat, id: string)
    ensures var w := Run(f, h, Empty(), events);
      Wins(f, h, w, c, id) && Wins(f, h, w, d, id) ==> c == d
  {
    hide Exec, Check, GrantOk;
    EmptyInv(f, h);
    RunInv(f, h, Empty(), events);
    var w := Run(f, h, Empty(), events);
    assert ConsumerOk(f, h, w, c) && ConsumerOk(f, h, w, d);
  }

  /** The winner presented the issued token and binding within the grant's lifetime, and got that grant back. */
  ghost predicate Rightful(f: CaseMap, w: World, client: Consumer, id: string) {
    && id in w.issues && id == Trim(client.input.grantId)
    && Trim(client.input.token) == Trim(w.issues[id].token)
    && NormalizeBinding(f, client.input.binding) == Some(w.issues[id].binding)
    && client.now - w.issues[id].now < Lifetime(w.issues[id].now, w.issues[id].ttl)
    && client.phase == Done(Won(Grant(id, Consumed, w.issues[id].binding, w.issues[id].now, Some(client.now),
                                      ExpiryOf(w.issues[id].now, w.issues[id].ttl))))
  }

  lemma RightfulWin(f: CaseMap, h: Digest, w: World, c: nat, id: string)
    requires Injective(h) && Inv(f, h, w) && Wins(f, h, w, c, id)
    ensures Rightful(f, w, w.clients[c], id)
  {
    hide NormalizeBinding, Trim, ToGrant;
    assert ConsumerOk(f, h, w, c) && GrantOk(f, h, w, id);
    var i := w.issues[id];
    LifetimeExact(i.now, i.ttl, w.clients[c].now);
    StatusesDiffer();
    IssuedWellFormed(f, h, id, i, w.rows[id], 1);
    StoredReads(f, w.rows[id][1]);
  }

  /** Success needs the issued token and binding, at a clock within the grant's lifetime. */
  lemma WinsRightfully(f: CaseMap, h: Digest, events: seq<Event>, c: nat, id: string)
    requires Injective(h)
    ensures var w := Run(f, h, Empty(), events);
      Wins(f, h, w, c, id) ==> Rightful(f, w, w.clients[c], id)
  {
    hide Exec, Check, Rightful, Inv, Injective;
    EmptyInv(f, h);
    RunInv(f, h, Empty(), events);
    var w := Run(f, h, Empty(), events);
    if Wins(f, h, w, c, id) {
      RightfulWin(f, h, w, c, id);
    }
  }

  // ---- why a consume failed ----

  /** Once a row has refused a ticket, every later version refuses it. */
  lemma RefusedForGood(f: CaseMap, h: Digest, w: World, id: string, row: Row, t: Ticket)
    requires Inv(f, h, w) && id in w.rows && row in w.rows[id] && !Accepts(row, t)
    ensures !Accepts(w.rows[id][|w.rows[id]| - 1], t)
  {
    hide NormalizeBinding, Check, WonBy;
    assert GrantOk(f, h, w, id);
    StatusesDiffer();
  }

  /**
   The answer of a failed consume. It names the true cause of the row the read found, unless that row would
   accept the ticket. Of the row the update met it names the true cause too, except in one case: there the
   ticket came too late, and somebody with an earlier clock consumed the grant before the read.
   */
  ghost predicate Explained(f: CaseMap, h: Digest, w: World, client: Consumer, result: Result) {
    Check(f, h, client.input, client.now).Valid?
    && var t := Check(f, h, client.input, client.now).ticket;
      match client.met
      case None => result == NotFound && client.saw == None
      case Some(found) =>
        && Stored(w, t.grantId, found)
        && (TrueCause(found, t, result) <==> !Accepts(found, t))
        && (Accepts(found, t) ==> result == BindingMismatch && client.saw == None)
        && (client.saw.Some? ==>
              && Stored(w, t.grantId, client.saw.value) && !Accepts(client.saw.value, t)
              && (TrueCause(client.saw.value, t, result)
                  <==> !(ExpiredFor(client.saw.value, t) && found.status == CONSUMED)))
  }

  /** One of the versions of this grant. */
  ghost predicate Stored(w: World, id: string, row: Row) { id in w.rows && row in w.rows[id] }

  /** The only reason to refuse is that the grant has expired. */
  ghost predicate ExpiredFor(row: Row, t: Ticket) {
    row.status == ACTIVE && row.tokenHash == t.hash && row.binding == t.binding && row.expiresAt <= Unix(t.now)
  }

  ghost predicate ExplainedAt(f: CaseMap, h: Digest, w: World, c: nat) {
    c in w.clients && w.clients[c].phase.Done? && !w.clients[c].phase.result.Won? && !w.clients[c].phase.result.Failed? ==>
      Explained(f, h, w, w.clients[c], w.clients[c].phase.result)
  }

  lemma ReadExplains(f: CaseMap, h: Digest, w: World, c: nat, t: Ticket)
    requires Inv(f, h, w) && c in w.clients && w.clients[c].phase == Classifying(t)
    ensures var found := View(w.rows, t.grantId, 0);
      Explained(f, h, w, w.clients[c].(met := found), Classify(f, found, t))
  {
    hide NormalizeBinding, Check, WonBy, Classify, ToGrant, Trim;
    assert ConsumerOk(f, h, w, c) && GrantOk(f, h, w, t.grantId);
    var client := w.clients[c];
    if t.grantId !in w.rows {
      AbsentNotFound(f, t);
    } else {
      var rows := w.rows[t.grantId];
      var now := rows[|rows| - 1];
      TicketHash(f, h, client.input, client.now);
      IssuedWellFormed(f, h, t.grantId, w.issues[t.grantId], rows, |rows| - 1);
      ClassifyCause(f, now, t);
      if client.saw.Some? {
        RefusedForGood(f, h, w, t.grantId, client.saw.value, t);
        CauseStays(f, h, w, t.grantId, client.saw.value, t, Classify(f, Some(now), t));
      }
    }
  }

  lemma CauseStays(f: CaseMap, h: Digest, w: World, id: string, saw: Row, t: Ticket, result: Result)
    requires Inv(f, h, w) && id in w.rows && saw in w.rows[id] && !Accepts(saw, t)
    requires var last := w.rows[id][|w.rows[id]| - 1]; TrueCause(last, t, result)
    ensures var last := w.rows[id][|w.rows[id]| - 1];
      TrueCause(saw, t, result) <==> !(ExpiredFor(saw, t) && last.status == CONSUMED)
  {
    hide NormalizeBinding, Check, WonBy, Trim;
    assert GrantOk(f, h, w, id);
    StatusesDiffer();
    var rows := w.rows[id];
    var last := rows[|rows| - 1];
    if saw != last {
      assert saw == rows[0] && last == MarkConsumed(rows[0], last.consumedAt.value);
    }
  }

  lemma AbsentNotFound(f: CaseMap, t: Ticket)
    ensures Classify(f, None, t) == NotFound
  {
  }

  lemma TicketHash(f: CaseMap, h: Digest, input: Input, now: int)
    ensures Check(f, h, input, now).Valid? ==> Trimmed(Check(f, h, input, now).ticket.hash)
  {
    hide NormalizeBinding, Trim;
    assert TrimmedHash(h);
  }

  lemma ExplainedStays(f: CaseMap, h: Digest, w: World, later: World, client: Consumer, result: Result)
    requires Explained(f, h, w, client, result)
    requires forall id :: id in w.rows ==> id in later.rows && w.rows[id] <= later.rows[id]
    ensures Explained(f, h, later, client, result)
  {
    hide NormalizeBinding, Check, Inv, Trim, TrueCause, Accepts, ExpiredFor;
  }

  lemma RowsGrow(f: CaseMap, h: Digest, w: World, e: Event)
    ensures var later := Exec(f, h, w, e);
      forall id :: id in w.rows ==> id in later.rows && w.rows[id] <= later.rows[id]
  {
    hide NormalizeBinding, Check, Classify, ToGrant, Trim, Accepts;
  }

  lemma ExecExplained(f: CaseMap, h: Digest, w: World, e: Event, c: nat)
    requires Inv(f, h, w) && ExplainedAt(f, h, w, c) && (e.Read? ==> e.lag == 0)
    ensures ExplainedAt(f, h, Exec(f, h, w, e), c)
  {
    hide NormalizeBinding, Check, Classify, ToGrant, Trim, Accepts, WonBy, RowsOk, Explained, Inv;
    ExecInv(f, h, w, e);
    RowsGrow(f, h, w, e);
    var later := Exec(f, h, w, e);
    if c in w.clients && w.clients[c].phase.Done? {
      if !w.clients[c].phase.result.Won? && !w.clients[c].phase.result.Failed? {
        ExplainedStays(f, h, w, later, w.clients[c], w.clients[c].phase.result);
      }
    } else if e.Read? && e.client == c && c in w.clients && w.clients[c].phase.Classifying? {
      ReadExplains(f, h, w, c, w.clients[c].phase.ticket);
      var t := w.clients[c].phase.ticket;
      SameSaw(f, h, w, later, w.clients[c].(met := View(w.rows, t.grantId, 0)), later.clients[c],
              Classify(f, View(w.rows, t.grantId, 0), t));
    }
  }

  lemma SameSaw(f: CaseMap, h: Digest, w: World, later: World, client: Consumer, after: Consumer, result: Result)
    requires Explained(f, h, w, client, result) && later.rows == w.rows
    requires after.input == client.input && after.now == client.now && after.saw == client.saw && after.met == client.met
    ensures Explained(f, h, later, after, result)
  {
    hide Check, TrueCause, Accepts;
  }

  ghost predicate Consistent(events: seq<Event>) {
    forall e :: e in events && e.Read? ==> e.lag == 0
  }

  lemma {:induction false} RunExplained(f: CaseMap, h: Digest, w: World, events: seq<Event>, c: nat)
    requires Inv(f, h, w) && ExplainedAt(f, h, w, c) && Consistent(events)
    ensures ExplainedAt(f, h, Run(f, h, w, events), c)
    decreases |events|
  {
    hide Inv, Exec, ExplainedAt;
    if events != [] {
      ExecInv(f, h, w, events[0]);
      ExecExplained(f, h, w, events[0], c);
      RunExplained(f, h, Exec(f, h, w, events[0]), events[1..], c);
    }
  }

  /**
   With consistent reads a failed consume of a grant that existed at its update reports the true cause of
   that refusal, unless it was refused as expired and the grant was consumed before the read: exactly then
   it reports a replay instead.
   */
  lemma FailuresExplained(f: CaseMap, h: Digest, events: seq<Event>, c: nat)
    requires Consistent(events)
    ensures ExplainedAt(f, h, Run(f, h, Empty(), events), c)
  {
    hide Exec, Explained;
    EmptyInv(f, h);
    RunExplained(f, h, Empty(), events, c);
  }

  /** An issued grant, a consume whose clock is late, and one with an earlier clock. */
  function BothBegun(f: CaseMap, h: Digest, input: Input, ttl: int, issued: int, late: int, early: int): World {
    Exec(f, h, Exec(f, h, Exec(f, h, Empty(), Create(input.grantId, input.binding, ttl, input.token, issued)),
                    Begin(0, input, late)), Begin(1, input, early))
  }

  /** The early one wins between the late one's update and its read. */
  function TwoClocks(f: CaseMap, h: Digest, input: Input, ttl: int, issued: int, late: int, early: int): World {
    Exec(f, h, Exec(f, h, Exec(f, h, BothBegun(f, h, input, ttl, issued, late, early),
                               Update(0, true)), Update(1, true)), Read(0, 0))
  }

  lemma Begun(f: CaseMap, h: Digest, input: Input, ttl: int, issued: int, late: int, early: int)
    returns (row: Row, i: Issue)
    requires NormalizeBinding(f, input.binding).Some? && Trim(input.grantId) != "" && Trim(input.token) != ""
    requires early - issued < Lifetime(issued, ttl) <= late - issued
    ensures Check(f, h, input, late).Valid? && Check(f, h, input, early).Valid?
    ensures var t, u, key := Check(f, h, input, late).ticket, Check(f, h, input, early).ticket, Trim(input.grantId);
      && t.grantId == u.grantId == key && ExpiredFor(row, t) && Accepts(row, u) && WellFormed(f, row)
      && HashEqual(row.tokenHash, t.hash) && u.now == early && row.binding == t.binding
      && BothBegun(f, h, input, ttl, issued, late, early)
         == World(map[key := [row]], map[key := i],
                  map[0 := Consumer(input, late, Presenting(t), None, None),
                      1 := Consumer(input, early, Presenting(u), None, None)], map[])
  {
    hide NormalizeBinding, Trim, ToGrant, Trimmed;
    NormalizeBindingIdempotent(f, input.binding);
    LifetimeExact(issued, ttl, late);
    LifetimeExact(issued, ttl, early);
    i := Issue(NormalizeBinding(f, input.binding).value, input.token, issued, ttl);
    row := IssuedRow(h, Trim(input.grantId), i);
    assert TrimmedHash(h);
  }

  /** The exception does occur: refused as expired, and answered as a replay of the other's success. */
  lemma ExpiredReportedAsReplay(f: CaseMap, h: Digest, input: Input, ttl: int, issued: int, late: int, early: int)
    requires NormalizeBinding(f, input.binding).Some? && Trim(input.grantId) != "" && Trim(input.token) != ""
    requires early - issued < Lifetime(issued, ttl) <= late - issued
    ensures var w := TwoClocks(f, h, input, ttl, issued, late, early);
      && 0 in w.clients && 1 in w.clients && w.clients[1].phase.Done? && w.clients[1].phase.result.Won?
      && Check(f, h, input, late).Valid? && w.clients[0].saw.Some?
      && ExpiredFor(w.clients[0].saw.value, Check(f, h, input, late).ticket)
      && w.clients[0].phase.Done? && w.clients[0].phase.result == Replay(w.clients[1].phase.result.grant)
  {
    hide NormalizeBinding, Trim, ToGrant, Check, BothBegun, WellFormed;
    var row, i := Begun(f, h, input, ttl, issued, late, early);
    ConsumedGrant(f, row, early);
    StatusesDiffer();
    var w := Exec(f, h, BothBegun(f, h, input, ttl, issued, late, early), Update(0, true));
    assert !Accepts(row, Check(f, h, input, late).ticket);
    assert Exec(f, h, w, Update(1, true)).rows[Trim(input.grantId)] == [row, MarkConsumed(row, early)];
  }

  // ---- when the classifier misreports ----

  /** The last return of the classifier: a binding mismatch although the binding matches. */
  ghost predicate FallsThrough(f: CaseMap, row: Option<Row>, t: Ticket) {
    row.Some? && row.value.binding == t.binding && Classify(f, row, t) == BindingMismatch
  }

  /** A consistent read falls through exactly when the row would accept the ticket, and then the update met no row. */
  lemma FallsThroughIff(f: CaseMap, h: Digest, w: World, c: nat, t: Ticket)
    requires Inv(f, h, w) && c in w.clients && w.clients[c].phase == Classifying(t)
    ensures var row := View(w.rows, t.grantId, 0);
      FallsThrough(f, row, t) <==> row.Some? && Accepts(row.value, t)
    ensures FallsThrough(f, View(w.rows, t.grantId, 0), t) ==> w.clients[c].saw == None
  {
    hide NormalizeBinding, Check, WonBy, Classify, ToGrant, Trim, IssuedRow;
    assert ConsumerOk(f, h, w, c) && GrantOk(f, h, w, t.grantId);
    if t.grantId in w.rows {
      var rows := w.rows[t.grantId];
      TicketHash(f, h, w.clients[c].input, w.clients[c].now);
      IssuedWellFormed(f, h, t.grantId, w.issues[t.grantId], rows, |rows| - 1);
      ClassifyCause(f, rows[|rows| - 1], t);
      if w.clients[c].saw.Some? {
        RefusedForGood(f, h, w, t.grantId, w.clients[c].saw.value, t);
      }
    }
  }

  predicate Reported(w: World, c: nat, result: Result) {
    c in w.clients && w.clients[c].phase == Done(result)
  }

  /** A consume whose grant is issued between its update and its read, with exactly the binding it presents. */
  function LateIssue(f: CaseMap, h: Digest, input: Input, ttl: int, now: int): World {
    var w := Exec(f, h, Exec(f, h, Empty(), Begin(0, input, now)), Update(0, true));
    Exec(f, h, Exec(f, h, w, Create(input.grantId, input.binding, ttl, input.token, now)), Read(0, 0))
  }

  /** The unreachable return is reached when the grant appears between the two steps: a false binding mismatch. */
  lemma LateIssueMisreported(f: CaseMap, h: Digest, input: Input, ttl: int, now: int)
    requires NormalizeBinding(f, input.binding).Some? && Trim(input.grantId) != "" && Trim(input.token) != ""
    requires ttl <= 0 || ttl >= SECOND
    ensures Reported(LateIssue(f, h, input, ttl, now), 0, BindingMismatch)
    ensures View(LateIssue(f, h, input, ttl, now).rows, Trim(input.grantId), 0)
      == Some(IssuedRow(h, Trim(input.grantId), Issue(NormalizeBinding(f, input.binding).value, input.token, now, ttl)))
  {
    hide NormalizeBinding, Trim, ToGrant;
    var t := Check(f, h, input, now).ticket;
    LifetimeExact(now, ttl, now);
    StatusesDiffer();
    var w := Exec(f, h, Exec(f, h, Empty(), Begin(0, input, now)), Update(0, true));
    assert w == World(map[], map[], map[0 := Consumer(input, now, Classifying(t), None, None)], map[]);
  }

  /** Every consume begins after its grant was issued: a token is known to nobody before. */
  ghost predicate Orderly(f: CaseMap, h: Digest, w: World, events: seq<Event>)
    decreases |events|
  {
    events != [] ==> OrderlyStep(f, h, w, events[0]) && Orderly(f, h, Exec(f, h, w, events[0]), events[1..])
  }

  ghost predicate OrderlyStep(f: CaseMap, h: Digest, w: World, e: Event) {
    e.Begin? && Check(f, h, e.input, e.now).Valid? ==> Check(f, h, e.input, e.now).ticket.grantId in w.rows
  }

  /** Its grant is stored, and its update met it. */
  ghost predicate Late(f: CaseMap, h: Digest, w: World, c: nat) {
    c in w.clients ==>
      match w.clients[c].phase
      case Presenting(t) => t.grantId in w.rows
      case Classifying(t) => w.clients[c].saw.Some?
      case Done(result) => result.Won? || result.Failed? || w.clients[c].saw.Some?
  }

  lemma ExecLate(f: CaseMap, h: Digest, w: World, e: Event, c: nat)
    requires Inv(f, h, w) && Late(f, h, w, c) && OrderlyStep(f, h, w, e)
    ensures Late(f, h, Exec(f, h, w, e), c)
  {
    hide NormalizeBinding, Check, Classify, ToGrant, Trim, Accepts, WonBy;
    RowsGrow(f, h, w, e);
    if e.Update? && e.client == c && c in w.clients && w.clients[c].phase.Presenting? {
      assert GrantOk(f, h, w, w.clients[c].phase.ticket.grantId);
    }
  }

  lemma {:induction false} RunLate(f: CaseMap, h: Digest, w: World, events: seq<Event>, c: nat)
    requires Inv(f, h, w) && Late(f, h, w, c) && Orderly(f, h, w, events)
    ensures Late(f, h, Run(f, h, w, events), c)
    decreases |events|
  {
    hide Inv, Exec, Late, OrderlyStep;
    if events != [] {
      ExecInv(f, h, w, events[0]);
      ExecLate(f, h, w, events[0], c);
      RunLate(f, h, Exec(f, h, w, events[0]), events[1..], c);
    }
  }

  /** The answer is the true cause in the row it was read from. */
  ghost predicate Truthful(f: CaseMap, h: Digest, w: World, c: nat) {
    c in w.clients && w.clients[c].phase.Done? && !w.clients[c].phase.result.Won? && !w.clients[c].phase.result.Failed? ==>
      && Check(f, h, w.clients[c].input, w.clients[c].now).Valid? && w.clients[c].met.Some?
      && TrueCause(w.clients[c].met.value, Check(f, h, w.clients[c].input, w.clients[c].now).ticket, w.clients[c].phase.result)
  }

  /**
   When tickets are presented only after their grants were issued, and reads are consistent, every refusal
   names the true cause: the last return of the classifier is not reached.
   */
  lemma OrderlyTruthful(f: CaseMap, h: Digest, events: seq<Event>, c: nat)
    requires Consistent(events) && Orderly(f, h, Empty(), events)
    ensures Truthful(f, h, Run(f, h, Empty(), events), c)
    ensures var w := Run(f, h, Empty(), events);
      c in w.clients && w.clients[c].phase.Classifying? ==>
        !FallsThrough(f, View(w.rows, w.clients[c].phase.ticket.grantId, 0), w.clients[c].phase.ticket)
  {
    hide Exec, Check, Inv, TrueCause, Accepts, FallsThrough, ExpiredFor, Stored, View;
    EmptyInv(f, h);
    RunInv(f, h, Empty(), events);
    RunLate(f, h, Empty(), events, c);
    FailuresExplained(f, h, events, c);
    var w := Run(f, h, Empty(), events);
    if c in w.clients && w.clients[c].phase.Classifying? {
      FallsThroughIff(f, h, w, c, w.clients[c].phase.ticket);
    }
  }

  // ---- one consume with nobody in between ----

  function Current(rows: map<string, seq<Row>>): map<string, Row>
    requires forall id :: id in rows ==> rows[id] != []
  {
    map id | id in rows :: rows[id][|rows[id]| - 1]
  }

  /** The table and the answer after an undisturbed consume. */
  function ConsumeAlone(f: CaseMap, h: Digest, table: map<string, Row>, input: Input, now: int): (map<string, Row>, Result) {
    match Check(f, h, input, now)
    case Invalid(error) => (table, Failed(error))
    case Valid(t) =>
      if t.grantId in table && Accepts(table[t.grantId], t) then
        var next := MarkConsumed(table[t.grantId], now);
        (table[t.grantId := next], WonReply(f, next))
      else
        (table, Classify(f, if t.grantId in table then Some(table[t.grantId]) else None, t))
  }

  /** The three steps of one consume, undisturbed. */
  function Alone(f: CaseMap, h: Digest, w: World, c: nat, input: Input, now: int): World {
    Exec(f, h, Exec(f, h, Exec(f, h, w, Begin(c, input, now)), Update(c, true)), Read(c, 0))
  }

  ghost predicate Matches(w: World, c: nat, table: map<string, Row>, result: Result) {
    (forall id :: id in w.rows ==> w.rows[id] != []) && Current(w.rows) == table && Reported(w, c, result)
  }

  lemma AloneWon(f: CaseMap, h: Digest, w: World, c: nat, input: Input, now: int, t: Ticket)
    requires c !in w.clients && Check(f, h, input, now) == Valid(t) && t.now == now
    requires (forall id :: id in w.rows ==> w.rows[id] != []) && t.grantId in w.rows && Accepts(Current(w.rows)[t.grantId], t)
    ensures var next := MarkConsumed(Current(w.rows)[t.grantId], now);
      Matches(Alone(f, h, w, c, input, now), c, Current(w.rows)[t.grantId := next], WonReply(f, next))
  {
    hide Check, Accepts, ToGrant, Classify, MarkConsumed;
    assert View(w.rows, t.grantId, 0) == Some(Current(w.rows)[t.grantId]);
    var later := Alone(f, h, w, c, input, now);
    assert Current(later.rows) == Current(w.rows)[t.grantId := MarkConsumed(Current(w.rows)[t.grantId], now)];
  }

  lemma AloneRefused(f: CaseMap, h: Digest, w: World, c: nat, input: Input, now: int)
    requires c !in w.clients && (forall id :: id in w.rows ==> w.rows[id] != [])
    requires match Check(f, h, input, now)
             case Invalid(_) => true
             case Valid(t) => t.grantId in w.rows ==> !Accepts(Current(w.rows)[t.grantId], t)
    ensures Matches(Alone(f, h, w, c, input, now), c, Current(w.rows), ConsumeAlone(f, h, Current(w.rows), input, now).1)
  {
    hide Check, Accepts, ToGrant, Classify, MarkConsumed;
    if Check(f, h, input, now).Valid? {
      var t := Check(f, h, input, now).ticket;
      assert View(w.rows, t.grantId, 0) == if t.grantId in w.rows then Some(Current(w.rows)[t.grantId]) else None;
    }
  }

  /** The steps of a consume refine the sequential one when nobody acts in between. */
  lemma AloneIsSequential(f: CaseMap, h: Digest, w: World, c: nat, input: Input, now: int)
    requires c !in w.clients && forall id :: id in w.rows ==> w.rows[id] != []
    ensures var (table, result) := ConsumeAlone(f, h, Current(w.rows), input, now);
      Matches(Alone(f, h, w, c, input, now), c, table, result)
  {
    hide Check, Accepts, ToGrant, Classify, MarkConsumed, Exec, Matches;
    CheckKeepsClock(f, h, input, now);
    var checked := Check(f, h, input, now);
    if checked.Valid? && checked.ticket.grantId in w.rows && Accepts(Current(w.rows)[checked.ticket.grantId], checked.ticket) {
      AloneWon(f, h, w, c, input, now, checked.ticket);
    } else {
      AloneRefused(f, h, w, c, input, now);
    }
  }

  lemma CheckKeepsClock(f: CaseMap, h: Digest, input: Input, now: int)
    ensures Check(f, h, input, now).Valid? ==> Check(f, h, input, now).ticket.now == now
  {
    hide NormalizeBinding, Trim;
  }

  /** Presenting a consumed grant again is a replay, whatever the clock says. */
  lemma SecondIsReplay(f: CaseMap, h: Digest, table: map<string, Row>, input: Input, now: int, again: int)
    requires forall id :: id in table ==> WellFormed(f, table[id])
    requires ConsumeAlone(f, h, table, input, now).1.Won?
    ensures var after := ConsumeAlone(f, h, table, input, now).0;
      ConsumeAlone(f, h, after, input, again)
      == (after, Replay(ConsumeAlone(f, h, table, input, now).1.grant))
  {
    hide NormalizeBinding, Trim, ToGrant, WellFormed;
    StatusesDiffer();
    var t := Check(f, h, input, now).ticket;
    assert WellFormed(f, table[t.grantId]);
    ConsumedGrant(f, table[t.grantId], now);
  }

  lemma ConsumedGrant(f: CaseMap, row: Row, now: int)
    requires WellFormed(f, row)
    ensures ToGrant(f, MarkConsumed(row, now)).Some?
  {
    hide NormalizeBinding, Trim, ToGrant;
    StoredReads(f, MarkConsumed(row, now));
  }

  /** The store of one process over the table it shares: create, conditional update, read. */
  class Store {
    const f: CaseMap
    const h: Digest
    var table: map<string, Row>

    constructor (f: CaseMap, h: Digest)
      ensures this.f == f && this.h == h && table == map[]
    {
      this.f, this.h, table := f, h, map[];
    }

    /** Issue with the drawn grant id and token; None when the input is refused or the id is taken. */
    method Issue(id: string, token: string, binding: Binding, ttl: int, now: int) returns (expiry: Option<int>)
      modifies this
      ensures expiry.Some? <==>
        NormalizeBinding(f, binding).Some? && Trim(token) != "" && Trim(id) != "" && Trim(id) !in old(table)
      ensures expiry.Some? ==> expiry.value == ExpiryOf(now, ttl)
      ensures expiry.Some? ==> table == old(table)[Trim(id) :=
        IssuedRow(h, Trim(id), DownloadIssue(NormalizeBinding(f, binding).value, token, now, ttl))]
      ensures expiry.None? ==> table == old(table)
    {
      hide NormalizeBinding, Trim;
      var normalized := NormalizeBinding(f, binding);
      var hash := HashToken(h, token);
      var key := Trim(id);
      if normalized.None? || hash.None? || key == "" || key in table {
        return None;
      }
      var lifetime := if ttl <= 0 then DEFAULT_TTL else ttl;
      table := table[key := Row(key, ACTIVE, hash.value, normalized.value, now, None, Unix(now + lifetime))];
      expiry := Some(Unix(now + lifetime));
    }

    /** Consume: flip the row under its conditions, or read it to say why not. */
    method Consume(input: Input, now: int) returns (result: Result)
      modifies this
      ensures (table, result) == ConsumeAlone(f, h, old(table), input, now)
    {
      hide NormalizeBinding, Trim, ToGrant, Accepts, Classify;
      var checked := Check(f, h, input, now);
      if checked.Invalid? {
        return Failed(checked.error);
      }
      var t := checked.ticket;
      CheckKeepsClock(f, h, input, now);
      if t.grantId in table && Accepts(table[t.grantId], t) {
        var updated := table[t.grantId].(status := CONSUMED, consumedAt := Some(now));
        table := table[t.grantId := updated];
        var grant := ToGrant(f, updated);
        return if grant.Some? then Won(grant.value) else Failed(Unreadable);
      }
      var record := if t.grantId in table then Some(table[t.grantId]) else None;
      result := Classify(f, record, t);
    }
  }

  function DownloadIssue(binding: Binding, token: string, now: int, ttl: int): Issue { Issue(binding, token, now, ttl) }
}