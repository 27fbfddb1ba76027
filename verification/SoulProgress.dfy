/**
 Progress with consistent reads: a call that gives up after its bounded retries lost each attempt to a
 commit of another client, and a returned record is never older than the caller's own write.
 */
module SoulProgress {
  import opened Wrappers
  import opened ContentKeys
  import opened SoulDocument
  import opened SoulRows
  import opened SoulClients
  import opened SoulWorld
  import opened SoulOutcomes

  // ---- commits by other clients ----

  /** Commits of clients other than c at log positions lo .. hi. */
  function Others(log: seq<Entry>, c: nat, lo: nat, hi: nat): nat
    requires hi <= |log|
    decreases hi
  {
    if hi <= lo then 0 else Others(log, c, lo, hi - 1) + Count(log[hi - 1].client != c)
  }

  ghost predicate NoOwn(log: seq<Entry>, c: nat, lo: nat, hi: nat)
    requires hi <= |log|
  {
    forall i :: lo <= i < hi ==> log[i].client != c
  }

  lemma {:induction false} OthersGrow(log: seq<Entry>, c: nat, lo: nat, mid: nat, hi: nat)
    requires lo <= mid <= hi <= |log|
    ensures Others(log, c, lo, mid) <= Others(log, c, lo, hi)
    ensures NoOwn(log, c, mid, hi) ==> Others(log, c, lo, hi) == Others(log, c, lo, mid) + (hi - mid)
    decreases hi
  {
    if mid < hi {
      OthersGrow(log, c, lo, mid, hi - 1);
    }
  }

  lemma {:induction false} OthersPrefix(log: seq<Entry>, later: seq<Entry>, c: nat, lo: nat, hi: nat)
    requires log <= later && hi <= |log|
    ensures Others(later, c, lo, hi) == Others(log, c, lo, hi)
    decreases hi
  {
    if lo < hi {
      OthersPrefix(log, later, c, lo, hi - 1);
    }
  }

  // ---- each attempt is paid for ----

  /** The attempts a phase has used up, those of the enclosing seed included. */
  function Credit(frame: Frame, attempt: nat): nat {
    attempt + if frame.Transitioning? && frame.outer.Some? then frame.outer.value.attempt else 0
  }

  /** Commits of others since the call began: by now, by its last read, and by the version it is bound to. */
  ghost predicate Earned(phase: Phase, byNow: nat, byRead: nat, byBound: nat) {
    match phase
    case Load(frame, attempt) => byNow >= Credit(frame, attempt) && (Bound(phase) ==> byBound >= frame.outer.value.attempt)
    case Write(frame, attempt, _, _) => byRead >= Credit(frame, attempt) && (Bound(phase) ==> byBound >= frame.outer.value.attempt)
    case Reread(frame, attempt) => byNow >= Credit(frame, attempt)
    case Done(reply) => reply == Failed(Exhausted) ==> byNow >= RETRY_LIMIT
  }

  lemma EarnedLoad(scope: Scope, call: Call, frame: Frame, attempt: nat, found: Option<Row>, now: int, byNow: nat, byBound: nat)
    requires Running(scope, call, frame, attempt) && Earned(Load(frame, attempt), byNow, byNow, byBound)
    requires Bound(Load(frame, attempt)) && found.Some? && found.value.version != frame.expected ==> byNow >= byBound + 1
    ensures var after := AfterLoad(scope, call, frame, attempt, found, now);
      Earned(after, byNow, byNow, if !after.Done? && after.frame == frame then byBound else byNow)
  {
    hide NextRow, ToRecord;
  }

  lemma EarnedReread(scope: Scope, call: Call, frame: Frame, attempt: nat, found: Option<Row>, byNow: nat)
    requires Running(scope, call, frame, attempt) && Earned(Reread(frame, attempt), byNow, byNow, 0)
    ensures Earned(AfterReread(scope, call, frame, attempt, found), byNow, byNow, byNow)
  {
    hide NextRow, ToRecord;
  }

  lemma EarnedConflict(scope: Scope, call: Call, phase: Phase, byNow: nat, byRead: nat, byBound: nat)
    requires WellFormed(scope, call, phase) && phase.Write?
    requires Earned(phase, byNow, byRead, byBound) && (byNow >= byRead + 1 || (phase.frame.SeedingDraft? && byNow >= byRead))
    ensures Earned(AfterConflict(phase.frame, phase.attempt), byNow, byNow, byBound)
  {
    hide NextRow;
  }

  /** A phase bound to a version is reached by a read of a row of that version, or stays in its loop. */
  lemma BoundAtRead(scope: Scope, call: Call, phase: Phase, answer: Answer)
    requires WellFormed(scope, call, phase)
    ensures var after := Next(scope, call, phase, answer);
      Bound(after) && (phase.Done? || phase.Reread? || after.frame != phase.frame) ==>
        FoundIn(answer).Some? && after.frame.expected == FoundIn(answer).value.version && answer.Found? && after.Load?
  {
    hide NextRow, AfterLoad, AfterReread, ToRecord;
    NextBound(scope, call, phase, answer);
    if (phase.Load? || phase.Reread?) && (answer.Found? || answer.Absent?) {
      BoundLoads(scope, call, phase.frame, phase.attempt, FoundIn(answer), if answer.Found? then answer.now else 0);
    }
  }

  lemma BoundLoads(scope: Scope, call: Call, frame: Frame, attempt: nat, found: Option<Row>, now: int)
    requires Fits(call, frame)
    ensures var after := AfterLoad(scope, call, frame, attempt, found, now); Bound(after) && after.frame != frame ==> after.Load?
    ensures var after := AfterReread(scope, call, frame, attempt, found); Bound(after) ==> after.Load? && after.frame != frame
  {
    hide NextRow, ToRecord;
  }

  // ---- the invariant of runs with consistent reads ----

  /** The log position of the record version a seed's publish is bound to. */
  function BoundPosition(base: Option<Row>, phase: Phase): int {
    if !phase.Done? && phase.frame.Transitioning? then phase.frame.expected - BaseVersion(base) else 0
  }

  ghost predicate InBound(base: Option<Row>, log: seq<Entry>, c: nat, client: Client)
    requires client.readAt <= |log|
  {
    Bound(client.phase) && !client.phase.Reread? ==>
      client.began <= BoundPosition(base, client.phase) <= client.readAt
      && NoOwn(log, c, BoundPosition(base, client.phase), |log|)
  }

  ghost function OthersByBound(base: Option<Row>, log: seq<Entry>, c: nat, client: Client): nat {
    var p := BoundPosition(base, client.phase);
    if 0 <= p <= |log| then Others(log, c, client.began, p) else 0
  }

  /** What client c has seen of the log, and who wrote since. */
  ghost predicate Progress(base: Option<Row>, log: seq<Entry>, c: nat, client: Client) {
    && client.began <= client.readAt <= |log|
    && Earned(client.phase, Others(log, c, client.began, |log|), Others(log, c, client.began, client.readAt),
              OthersByBound(base, log, c, client))
    && InBound(base, log, c, client)
    && (client.phase.Write? ==>
          NoOwn(log, c, client.readAt, |log|)
          && (client.phase.source == Snap(base, log, client.readAt) || client.phase.frame.SeedingDraft?))
    && (client.phase.Done? && client.phase.reply.Ok? ==> NoOwn(log, c, client.readAt, |log|))
  }

  lemma NoOwnPrefix(log: seq<Entry>, later: seq<Entry>, c: nat, lo: nat)
    requires log <= later && |later| == |log| + 1 && later[|log|].client != c && lo <= |log|
    requires NoOwn(log, c, lo, |log|)
    ensures NoOwn(later, c, lo, |later|)
  {
    forall i | lo <= i < |later| ensures later[i].client != c {
      if i < |log| {
        assert later[i] == log[i];
      }
    }
  }

  /** A commit of another client costs client c nothing. */
  lemma OtherCommits(base: Option<Row>, log: seq<Entry>, later: seq<Entry>, c: nat, client: Client)
    requires log <= later && |later| == |log| + 1 && later[|log|].client != c
    requires Progress(base, log, c, client)
    ensures Progress(base, later, c, client)
  {
    hide Others, NoOwn, BoundPosition;
    var p := BoundPosition(base, client.phase);
    OthersPrefix(log, later, c, client.began, |log|);
    OthersPrefix(log, later, c, client.began, client.readAt);
    OthersGrow(later, c, client.began, |log|, |later|);
    if 0 <= p <= |log| {
      OthersPrefix(log, later, c, client.began, p);
    }
    if Bound(client.phase) && !client.phase.Reread? {
      NoOwnPrefix(log, later, c, p);
    }
    if client.phase.Write? || (client.phase.Done? && client.phase.reply.Ok?) {
      NoOwnPrefix(log, later, c, client.readAt);
    }
  }

  function BoundAfter(phase: Phase, after: Phase, byNow: nat, byBound: nat): nat {
    if phase.Load? && !after.Done? && after.frame == phase.frame then byBound else byNow
  }

  /** What a read leaves to pay for, in counts alone. */
  lemma ReadEarned(scope: Scope, call: Call, phase: Phase, answer: Answer, byNow: nat, byBound: nat)
    requires WellFormed(scope, call, phase) && (phase.Load? || phase.Reread?) && (answer.Found? || answer.Absent?)
    requires Earned(phase, byNow, byNow, byBound)
    requires phase.Load? && Bound(phase) && FoundIn(answer).Some? && FoundIn(answer).value.version != phase.frame.expected
             ==> byNow >= byBound + 1
    ensures var after := Next(scope, call, phase, answer);
      Earned(after, byNow, byNow, BoundAfter(phase, after, byNow, byBound))
  {
    hide NextRow, AfterLoad, AfterReread, Earned;
    if phase.Load? {
      EarnedLoad(scope, call, phase.frame, phase.attempt, FoundIn(answer), answer.now, byNow, byBound);
    } else {
      EarnedByRead(phase, byNow, byNow, byBound);
      EarnedReread(scope, call, phase.frame, phase.attempt, FoundIn(answer), byNow);
    }
  }

  lemma BoundCount(base: Option<Row>, log: seq<Entry>, c: nat, client: Client, after: Phase)
    requires !client.phase.Done? && client.began <= |log|
    requires Bound(after) && (!client.phase.Load? || after.frame != client.phase.frame) ==>
               after.frame.expected == BaseVersion(base) + |log|
    requires Bound(after)
    ensures OthersByBound(base, log, c, client.(phase := after))
      == BoundAfter(client.phase, after, Others(log, c, client.began, |log|), OthersByBound(base, log, c, client))
  {
    hide Others;
  }

  /** If the version a publish is bound to is not current any more, somebody else committed since. */
  lemma LateBound(scope: Scope, base: Option<Row>, log: seq<Entry>, c: nat, client: Client)
    requires Lawful(scope) && BaseOk(scope, base) && Chain(scope, base, log)
    requires Progress(base, log, c, client) && client.phase.Load?
    ensures Bound(client.phase) && Snap(base, log, |log|).Some?
            && Snap(base, log, |log|).value.version != client.phase.frame.expected
            ==> Others(log, c, client.began, |log|) >= OthersByBound(base, log, c, client) + 1
  {
    hide Others, NextRow, Chain, Earned;
    SnapVersion(scope, base, log, |log|);
    if Bound(client.phase) {
      OthersGrow(log, c, client.began, BoundPosition(base, client.phase), |log|);
    }
  }

  /** Only a bound phase depends on byBound. */
  lemma EarnedUnbound(phase: Phase, byNow: nat, byBound: nat, byBound': nat)
    requires Earned(phase, byNow, byNow, byBound) && (Bound(phase) ==> byBound == byBound')
    ensures Earned(phase, byNow, byNow, byBound')
  {
  }

  lemma EarnedByRead(phase: Phase, byNow: nat, byRead: nat, byBound: nat)
    requires Earned(phase, byNow, byRead, byBound) && !phase.Write?
    ensures Earned(phase, byNow, byNow, byBound)
    ensures phase.Reread? ==> Earned(phase, byNow, byNow, 0)
  {
  }

  /** A consistent read by client c itself. */
  lemma ReadProgress(scope: Scope, base: Option<Row>, log: seq<Entry>, c: nat, client: Client, answer: Answer)
    requires Lawful(scope) && BaseOk(scope, base) && Chain(scope, base, log)
    requires WellFormed(scope, client.call, client.phase) && Progress(base, log, c, client)
    requires client.phase.Load? || client.phase.Reread?
    requires (answer.Found? || answer.Absent?) && FoundIn(answer) == Snap(base, log, |log|)
    ensures Progress(base, log, c, Learn(scope, client, answer).(readAt := |log|))
  {
    hide Others, Next, NextRow, Chain, Earned;
    assert NoOwn(log, c, |log|, |log|);
    var after := Next(scope, client.call, client.phase, answer);
    var byNow, byBound := Others(log, c, client.began, |log|), OthersByBound(base, log, c, client);
    SnapVersion(scope, base, log, |log|);
    BoundAtRead(scope, client.call, client.phase, answer);
    NextBound(scope, client.call, client.phase, answer);
    EarnedByRead(client.phase, byNow, Others(log, c, client.began, client.readAt), byBound);
    if client.phase.Load? {
      LateBound(scope, base, log, c, client);
    }
    ReadEarned(scope, client.call, client.phase, answer, byNow, byBound);
    if Bound(after) {
      BoundCount(base, log, c, client, after);
    }
    EarnedUnbound(after, byNow, BoundAfter(client.phase, after, byNow, byBound),
      OthersByBound(base, log, c, Learn(scope, client, answer)));
  }

  /** A refused transaction: somebody else committed since the read. */
  lemma RefusedProgress(scope: Scope, base: Option<Row>, log: seq<Entry>, c: nat, client: Client)
    requires WellFormed(scope, client.call, client.phase) && Progress(base, log, c, client)
    requires client.phase.Write? && client.phase.source != Snap(base, log, |log|)
    ensures Progress(base, log, c, Learn(scope, client, ConditionFailed))
  {
    hide Others, NextRow, Earned, AfterConflict;
    OthersGrow(log, c, client.began, client.readAt, |log|);
    ConflictPhases(client.phase.frame, client.phase.attempt);
    var after := AfterConflict(client.phase.frame, client.phase.attempt);
    var byNow, byRead := Others(log, c, client.began, |log|), Others(log, c, client.began, client.readAt);
    var byBound := OthersByBound(base, log, c, client);
    EarnedConflict(scope, client.call, client.phase, byNow, byRead, byBound);
    EarnedUnbound(after, byNow, byBound, OthersByBound(base, log, c, Learn(scope, client, ConditionFailed)));
    EarnedReader(after, byNow, byNow, byRead, OthersByBound(base, log, c, Learn(scope, client, ConditionFailed)));
  }

  lemma ConflictPhases(frame: Frame, attempt: nat)
    ensures var after := AfterConflict(frame, attempt);
      !after.Write? && (after.Done? ==> !after.reply.Ok?)
      && (Bound(after) ==> after.frame == frame)
  {
  }

  lemma EarnedReader(phase: Phase, byNow: nat, byRead: nat, byRead': nat, byBound: nat)
    requires Earned(phase, byNow, byRead, byBound) && !phase.Write?
    ensures Earned(phase, byNow, byRead', byBound)
  {
  }

  /** The call's own commit, or an error that ends it. */
  lemma RestProgress(scope: Scope, base: Option<Row>, log: seq<Entry>, later: seq<Entry>, c: nat, client: Client, answer: Answer)
    requires WellFormed(scope, client.call, client.phase) && Progress(base, log, c, client)
    requires log <= later && (answer == Broken || (answer == Committed && client.phase.Write?))
    requires !client.phase.Done?
    ensures Progress(base, later, c, Learn(scope, client, answer))
  {
    hide Others, NextRow, NoOwn, BoundPosition, OthersByBound;
    OthersGrow(log, c, client.began, client.readAt, |log|);
    OthersPrefix(log, later, c, client.began, |log|);
    OthersPrefix(log, later, c, client.began, client.readAt);
    OthersGrow(later, c, client.began, |log|, |later|);
    OthersGrow(later, c, client.began, client.readAt, |later|);
    assert Next(scope, client.call, client.phase, answer)
      == if answer == Broken then Fail(StoreError) else Reread(client.phase.frame, client.phase.attempt);
  }

  ghost predicate AllProgress(w: World) {
    forall c :: c in w.clients ==> Progress(w.base, w.log, c, w.clients[c])
  }

  lemma OwnStep(scope: Scope, w: World, later: World, c: nat, answer: Answer, at: nat, committed: bool)
    requires Inv(scope, w) && AllProgress(w)
    requires c in w.clients && WellFormed(scope, w.clients[c].call, w.clients[c].phase)
    requires Steps(scope, w, later, c, answer, at, committed) && (Saw(w, w.clients[c], answer, at) ==> at == |w.log|)
    ensures Progress(later.base, later.log, c, later.clients[c])
  {
    hide Progress, NextRow, Next, Chain, HistoryOf, EntryOf, ClientOk, IdOf, HistoryFor;
    var client := w.clients[c];
    assert Progress(w.base, w.log, c, client);
    if answer.Found? || answer.Absent? {
      ReadProgress(scope, w.base, w.log, c, client, answer);
    } else {
      assert Learn(scope, client, answer).(readAt := client.readAt) == Learn(scope, client, answer);
      if answer == ConditionFailed {
        RefusedProgress(scope, w.base, w.log, c, client);
      } else if !client.phase.Done? {
        RestProgress(scope, w.base, w.log, later.log, c, client, answer);
      } else {
        DoneLearns(scope, client, answer);
      }
    }
  }

  lemma StartProgress(scope: Scope, base: Option<Row>, log: seq<Entry>, c: nat, call: Call)
    ensures Progress(base, log, c, Client(call, Start(scope, call), |log|, |log|))
  {
    hide NextRow;
  }

  lemma ExecProgress(scope: Scope, w: World, e: Event)
    requires Inv(scope, w) && AllProgress(w) && (e.Read? ==> e.lag == 0)
    ensures ClientsOk(scope, w) && AllProgress(Exec(scope, w, e))
  {
    hide Progress, Inv, Exec, Next, WellFormed, NextRow, IdOf, HistoryFor, Start;
    var answer, at, committed := ExecSteps(scope, w, e);
    var later := Exec(scope, w, e);
    if later != w {
      if e.client !in w.clients {
        StartProgress(scope, w.base, w.log, e.client, e.call);
      } else {
        OwnStep(scope, w, later, e.client, answer, at, committed);
        forall d | d in later.clients && d != e.client ensures Progress(later.base, later.log, d, later.clients[d]) {
          assert later.clients[d] == w.clients[d];
          if committed {
            OtherCommits(w.base, w.log, later.log, d, w.clients[d]);
          }
        }
      }
    }
  }

  ghost predicate Consistent(events: seq<Event>) {
    forall e :: e in events && e.Read? ==> e.lag == 0
  }

  lemma {:induction false} RunProgress(scope: Scope, w: World, events: seq<Event>)
    requires Inv(scope, w) && AllProgress(w) && Consistent(events)
    ensures AllProgress(Run(scope, w, events))
    decreases |events|
  {
    hide Inv, Exec, AllProgress;
    if events != [] {
      ExecInv(scope, w, events[0]);
      ExecProgress(scope, w, events[0]);
      RunProgress(scope, Exec(scope, w, events[0]), events[1..]);
    }
  }

  /**
   With consistent reads, running out of attempts means that at least three commits by other clients
   fell into the call: each attempt was lost to another client, never to the history key or to itself.
   */
  lemma ExhaustedByOthers(scope: Scope, base: Option<Row>, events: seq<Event>, c: nat)
    requires Lawful(scope) && BaseOk(scope, base) && Consistent(events)
    ensures Inv(scope, Initial(base))
    ensures var w := Run(scope, Initial(base), events);
      c in w.clients && w.clients[c].phase == Fail(Exhausted) ==>
        w.clients[c].began <= |w.log| && Others(w.log, c, w.clients[c].began, |w.log|) >= 3
  {
    hide Chain, HistoryOf, Others;
    InitialInv(scope, base);
    RunProgress(scope, Initial(base), events);
  }

  /** With consistent reads a returned record already contains every write of the call itself. */
  lemma ReadsOwnWrites(scope: Scope, base: Option<Row>, events: seq<Event>, c: nat, i: nat)
    requires Lawful(scope) && BaseOk(scope, base) && Consistent(events)
    ensures Inv(scope, Initial(base))
    ensures var w := Run(scope, Initial(base), events);
      (c in w.clients && w.clients[c].phase.Done? && w.clients[c].phase.reply.Ok? && i < |w.log| && w.log[i].client == c)
      ==> i < w.clients[c].readAt
  {
    hide Chain, HistoryOf, Others, Earned;
    InitialInv(scope, base);
    RunProgress(scope, Initial(base), events);
  }
}
