/**
 When a seed of a declaration completes. The declaration is validated as it was written, and again in each
 of the two forms the store stamps; only the limit on the encoded size can tell these apart.
 */
module SeedLimits {
  import opened Wrappers
  import opened ContentKeys
  import opened Json
  import opened JsonText
  import opened SoulDocument
  import opened SoulRows
  import opened SoulClients
  import opened SoulWorld
  import opened SoulHistory
  import opened SoulSeeds
  import opened Text
  import Utf8

  /** The first form: soul version 1, record version 1, a draft. */
  function DraftForm(op: Op): Document
    requires op.Author?
  {
    Stamp(op.doc, Draft, 1, 1, op.subject, op.now, op.now)
  }

  /** The second form: the same soul version, record version 2, published. */
  function PublishedForm(op: Op): Document
    requires op.Author?
  {
    Stamp(op.doc, Published, 1, 2, op.subject, op.now, op.now)
  }

  predicate BothFit(limits: Limits, op: Op)
    requires op.Author?
  {
    FitsItem(limits, DraftForm(op)) && FitsItem(limits, PublishedForm(op))
  }

  lemma StampedValid(limits: Limits, agentId: string, d: Document, state: State, version: int, subject: string, now: int)
    requires ValidDraft(limits, d, agentId) && version >= 1 && Trim(subject) != ""
    ensures var e := Stamp(d, state, 1, version, subject, now, now);
      ValidRecord(limits, e, agentId) <==> FitsItem(limits, e)
  {
    hide FitsItem, ValidSummary, ValidProvenance, ValidFiveBodies, ValidAgentId, Trim, Utf8.Encode;
    TrimTwice(subject);
  }

  lemma DraftWritten(limits: Limits, agentId: string, op: Op)
    requires op.Author? && ValidDraft(limits, op.doc, agentId) && Trim(op.subject) != ""
    ensures NextRow(SoulScope(limits, agentId), op, None).Some? <==> FitsItem(limits, DraftForm(op))
  {
    hide FitsItem, ValidDraft, ValidRecord, ToRecord, Trim;
    StampedValid(limits, agentId, op.doc, Draft, 1, op.subject, op.now);
    assert AuthoredDocument(op, None) == DraftForm(op);
  }

  lemma PublishedWritten(limits: Limits, agentId: string, op: Op, draft: Row)
    requires op.Author? && ValidDraft(limits, op.doc, agentId) && Trim(op.subject) != ""
    requires NextRow(SoulScope(limits, agentId), op, None) == Some(draft)
    ensures NextRow(SoulScope(limits, agentId), Transition(Published, "", 0), Some(draft)).Some?
      <==> FitsItem(limits, PublishedForm(op))
  {
    hide FitsItem, ValidDraft, ValidRecord, ToRecord, Trim, ServerFieldsStamped, Lawful;
    var scope := SoulScope(limits, agentId);
    SoulScopeLawful(limits, agentId);
    AuthoredLoads(scope, op, None);
    RecordProjects(scope, draft);
    TrimTwice(op.subject);
    var record := ToRecord(scope, draft).value;
    assert record.document == DraftForm(op);
    RecordColumns(scope, draft);
    assert TransitionedDocument(Transition(Published, "", 0), draft, record) == PublishedForm(op);
    StampedValid(limits, agentId, op.doc, Published, 2, op.subject, op.now);
  }

  lemma RecordColumns(scope: Scope, row: Row)
    requires ToRecord(scope, row).Some?
    ensures ToRecord(scope, row).value.updatedBy == Trim(row.updatedBy)
  {
  }

  /** An accepted declaration is seeded all the way to publication exactly when both stamped forms fit the limit. */
  lemma OutcomeIff(limits: Limits, agentId: string, op: Op)
    requires op.Author? && ValidDraft(limits, op.doc, agentId) && Trim(op.subject) != ""
    ensures NextRow(SoulScope(limits, agentId), op, None).Some? <==> FitsItem(limits, DraftForm(op))
    ensures Outcome(SoulScope(limits, agentId), op).Some? <==> BothFit(limits, op)
  {
    hide FitsItem, ValidDraft, NextRow, Trim, DraftForm, PublishedForm;
    var scope := SoulScope(limits, agentId);
    DraftWritten(limits, agentId, op);
    if NextRow(scope, op, None).Some? {
      PublishedWritten(limits, agentId, op, NextRow(scope, op, None).value);
    }
  }

  // ---- over all runs of seeds ----

  lemma CreatorValid(limits: Limits, agentId: string, op: Op)
    requires op.Author? && NextRow(SoulScope(limits, agentId), op, None).Some?
    ensures Trim(op.subject) != ""
  {
    hide ValidAuthoring, FitsItem, Trim;
    TrimTwice(op.subject);
  }

  /** Only forms that fit are ever stored, in whatever way the seeds of one declaration interleave and crash. */
  ghost predicate OnlyFitting(limits: Limits, w: World) {
    && |w.log| <= 2
    && (|w.log| >= 1 ==> w.log[0].op.Author? && FitsItem(limits, DraftForm(w.log[0].op)))
    && (|w.log| == 2 ==> BothFit(limits, w.log[0].op))
  }

  lemma SeedsFit(limits: Limits, agentId: string, events: seq<Event>, doc: Document)
    requires ValidDraft(limits, doc, agentId) && OnlySeeds(events, doc)
    ensures Inv(SoulScope(limits, agentId), Initial(None))
    ensures OnlyFitting(limits, Run(SoulScope(limits, agentId), Initial(None), events))
  {
    hide FitsItem, ValidDraft, NextRow, Trim, DraftForm, PublishedForm, Inv, Lawful, SoulScope, OnlySeeds, Outcome;
    var scope := SoulScope(limits, agentId);
    SoulScopeLawful(limits, agentId);
    SeedStates(scope, events, doc);
    var w := Run(scope, Initial(None), events);
    if |w.log| >= 1 {
      CreatorValid(limits, agentId, w.log[0].op);
      DraftWritten(limits, agentId, w.log[0].op);
    }
    if |w.log| == 2 {
      PublishedRow(scope, w.log[1].op, Transition(Published, "", 0), Some(w.log[0].row));
      PublishedWritten(limits, agentId, w.log[0].op, w.log[0].row);
    }
  }

  /** The draft's author: the first seed that got so far, or else the one that runs now. */
  ghost predicate Settled(limits: Limits, last: World, c: nat, op: Op) {
    && op.Author? && c in last.clients
    && if BothFit(limits, op) then
         && last.clients[c].phase.Done? && last.clients[c].phase.reply.Ok? && |last.log| == 2
         && last.table.current.Some? && last.table.current.value.state == Published && last.table.current.value.version == 2
       else
         && last.clients[c].phase == Fail(InvalidDocument)
         && |last.log| == if FitsItem(limits, DraftForm(op)) then 1 else 0
  }

  lemma ConvergedSettles(limits: Limits, agentId: string, w: World, last: World, c: nat, doc: Document, op: Op)
    requires op.Author? && ValidDraft(limits, op.doc, agentId) && Trim(op.subject) != ""
    requires Converged(SoulScope(limits, agentId), w, last, c, doc, op)
    ensures Settled(limits, last, c, op)
  {
    hide FitsItem, ValidDraft, NextRow, Trim, DraftForm, PublishedForm, SoulScope, Outcome, BothFit, ToRecord, Matches;
    OutcomeIff(limits, agentId, op);
  }

  /**
   After any seeds of an accepted declaration, each cut off at any step, one complete seed publishes it
   exactly when both stamped forms fit the limit; otherwise it is refused, and what stays is the draft if that
   fits, or nothing.
   */
  lemma SeedCompletesIff(limits: Limits, agentId: string, events: seq<Event>, doc: Document, c: nat, subject: string,
                         clock: nat -> int, fuel: nat)
    requires ValidDraft(limits, doc, agentId) && OnlySeeds(events, doc) && Trim(subject) != "" && fuel >= 6
    ensures Inv(SoulScope(limits, agentId), Initial(None))
    ensures var scope := SoulScope(limits, agentId);
      var w := Run(scope, Initial(None), events);
      c !in w.clients ==>
        && ClientsOk(scope, w) && Inv(scope, Exec(scope, w, Invoke(c, SeedPublished(doc, subject))))
        && c in Exec(scope, w, Invoke(c, SeedPublished(doc, subject))).clients
        && Settled(limits, Drive(scope, Exec(scope, w, Invoke(c, SeedPublished(doc, subject))), c, clock, fuel), c,
                   Creator(w, doc, subject, clock(fuel)))
  {
    hide FitsItem, ValidDraft, NextRow, Trim, DraftForm, PublishedForm, Inv, Lawful, OnlySeeds, Settled, Converged,
         Drive, Exec, Declares, ToRecord, Outcome, ClientsOk;
    var scope := SoulScope(limits, agentId);
    SoulScopeLawful(limits, agentId);
    SeedStates(scope, events, doc);
    ReplayConverges(scope, events, doc, c, subject, clock, fuel);
    var w := Run(scope, Initial(None), events);
    if c !in w.clients {
      var op := Creator(w, doc, subject, clock(fuel));
      if |w.log| >= 1 {
        CreatorValid(limits, agentId, op);
      } else {
        TrimTwice(subject);
      }
      ConvergedSettles(limits, agentId, w, Drive(scope, Exec(scope, w, Invoke(c, SeedPublished(doc, subject))), c, clock, fuel),
                       c, doc, op);
    }
  }

  // ---- a draft for ever ----

  /** What this author makes of the declaration fits as a draft and never as a published row. */
  ghost predicate Stuck(limits: Limits, doc: Document, subject: string) {
    forall now :: StuckAt(limits, doc, subject, now)
  }

  predicate StuckAt(limits: Limits, doc: Document, subject: string, now: int) {
    var op := Author(doc, Trim(subject), now);
    FitsItem(limits, DraftForm(op)) && !FitsItem(limits, PublishedForm(op))
  }

  /** All calls are made by authors of this kind. */
  ghost predicate StuckCalls(limits: Limits, doc: Document, w: World) {
    forall c :: c in w.clients ==> Stuck(limits, doc, w.clients[c].call.subject)
  }

  ghost predicate StuckEvents(limits: Limits, doc: Document, events: seq<Event>) {
    forall e :: e in events && e.Invoke? ==> Stuck(limits, doc, e.call.subject)
  }

  lemma {:induction false} RunStuck(limits: Limits, scope: Scope, w: World, events: seq<Event>, doc: Document)
    requires Inv(scope, w) && StuckCalls(limits, doc, w) && StuckEvents(limits, doc, events)
    ensures StuckCalls(limits, doc, Run(scope, w, events))
    decreases |events|
  {
    hide Inv, NextRow, Next, BuildTx, Commit, Start, Stuck;
    if events != [] {
      ExecInv(scope, w, events[0]);
      assert events[0] in events;
      RunStuck(limits, scope, Exec(scope, w, events[0]), events[1..], doc);
    }
  }

  /** The draft was stamped in the name of a call that was made. */
  lemma CreatorStuck(limits: Limits, scope: Scope, w: World, doc: Document)
    requires Inv(scope, w) && StuckCalls(limits, doc, w) && |w.log| >= 1 && w.log[0].op.Author? && w.log[0].op.doc == doc
    ensures StuckAt(limits, doc, w.log[0].op.subject, w.log[0].op.now)
  {
    hide NextRow, Chain, HistoryOf, ClientOk, StuckAt, Trim;
    var client := w.clients[w.log[0].client];
    assert EntryOf(scope, client.call, w.log[0]);
    assert StuckAt(limits, doc, client.call.subject, w.log[0].op.now);
    TrimTwice(client.call.subject);
    SameStuck(limits, doc, client.call.subject, w.log[0].op.subject, w.log[0].op.now);
  }

  lemma SameStuck(limits: Limits, doc: Document, subject: string, trimmed: string, now: int)
    requires StuckAt(limits, doc, subject, now) && trimmed == Trim(subject)
    ensures StuckAt(limits, doc, trimmed, now)
  {
    hide Trim, FitsItem;
    TrimTwice(subject);
  }

  lemma StuckOp(limits: Limits, op: Op)
    requires op.Author? && StuckAt(limits, op.doc, op.subject, op.now) && Trim(op.subject) == op.subject
    ensures FitsItem(limits, DraftForm(op)) && !BothFit(limits, op)
  {
    hide Trim, FitsItem;
    assert Author(op.doc, Trim(op.subject), op.now) == op;
  }

  lemma CreatorTrimmed(scope: Scope, w: World)
    requires Inv(scope, w) && |w.log| >= 1
    ensures Trim(w.log[0].op.subject) == w.log[0].op.subject
  {
    hide NextRow, Chain, HistoryOf, ClientOk, Trim;
    var client := w.clients[w.log[0].client];
    assert EntryOf(scope, client.call, w.log[0]);
    TrimTwice(client.call.subject);
  }

  /**
   For every measure, declaration and authors for whom the draft fits and the published form does not: no run
   of seeds ever publishes it. Every complete seed leaves the draft and fails, and can be repeated for ever.
   */
  lemma DraftForEver(limits: Limits, agentId: string, doc: Document, events: seq<Event>, c: nat, subject: string,
                     clock: nat -> int, fuel: nat)
    requires ValidDraft(limits, doc, agentId) && OnlySeeds(events, doc) && Trim(subject) != "" && fuel >= 6
    requires StuckEvents(limits, doc, events) && Stuck(limits, doc, subject)
    ensures Inv(SoulScope(limits, agentId), Initial(None))
    ensures var scope := SoulScope(limits, agentId);
      var w := Run(scope, Initial(None), events);
      && |w.log| <= 1
      && (c !in w.clients ==>
            && ClientsOk(scope, w) && Inv(scope, Exec(scope, w, Invoke(c, SeedPublished(doc, subject))))
            && c in Exec(scope, w, Invoke(c, SeedPublished(doc, subject))).clients
            && var last := Drive(scope, Exec(scope, w, Invoke(c, SeedPublished(doc, subject))), c, clock, fuel);
              c in last.clients && last.clients[c].phase == Fail(InvalidDocument) && |last.log| == 1)
  {
    hide FitsItem, ValidDraft, NextRow, Trim, DraftForm, PublishedForm, Inv, Lawful, OnlySeeds, Drive, Exec, ClientsOk,
         SoulScope, StuckAt, BothFit, StuckEvents;
    var scope := SoulScope(limits, agentId);
    SeedsFit(limits, agentId, events, doc);
    SoulScopeLawful(limits, agentId);
    SeedStates(scope, events, doc);
    SeedCompletesIff(limits, agentId, events, doc, c, subject, clock, fuel);
    RunStuck(limits, scope, Initial(None), events, doc);
    Safe(scope, events);
    var w := Run(scope, Initial(None), events);
    if |w.log| >= 1 {
      CreatorStuck(limits, scope, w, doc);
      CreatorTrimmed(scope, w);
      StuckOp(limits, w.log[0].op);
    } else {
      TrimTwice(subject);
      assert StuckAt(limits, doc, subject, clock(fuel));
      SameStuck(limits, doc, subject, Trim(subject), clock(fuel));
      StuckOp(limits, Author(doc, Trim(subject), clock(fuel)));
    }
  }

  lemma Safe(scope: Scope, events: seq<Event>)
    requires Lawful(scope)
    ensures Inv(scope, Initial(None)) && Inv(scope, Run(scope, Initial(None), events))
  {
    hide NextRow, HistoryOf, ClientOk, EntryOf, Chain;
    InitialInv(scope, None);
    Safety(scope, Initial(None), events);
  }

  // ---- measured by the JSON text ----

  /** The real measure, with any parser of timestamps. */
  function TextLimits(timestamp: string -> bool): Limits { Limits(JsonBytes, timestamp) }

  /** By the JSON text, a seed gets stuck in draft exactly when the draft comes within three bytes of the limit. */
  lemma StuckIff(timestamp: string -> bool, op: Op)
    requires op.Author?
    ensures var length := JsonBytes(Encode(DraftForm(op)));
      && (BothFit(TextLimits(timestamp), op) <==> length <= MAX_DOCUMENT_BYTES - 4)
      && (FitsItem(TextLimits(timestamp), DraftForm(op)) && !FitsItem(TextLimits(timestamp), PublishedForm(op))
          <==> MAX_DOCUMENT_BYTES - 4 < length <= MAX_DOCUMENT_BYTES)
  {
    hide Encode, JsonBytes, Stamp;
    PublishedLonger(op.doc, op.subject, op.now);
  }

  lemma LengthyValid(timestamp: string -> bool, n: nat)
    requires JsonBytes(Encode(Lengthy(n))) <= MAX_DOCUMENT_BYTES
    ensures ValidDraft(TextLimits(timestamp), Lengthy(n), "a")
  {
    hide Encode, JsonBytes;
    assert Utf8.Encode("b") == Utf8.EncodeRune('b') + Utf8.Encode("b"[1..]);
    assert Trim("a") == "a";
  }

  /** Every author with a name of reasonable length can meet such a declaration: it is one with a long enough note. */
  lemma StuckExists(timestamp: string -> bool, subject: string) returns (n: nat)
    requires TextBytes(Trim(subject)) <= 2000
    ensures ValidDraft(TextLimits(timestamp), Lengthy(n), "a") && Stuck(TextLimits(timestamp), Lengthy(n), subject)
  {
    hide Encode, JsonBytes, Stamp, Trim, TextBytes, Lengthy, ValidDraft, FitsItem;
    n := AnyLength(Trim(subject), MAX_DOCUMENT_BYTES);
    TrimTwice(subject);
    StampLengthens(n, Trim(subject), 0);
    LengthyValid(timestamp, n);
    forall now ensures StuckAt(TextLimits(timestamp), Lengthy(n), subject, now) {
      StuckIff(timestamp, Author(Lengthy(n), Trim(subject), now));
    }
  }
}
