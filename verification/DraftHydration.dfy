/** Batched hydration of a draft list: hydrateDraftListEdges in internal/cmsapi/drafts.go. */
module DraftHydration {
  import opened Wrappers
  import opened Text

  const BATCH: nat := 20

  datatype Edge<+D> = Edge(cursor: string, node: Option<D>)

  /** One aliased root field, draft(id: $variable). */
  datatype Selection = Selection(alias: string, variable: string)
  datatype Operation = Operation(selections: seq<Selection>, variables: map<string, string>)

  /** fmt.Sprintf("<prefix>%d", k). */
  function Numbered(prefix: string, k: nat): string { prefix + Decimal(k) }

  lemma NumberedInjective(prefix: string, j: nat, k: nat)
    requires Numbered(prefix, j) == Numbered(prefix, k)
    ensures j == k
  {
    assert Numbered(prefix, j)[|prefix|..] == Decimal(j) && Numbered(prefix, k)[|prefix|..] == Decimal(k);
    DecimalInjective(j, k);
  }

  // ---- the service ----

  predicate DistinctAliases(op: Operation) {
    forall i, j :: 0 <= i < j < |op.selections| ==> op.selections[i].alias != op.selections[j].alias
  }

  /** An operation the service accepts: bounded, with distinct aliases and a non-blank id for each. */
  predicate WellFormed(op: Operation) {
    && 1 <= |op.selections| <= BATCH && DistinctAliases(op)
    && forall i :: 0 <= i < |op.selections| ==> AsksForDraft(op, i)
  }

  predicate AsksForDraft(op: Operation, i: nat)
    requires i < |op.selections|
  {
    op.selections[i].variable in op.variables && Trim(op.variables[op.selections[i].variable]) != ""
  }

  /** The fields of an answer: every alias with the draft of its own id, or null. */
  function AnswerTo<D>(drafts: string -> Option<D>, op: Operation, n: nat): map<string, Option<D>>
    requires n <= |op.selections| && forall i :: 0 <= i < |op.selections| ==> AsksForDraft(op, i)
  {
    if n == 0 then map[]
    else
      assert AsksForDraft(op, n - 1);
      AnswerTo(drafts, op, n - 1)[op.selections[n - 1].alias := drafts(op.variables[op.selections[n - 1].variable])]
  }

  lemma {:induction false} AnswerAt<D>(drafts: string -> Option<D>, op: Operation, n: nat, i: nat)
    requires i < n <= |op.selections| && WellFormed(op)
    ensures var answer := AnswerTo(drafts, op, n);
      AsksForDraft(op, i) && op.selections[i].alias in answer
      && answer[op.selections[i].alias] == drafts(op.variables[op.selections[i].variable])
  {
    hide Trim;
    assert AsksForDraft(op, i) && AsksForDraft(op, n - 1);
    if i < n - 1 {
      AnswerAt(drafts, op, n - 1, i);
    }
  }

  /** The service behind Execute: a draft lookup, and requests that fail. sent is ghost history. */
  class Client<D> {
    const drafts: string -> Option<D>
    const fails: nat -> bool
    ghost var sent: seq<Operation>
    var requests: nat

    constructor (drafts: string -> Option<D>, fails: nat -> bool)
      ensures this.drafts == drafts && this.fails == fails && sent == [] && requests == 0
    {
      this.drafts, this.fails, sent, requests := drafts, fails, [], 0;
    }

    /** One GraphQL request. */
    method Execute(op: Operation) returns (answer: Option<map<string, Option<D>>>)
      requires WellFormed(op)
      modifies this
      ensures sent == old(sent) + [op] && requests == old(requests) + 1
      ensures answer == if fails(old(requests)) then None else Some(AnswerTo(drafts, op, |op.selections|))
    {
      var failed := fails(requests);
      sent, requests := sent + [op], requests + 1;
      answer := if failed then None else Some(AnswerTo(drafts, op, |op.selections|));
    }
  }

  // ---- the operation of one batch ----

  /** The edges of lo .. hi with a non-blank cursor, in order. */
  function NonBlank<D>(edges: seq<Edge<D>>, lo: nat, hi: nat): (indexes: seq<nat>)
    requires hi <= |edges|
    ensures |indexes| <= if lo <= hi then hi - lo else 0
    ensures forall k :: 0 <= k < |indexes| ==> lo <= indexes[k] < hi
    decreases hi
  {
    if hi <= lo then []
    else NonBlank(edges, lo, hi - 1) + if Trim(edges[hi - 1].cursor) != "" then [hi - 1] else []
  }

  lemma {:induction false} NonBlankAt<D>(edges: seq<Edge<D>>, lo: nat, hi: nat, k: nat)
    requires hi <= |edges| && k < |NonBlank(edges, lo, hi)|
    ensures Trim(edges[NonBlank(edges, lo, hi)[k]].cursor) != ""
    decreases hi
  {
    hide Trim;
    if k < |NonBlank(edges, lo, hi - 1)| {
      NonBlankAt(edges, lo, hi - 1, k);
    }
  }

  /** One more alias and variable. */
  function Extended(op: Operation, id: string): Operation {
    var k := |op.selections|;
    Operation(op.selections + [Selection(Numbered("draft", k), Numbered("id", k))], op.variables[Numbered("id", k) := id])
  }

  /** Alias k asks for the trimmed cursor of the k-th index. */
  function OperationFor<D>(edges: seq<Edge<D>>, indexes: seq<nat>): (op: Operation)
    requires forall k :: 0 <= k < |indexes| ==> indexes[k] < |edges|
    ensures |op.selections| == |indexes|
  {
    if indexes == [] then Operation([], map[])
    else Extended(OperationFor(edges, indexes[..|indexes| - 1]), Trim(edges[indexes[|indexes| - 1]].cursor))
  }

  /** What alias k of an operation asks for. */
  ghost predicate AsksFor(op: Operation, k: nat, id: string) {
    && k < |op.selections| && op.selections[k] == Selection(Numbered("draft", k), Numbered("id", k))
    && Numbered("id", k) in op.variables && op.variables[Numbered("id", k)] == id
  }

  lemma ExtendedAsks(op: Operation, k: nat, id: string, last: string)
    requires AsksFor(op, k, id)
    ensures AsksFor(Extended(op, last), k, id)
  {
    hide Numbered;
    if Numbered("id", k) == Numbered("id", |op.selections|) {
      NumberedInjective("id", k, |op.selections|);
    }
  }

  lemma {:induction false} OperationAsks<D>(edges: seq<Edge<D>>, indexes: seq<nat>, k: nat)
    requires (forall j :: 0 <= j < |indexes| ==> indexes[j] < |edges|) && k < |indexes|
    ensures AsksFor(OperationFor(edges, indexes), k, Trim(edges[indexes[k]].cursor))
  {
    hide Trim, Numbered;
    var n := |indexes| - 1;
    if k < n {
      OperationAsks(edges, indexes[..n], k);
      ExtendedAsks(OperationFor(edges, indexes[..n]), k, Trim(edges[indexes[k]].cursor), Trim(edges[indexes[n]].cursor));
    }
  }

  /** A batch asks for at most 20 drafts, under pairwise different aliases. */
  lemma BatchWellFormed<D>(edges: seq<Edge<D>>, start: nat, end: nat)
    requires start <= end <= |edges| && end <= start + BATCH && NonBlank(edges, start, end) != []
    ensures WellFormed(OperationFor(edges, NonBlank(edges, start, end)))
  {
    hide Numbered, Trim, AsksFor, NonBlank, OperationFor;
    var indexes := NonBlank(edges, start, end);
    var op := OperationFor(edges, indexes);
    forall i, j | 0 <= i < j < |indexes| ensures op.selections[i].alias != op.selections[j].alias {
      OperationAsks(edges, indexes, i);
      OperationAsks(edges, indexes, j);
      AliasesDiffer(op, i, j, Trim(edges[indexes[i]].cursor), Trim(edges[indexes[j]].cursor));
    }
    forall i | 0 <= i < |indexes| ensures AsksForDraft(op, i) {
      OperationAsks(edges, indexes, i);
      NonBlankAt(edges, start, end, i);
      TrimTwice(edges[indexes[i]].cursor);
      AskedFor(op, i, Trim(edges[indexes[i]].cursor));
    }
  }

  lemma AliasesDiffer(op: Operation, i: nat, j: nat, id: string, id': string)
    requires i < j && AsksFor(op, i, id) && AsksFor(op, j, id')
    ensures op.selections[i].alias != op.selections[j].alias
  {
    hide Numbered;
    if Numbered("draft", i) == Numbered("draft", j) {
      NumberedInjective("draft", i, j);
    }
  }

  lemma AskedFor(op: Operation, i: nat, id: string)
    requires AsksFor(op, i, id) && Trim(id) != ""
    ensures AsksForDraft(op, i)
  {
    hide Numbered, Trim;
  }

  lemma OperationStep<D>(edges: seq<Edge<D>>, indexes: seq<nat>, i: nat)
    requires (forall k :: 0 <= k < |indexes| ==> indexes[k] < |edges|) && i < |edges|
    ensures forall k :: 0 <= k < |indexes + [i]| ==> (indexes + [i])[k] < |edges|
    ensures OperationFor(edges, indexes + [i]) == Extended(OperationFor(edges, indexes), Trim(edges[i].cursor))
  {
    hide Trim, Numbered;
    assert (indexes + [i])[..|indexes|] == indexes;
  }

  lemma NoneSelected<D>(edges: seq<Edge<D>>, lo: nat, hi: nat)
    requires hi <= |edges| && hi <= lo
    ensures NonBlank(edges, lo, hi) == []
  {
  }

  lemma NonBlankStep<D>(edges: seq<Edge<D>>, lo: nat, hi: nat)
    requires lo < hi <= |edges|
    ensures NonBlank(edges, lo, hi)
      == if Trim(edges[hi - 1].cursor) != "" then NonBlank(edges, lo, hi - 1) + [hi - 1] else NonBlank(edges, lo, hi - 1)
  {
    hide Trim;
  }

  /** The inner loop: one alias, one variable and one index per non-blank cursor. */
  method BuildBatch<D>(edges: array<Edge<D>>, start: nat, end: nat) returns (op: Operation, indexes: seq<nat>)
    requires start <= end <= edges.Length
    ensures indexes == NonBlank(edges[..], start, end) && op == OperationFor(edges[..], indexes)
  {
    op, indexes := Operation([], map[]), [];
    NoneSelected(edges[..], start, start);
    hide Trim, Numbered, NonBlank;
    for i := start to end
      invariant indexes == NonBlank(edges[..], start, i) && op == OperationFor(edges[..], indexes)
    {
      hide OperationFor;
      var id := Trim(edges[i].cursor);
      NonBlankStep(edges[..], start, i + 1);
      if id != "" {
        OperationStep(edges[..], indexes, i);
        var alias, variable := Numbered("draft", |indexes|), Numbered("id", |indexes|);
        op := Operation(op.selections + [Selection(alias, variable)], op.variables[variable := id]);
        indexes := indexes + [i];
      }
    }
  }

  // ---- the specification: a pointwise lookup ----

  function Hydrated<D>(drafts: string -> Option<D>, e: Edge<D>): Edge<D> {
    if Trim(e.cursor) != "" && drafts(Trim(e.cursor)).Some? then e.(node := drafts(Trim(e.cursor))) else e
  }

  /** The edges after the assignments through these indexes. */
  function Assigned<D>(drafts: string -> Option<D>, edges: seq<Edge<D>>, indexes: seq<nat>): (s: seq<Edge<D>>)
    requires forall k :: 0 <= k < |indexes| ==> indexes[k] < |edges|
    ensures |s| == |edges|
  {
    if indexes == [] then edges
    else
      var before := Assigned(drafts, edges, indexes[..|indexes| - 1]);
      before[indexes[|indexes| - 1] := Hydrated(drafts, edges[indexes[|indexes| - 1]])]
  }

  lemma AssignedStep<D>(drafts: string -> Option<D>, edges: seq<Edge<D>>, indexes: seq<nat>, j: nat)
    requires (forall k :: 0 <= k < |indexes| ==> indexes[k] < |edges|) && j < |edges|
    ensures forall k :: 0 <= k < |indexes + [j]| ==> (indexes + [j])[k] < |edges|
    ensures Assigned(drafts, edges, indexes + [j]) == Assigned(drafts, edges, indexes)[j := Hydrated(drafts, edges[j])]
  {
    hide Hydrated;
    assert (indexes + [j])[..|indexes|] == indexes;
  }

  /** A batch hydrates exactly its own edges. */
  lemma {:induction false} AssignedAt<D>(drafts: string -> Option<D>, edges: seq<Edge<D>>, lo: nat, hi: nat, i: nat)
    requires hi <= |edges| && i < |edges|
    ensures Assigned(drafts, edges, NonBlank(edges, lo, hi))[i] == if lo <= i < hi then Hydrated(drafts, edges[i]) else edges[i]
    decreases hi
  {
    hide Trim, Assigned, NonBlank, Hydrated;
    if lo < hi {
      AssignedAt(drafts, edges, lo, hi - 1, i);
      NonBlankStep(edges, lo, hi);
      if Trim(edges[hi - 1].cursor) != "" {
        AssignedStep(drafts, edges, NonBlank(edges, lo, hi - 1), hi - 1);
      } else {
        BlankStays(drafts, edges[hi - 1]);
      }
    } else {
      NoneSelected(edges, lo, hi);
      NoneAssigned(drafts, edges);
    }
  }

  lemma BlankStays<D>(drafts: string -> Option<D>, e: Edge<D>)
    requires Trim(e.cursor) == ""
    ensures Hydrated(drafts, e) == e
  {
    hide Trim;
  }

  /** The last loop of a batch: assign the answers through the indexes. */
  method AssignBatch<D>(edges: array<Edge<D>>, indexes: seq<nat>, fields: map<string, Option<D>>,
                        ghost drafts: string -> Option<D>, ghost start: nat, ghost end: nat)
    requires start <= end <= edges.Length && end <= start + BATCH && indexes == NonBlank(edges[..], start, end) && indexes != []
    requires var op := OperationFor(edges[..], indexes);
      WellFormed(op) && fields == AnswerTo(drafts, op, |op.selections|)
    modifies edges
    ensures edges[..] == Assigned(drafts, old(edges[..]), indexes)
  {
    hide Trim, Numbered, NonBlank, OperationFor, WellFormed, AnswerTo, Hydrated;
    ghost var was := edges[..];
    for k := 0 to |indexes|
      invariant edges[..] == Assigned(drafts, was, indexes[..k])
      invariant forall j :: k <= j < |indexes| ==> edges[indexes[j]] == was[indexes[j]]
    {
      FieldOf(drafts, was, start, end, k);
      Ascends(was, start, end);
      var draft := fields[Numbered("draft", k)];
      AssignOne(drafts, was[indexes[k]], draft);
      assert indexes[..k + 1][..k] == indexes[..k];
      if draft.Some? {
        edges[indexes[k]] := edges[indexes[k]].(node := draft);
      }
    }
    assert indexes[..|indexes|] == indexes;
  }

  /** The answer to alias k is the draft of its edge. */
  lemma FieldOf<D>(drafts: string -> Option<D>, edges: seq<Edge<D>>, start: nat, end: nat, k: nat)
    requires start <= end <= |edges| && end <= start + BATCH && k < |NonBlank(edges, start, end)|
    ensures var indexes := NonBlank(edges, start, end);
      var op := OperationFor(edges, indexes);
      && WellFormed(op) && Numbered("draft", k) in AnswerTo(drafts, op, |op.selections|)
      && AnswerTo(drafts, op, |op.selections|)[Numbered("draft", k)] == drafts(Trim(edges[indexes[k]].cursor))
      && Trim(edges[indexes[k]].cursor) != ""
  {
    hide Trim, Numbered, NonBlank, OperationFor, AnswerTo;
    var indexes := NonBlank(edges, start, end);
    BatchWellFormed(edges, start, end);
    OperationAsks(edges, indexes, k);
    AnswerAt(drafts, OperationFor(edges, indexes), |indexes|, k);
    NonBlankAt(edges, start, end, k);
  }

  lemma {:induction false} Ascends<D>(edges: seq<Edge<D>>, lo: nat, hi: nat)
    requires hi <= |edges|
    ensures forall j, k :: 0 <= j < k < |NonBlank(edges, lo, hi)| ==> NonBlank(edges, lo, hi)[j] < NonBlank(edges, lo, hi)[k]
    decreases hi
  {
    hide Trim;
    if lo < hi {
      Ascends(edges, lo, hi - 1);
    }
  }

  lemma AssignOne<D>(drafts: string -> Option<D>, e: Edge<D>, draft: Option<D>)
    requires Trim(e.cursor) != "" && draft == drafts(Trim(e.cursor))
    ensures Hydrated(drafts, e) == if draft.Some? then e.(node := draft) else e
  {
    hide Trim;
  }

  // ---- all batches ----

  /** The number of batches of n edges. */
  function Batches(n: nat): nat { (n + BATCH - 1) / BATCH }

  /** Edges below `done` hold the draft of their own cursor; the others are as they were. */
  ghost predicate HydratedUpTo<D>(drafts: string -> Option<D>, was: seq<Edge<D>>, now: seq<Edge<D>>, done: nat) {
    && |now| == |was|
    && forall i :: 0 <= i < |was| ==> now[i] == if i < done then Hydrated(drafts, was[i]) else was[i]
  }

  /** The same in plain terms: cursors stay, and an edge below `done` holds the draft of its trimmed cursor, if there is one. */
  ghost predicate LooksUp<D>(drafts: string -> Option<D>, was: seq<Edge<D>>, now: seq<Edge<D>>, done: nat) {
    && |now| == |was|
    && forall i :: 0 <= i < |was| ==>
         && now[i].cursor == was[i].cursor
         && now[i].node == if i < done && Trim(was[i].cursor) != "" && drafts(Trim(was[i].cursor)).Some?
                           then drafts(Trim(was[i].cursor)) else was[i].node
  }

  lemma HydratedLooksUp<D>(drafts: string -> Option<D>, was: seq<Edge<D>>, now: seq<Edge<D>>, done: nat)
    requires HydratedUpTo(drafts, was, now, done)
    ensures LooksUp(drafts, was, now, done)
  {
    hide Trim;
  }

  lemma NextBatch<D>(drafts: string -> Option<D>, was: seq<Edge<D>>, now: seq<Edge<D>>, start: nat, end: nat)
    requires HydratedUpTo(drafts, was, now, start) && start <= end <= |was|
    ensures HydratedUpTo(drafts, was, Assigned(drafts, now, NonBlank(now, start, end)), end)
  {
    hide Hydrated, NonBlank, Assigned;
    var later := Assigned(drafts, now, NonBlank(now, start, end));
    forall i | 0 <= i < |was| ensures later[i] == if i < end then Hydrated(drafts, was[i]) else was[i] {
      AssignedAt(drafts, now, start, end, i);
    }
  }

  lemma NoneAssigned<D>(drafts: string -> Option<D>, edges: seq<Edge<D>>)
    ensures Assigned(drafts, edges, []) == edges
  {
  }

  /**
   Batched hydration is a pointwise lookup. On success every edge with a non-blank cursor holds the draft
   found for its own trimmed cursor, and every other edge is untouched; after a failed request the batches
   before it are hydrated and the later ones untouched. Every request is well formed and there is at most
   one per batch.
   */
  method HydrateDraftListEdges<D>(client: Client<D>, edges: array<Edge<D>>) returns (ok: bool, ghost done: nat)
    modifies client, edges
    ensures LooksUp(client.drafts, old(edges[..]), edges[..], done)
    ensures ok ==> done == edges.Length
    ensures !ok ==> done % BATCH == 0 && done < edges.Length && client.requests > 0 && client.fails(client.requests - 1)
    ensures client.requests - old(client.requests) == |client.sent| - |old(client.sent)|
    ensures client.requests - old(client.requests) <= Batches(if ok then done else done + 1)
    ensures old(client.sent) <= client.sent
    ensures forall k :: |old(client.sent)| <= k < |client.sent| ==> WellFormed(client.sent[k]) && |client.sent[k].selections| <= 20
  {
    hide Trim, Hydrated, HydratedUpTo, LooksUp, NonBlank, Assigned, OperationFor, DistinctAliases, AsksForDraft;
    ghost var was := edges[..];
    var start := 0;
    NothingDone(client.drafts, was);
    while start < edges.Length
      invariant HydratedUpTo(client.drafts, was, edges[..], if start <= edges.Length then start else edges.Length)
      invariant start % BATCH == 0 && start < edges.Length + BATCH
      invariant client.requests - old(client.requests) == |client.sent| - |old(client.sent)| <= start / BATCH
      invariant old(client.sent) <= client.sent
      invariant forall k :: |old(client.sent)| <= k < |client.sent| ==> WellFormed(client.sent[k])
    {
      var end := start + BATCH;
      if end > edges.Length {
        end := edges.Length;
      }
      var op, indexes := BuildBatch(edges, start, end);
      NextBatch(client.drafts, was, edges[..], start, end);
      if indexes == [] {
        NoneAssigned(client.drafts, edges[..]);
      } else {
        BatchWellFormed(edges[..], start, end);
        var answer := client.Execute(op);
        if answer.None? {
          HydratedLooksUp(client.drafts, was, edges[..], start);
          return false, start;
        }
        AssignBatch(edges, indexes, answer.value, client.drafts, start, end);
      }
      start := start + BATCH;
    }
    HydratedLooksUp(client.drafts, was, edges[..], edges.Length);
    ok, done := true, edges.Length;
  }

  lemma NothingDone<D>(drafts: string -> Option<D>, edges: seq<Edge<D>>)
    ensures HydratedUpTo(drafts, edges, edges, 0)
  {
  }
}
