/**
 What issuing and consuming a grant does when nobody disturbs it, said on the fields presented and stored:
 the row, the answer, and the order in which an answer is chosen.
 */
module GrantOutcomes {
  import opened Wrappers
  import opened Text
  import opened DownloadGrant
  import GrantWorld

  function Lower(f: CaseMap, s: string): string { ToLower(f, Trim(s)) }

  /** The binding as it is stored and compared: the route and the pack id keep their case. */
  function Plain(f: CaseMap, b: Binding): Binding {
    Binding(Lower(f, b.account), Lower(f, b.actor), Lower(f, b.ns), Trim(b.route), Lower(f, b.client), Lower(f, b.profile),
            Trim(b.packId), Lower(f, b.packDigest))
  }

  predicate NoBlank(b: Binding) {
    && Trim(b.account) != "" && Trim(b.actor) != "" && Trim(b.ns) != "" && Trim(b.route) != ""
    && Trim(b.client) != "" && Trim(b.profile) != "" && Trim(b.packId) != "" && Trim(b.packDigest) != ""
  }

  lemma LowerBlank(f: CaseMap, s: string)
    ensures Lower(f, s) == "" <==> Trim(s) == ""
  {
    hide Trim;
    assert |Lower(f, s)| == |Trim(s)|;
  }

  lemma NormalizeIs(f: CaseMap, b: Binding)
    ensures NormalizeBinding(f, b) == if NoBlank(b) then Some(Plain(f, b)) else None
  {
    hide Trim, ToLower;
    LowerBlank(f, b.account);
    LowerBlank(f, b.actor);
    LowerBlank(f, b.ns);
    LowerBlank(f, b.client);
    LowerBlank(f, b.profile);
    LowerBlank(f, b.packDigest);
  }

  // ---- rows ----

  /** A row that Issue may have written, consumed since or not. */
  ghost predicate Kept(f: CaseMap, row: Row) {
    && NoBlank(row.binding) && Plain(f, row.binding) == row.binding
    && Trim(row.tokenHash) == row.tokenHash && Trim(row.grantId) == row.grantId
    && (row.status == "active" || row.status == "consumed")
  }

  ghost predicate AllKept(f: CaseMap, table: map<string, Row>) { forall id :: id in table ==> Kept(f, table[id]) }

  lemma KeptIs(f: CaseMap, row: Row)
    requires Kept(f, row)
    ensures WellFormed(f, row)
  {
    hide Trim, Plain, NoBlank;
    NormalizeIs(f, row.binding);
  }

  /** Whole seconds, rounding down; ten minutes unless the issuer asks for a positive lifetime. */
  function ExpirySecond(now: int, ttl: int): int {
    (now + (if ttl <= 0 then 600_000_000_000 else ttl)) / 1_000_000_000
  }

  function NewRow(f: CaseMap, h: Digest, id: string, token: string, binding: Binding, ttl: int, now: int): Row {
    Row(Trim(id), "active", h(Trim(token)), Plain(f, binding), now, None, ExpirySecond(now, ttl))
  }

  lemma PlainTwice(f: CaseMap, b: Binding)
    requires NoBlank(b)
    ensures Plain(f, Plain(f, b)) == Plain(f, b) && NoBlank(Plain(f, b))
  {
    hide Plain, NoBlank, NormalizeBinding;
    NormalizeIs(f, b);
    NormalizeBindingIdempotent(f, b);
    NormalizeIs(f, Plain(f, b));
  }

  lemma NewKept(f: CaseMap, h: Digest, id: string, token: string, binding: Binding, ttl: int, now: int)
    requires NoBlank(binding)
    ensures Kept(f, NewRow(f, h, id, token, binding, ttl, now))
  {
    hide Trim, Plain, NoBlank;
    PlainTwice(f, binding);
    TrimTwice(id);
    assert TrimmedHash(h);
  }

  /** Issue accepts exactly complete bindings, and the row and the expiry of its contract are these. */
  lemma IssueOutcome(f: CaseMap, h: Digest, id: string, token: string, binding: Binding, ttl: int, now: int)
    ensures NormalizeBinding(f, binding).Some? <==> NoBlank(binding)
    ensures ExpiryOf(now, ttl) == ExpirySecond(now, ttl)
    ensures NoBlank(binding) ==>
      var i := GrantWorld.DownloadIssue(NormalizeBinding(f, binding).value, token, now, ttl);
      var row := NewRow(f, h, id, token, binding, ttl, now);
      GrantWorld.IssuedRow(h, Trim(id), i) == row && Kept(f, row)
  {
    hide Trim, Plain, NoBlank, NormalizeBinding;
    NormalizeIs(f, binding);
    if NoBlank(binding) {
      NewKept(f, h, id, token, binding, ttl, now);
    }
  }

  // ---- consuming ----

  /** The grant a row stands for. */
  function Told(row: Row): Grant {
    Grant(row.grantId, if row.status == "active" then Active else Consumed, row.binding, row.createdAt, row.consumedAt, row.expiresAt)
  }

  /** The table and the answer, by what is presented and what is stored. */
  ghost predicate Outcome(f: CaseMap, h: Digest, table: map<string, Row>, input: Input, now: int, after: map<string, Row>, result: Result) {
    var id := Trim(input.grantId);
    if id == "" then after == table && result == Failed(GrantIdRequired)
    else if !NoBlank(input.binding) then after == table && result == Failed(Error.InvalidBinding)
    else if Trim(input.token) == "" then after == table && result == Failed(TokenRequired)
    else if id !in table then after == table && result == NotFound
    else
      var row := table[id];
      if row.tokenHash != h(Trim(input.token)) then after == table && result == TokenMismatch
      else if row.binding != Plain(f, input.binding) then after == table && result == BindingMismatch
      else if row.status == "consumed" then after == table && result == Replay(Told(row))
      else if row.expiresAt <= now / 1_000_000_000 then after == table && result == Expired(Told(row))
      else
        var next := Row(row.grantId, "consumed", row.tokenHash, row.binding, row.createdAt, Some(now), row.expiresAt);
        after == table[id := next] && result == Won(Told(next))
  }

  lemma ConsumeOutcome(f: CaseMap, h: Digest, table: map<string, Row>, input: Input, now: int)
    requires AllKept(f, table)
    ensures var (after, result) := GrantWorld.ConsumeAlone(f, h, table, input, now);
      Outcome(f, h, table, input, now, after, result) && AllKept(f, after)
  {
    hide Trim, Plain, NoBlank, NormalizeBinding, ToGrant, Kept, WellFormed;
    NormalizeIs(f, input.binding);
    var id := Trim(input.grantId);
    if id in table {
      KeptIs(f, table[id]);
      KeptTells(f, h, table[id], now);
    }
  }

  lemma KeptTells(f: CaseMap, h: Digest, row: Row, now: int)
    requires Kept(f, row)
    ensures ToGrant(f, row) == Some(Told(row)) && Trim(row.tokenHash) == row.tokenHash
    ensures row.status == "active" || row.status == "consumed"
    ensures "active" != "consumed"
    ensures ToGrant(f, MarkConsumed(row, now)) == Some(Told(MarkConsumed(row, now))) && Kept(f, MarkConsumed(row, now))
    ensures forall t :: Trim(h(t)) == h(t)
  {
    hide Trim, Plain, NoBlank, ToGrant, NormalizeBinding;
    KeptIs(f, row);
    StatusesDiffer();
    StoredReads(f, row);
    StoredReads(f, MarkConsumed(row, now));
    assert TrimmedHash(h);
  }
}
