/**
 One-time download grants, internal/downloadgrant/store.go: issue, atomic conditional consume, and the
 separate read that classifies a consume that failed. Times are nanoseconds, expiry is whole seconds.
 */
module DownloadGrant {
  import opened Wrappers
  import opened Text

  // ---- bindings ----

  datatype Binding = Binding(
    account: string, actor: string, ns: string, route: string,
    client: string, profile: string, packId: string, packDigest: string)

  predicate Complete(b: Binding) {
    && b.account != "" && b.actor != "" && b.ns != "" && b.route != ""
    && b.client != "" && b.profile != "" && b.packId != "" && b.packDigest != ""
  }

  /** normalizeBinding; None is ErrInvalidBinding. Routes and pack ids keep their case. */
  function NormalizeBinding(f: CaseMap, b: Binding): Option<Binding> {
    var n := Binding(
      Normalize(f, b.account), Normalize(f, b.actor), Normalize(f, b.ns), Trim(b.route),
      Normalize(f, b.client), Normalize(f, b.profile), Trim(b.packId), Normalize(f, b.packDigest));
    if Complete(n) then Some(n) else None
  }

  /** A normalized binding is its own normal form, so a stored binding compares equal to itself presented again. */
  lemma NormalizeBindingIdempotent(f: CaseMap, b: Binding)
    requires NormalizeBinding(f, b).Some?
    ensures NormalizeBinding(f, NormalizeBinding(f, b).value) == NormalizeBinding(f, b)
  {
    hide Normalize;
    NormalizeIdempotent(f, b.account);
    NormalizeIdempotent(f, b.actor);
    NormalizeIdempotent(f, b.ns);
    NormalizeIdempotent(f, b.client);
    NormalizeIdempotent(f, b.profile);
    NormalizeIdempotent(f, b.packDigest);
  }

  // ---- time ----

  const SECOND: int := 1_000_000_000
  const DEFAULT_TTL: int := 600 * SECOND

  /** time.Time.Unix: whole seconds, rounding down. */
  function Unix(t: int): int { t / SECOND }

  function TtlOf(requested: int): int { if requested <= 0 then DEFAULT_TTL else requested }

  function ExpiryOf(now: int, requested: int): int { Unix(now + TtlOf(requested)) }

  /** How long after its issue a grant can be consumed. */
  function Lifetime(issued: int, requested: int): int { ExpiryOf(issued, requested) * SECOND - issued }

  /**
   Truncation to seconds shortens a grant by less than one second, and the cut is exact: it can be consumed
   at every instant before its lifetime is over and at no later one.
   */
  lemma LifetimeExact(issued: int, requested: int, now: int)
    ensures TtlOf(requested) - SECOND < Lifetime(issued, requested) <= TtlOf(requested)
    ensures ExpiryOf(issued, requested) > Unix(now) <==> now - issued < Lifetime(issued, requested)
  {
    var t := issued + TtlOf(requested);
    assert t == t / SECOND * SECOND + t % SECOND;
    assert now == now / SECOND * SECOND + now % SECOND;
  }

  // ---- tokens ----

  /** A hash never needs trimming. */
  ghost predicate TrimmedHash(h: string -> string) { forall t :: Trimmed(h(t)) }

  ghost predicate Injective(h: string -> string) { forall t, u :: h(t) == h(u) ==> t == u }

  type Digest = h: string -> string | TrimmedHash(h) witness (t: string) => ""

  /** HashToken; None is ErrRawTokenRequired. */
  function HashToken(h: Digest, raw: string): Option<string> {
    if Trim(raw) == "" then None else Some(h(Trim(raw)))
  }

  predicate HashEqual(a: string, b: string) { Trim(a) == Trim(b) }

  // ---- rows ----

  const ACTIVE: string := "active"
  const CONSUMED: string := "consumed"

  datatype Status = Active | Consumed

  datatype Row = Row(
    grantId: string, status: string, tokenHash: string, binding: Binding,
    createdAt: int, consumedAt: Option<int>, expiresAt: int)

  datatype Grant = Grant(
    grantId: string, status: Status, binding: Binding, createdAt: int, consumedAt: Option<int>, expiresAt: int)

  function NormalizeStatus(f: CaseMap, s: string): Option<Status> {
    var n := Normalize(f, s);
    if n == ACTIVE then Some(Active) else if n == CONSUMED then Some(Consumed) else None
  }

  /** grantRecord.toGrant; None is its error. */
  function ToGrant(f: CaseMap, row: Row): Option<Grant> {
    var binding :- NormalizeBinding(f, row.binding);
    var status :- NormalizeStatus(f, row.status);
    Some(Grant(Trim(row.grantId), status, binding, row.createdAt, row.consumedAt, row.expiresAt))
  }

  /** The update conditions of Consume. */
  predicate Accepts(row: Row, t: Ticket) {
    row.status == ACTIVE && row.tokenHash == t.hash && row.binding == t.binding && row.expiresAt > Unix(t.now)
  }

  function MarkConsumed(row: Row, now: int): Row { row.(status := CONSUMED, consumedAt := Some(now)) }

  // ---- consume ----

  datatype Input = Input(grantId: string, token: string, binding: Binding)

  datatype Error = GrantIdRequired | InvalidBinding | TokenRequired | Unreadable | StoreError

  datatype Result =
    | Won(grant: Grant)
    | Replay(grant: Grant)
    | NotFound
    | Expired(grant: Grant)
    | TokenMismatch
    | BindingMismatch
    | Failed(error: Error)

  /** classifyFailedConsume, on the row its read returned. */
  function Classify(f: CaseMap, row: Option<Row>, t: Ticket): Result {
    if row.None? then NotFound
    else if !HashEqual(row.value.tokenHash, t.hash) then TokenMismatch
    else if row.value.binding != t.binding then BindingMismatch
    else
      var grant := ToGrant(f, row.value);
      if row.value.status == CONSUMED then (if grant.Some? then Replay(grant.value) else Failed(Unreadable))
      else if Unix(t.now) >= row.value.expiresAt then (if grant.Some? then Expired(grant.value) else Failed(Unreadable))
      else BindingMismatch
  }

  /** A consume call: what it presents, checked and hashed, and the clock it read. */
  datatype Ticket = Ticket(grantId: string, hash: string, binding: Binding, now: int)

  datatype Checked = Valid(ticket: Ticket) | Invalid(error: Error)

  function Check(f: CaseMap, h: Digest, input: Input, now: int): Checked {
    if Trim(input.grantId) == "" then Invalid(GrantIdRequired)
    else
      var binding := NormalizeBinding(f, input.binding);
      var hash := HashToken(h, input.token);
      if binding.None? then Invalid(InvalidBinding)
      else if hash.None? then Invalid(TokenRequired)
      else Valid(Ticket(Trim(input.grantId), hash.value, binding.value, now))
  }

  /** A row as Issue writes it, possibly consumed since. */
  ghost predicate WellFormed(f: CaseMap, row: Row) {
    && NormalizeBinding(f, row.binding) == Some(row.binding) && Trimmed(row.tokenHash) && Trimmed(row.grantId)
    && (row.status == ACTIVE || row.status == CONSUMED)
  }

  lemma StatusWords(f: CaseMap)
    ensures NormalizeStatus(f, ACTIVE) == Some(Active) && NormalizeStatus(f, CONSUMED) == Some(Consumed)
  {
    assert Trimmed(ACTIVE) && Trimmed(CONSUMED);
    assert forall c :: c in ACTIVE || c in CONSUMED ==> f(c) == c by {
      forall c | c in ACTIVE || c in CONSUMED ensures f(c) == c {
        assert LawAt(f, c);
      }
    }
    LowerFixed(f, ACTIVE);
    LowerFixed(f, CONSUMED);
  }

  /** A stored row always converts to a grant, with its own binding and state. */
  lemma StoredReads(f: CaseMap, row: Row)
    requires WellFormed(f, row)
    ensures ToGrant(f, row)
      == Some(Grant(row.grantId, if row.status == ACTIVE then Active else Consumed, row.binding,
                    row.createdAt, row.consumedAt, row.expiresAt))
  {
    hide NormalizeBinding, NormalizeStatus;
    StatusWords(f);
  }

  /** On a stored row: the reason why this ticket is refused. */
  ghost predicate TrueCause(row: Row, t: Ticket, result: Result) {
    match result
    case TokenMismatch => row.tokenHash != t.hash
    case BindingMismatch => row.binding != t.binding && row.tokenHash == t.hash
    case Replay(g) => row.status == CONSUMED && row.tokenHash == t.hash && row.binding == t.binding
                      && g.status == Consumed && g.grantId == row.grantId && g.consumedAt == row.consumedAt
    case Expired(g) => row.status == ACTIVE && row.expiresAt <= Unix(t.now) && row.tokenHash == t.hash
                       && row.binding == t.binding && g.status == Active && g.grantId == row.grantId
    case _ => false
  }

  lemma StatusesDiffer()
    ensures ACTIVE != CONSUMED
  {
    assert ACTIVE[0] != CONSUMED[0];
  }

  /** Classifying a row that refuses the ticket names the true cause; the last return needs a row that would accept it. */
  lemma ClassifyCause(f: CaseMap, row: Row, t: Ticket)
    requires WellFormed(f, row) && Trimmed(t.hash)
    ensures !Accepts(row, t) <==> TrueCause(row, t, Classify(f, Some(row), t))
    ensures Accepts(row, t) ==> Classify(f, Some(row), t) == BindingMismatch
  {
    hide ToGrant, Trim, NormalizeBinding;
    StoredReads(f, row);
    StatusesDiffer();
  }
}
