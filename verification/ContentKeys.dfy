/** The lifecycle of a content record and the storage keys of internal/agentcontent/store.go. */
module ContentKeys {
  import opened Text

  datatype State = Draft | Published | Archived {
    function Name(): (r: string)
      ensures r != []
    {
      match this
      case Draft => "draft"
      case Published => "published"
      case Archived => "archived"
    }

    /** Position in the draft, published, archived sequence of one soul version. */
    function Rank(): (r: nat)
      ensures r < 3
    {
      match this
      case Draft => 0
      case Published => 1
      case Archived => 2
    }
  }

  datatype ContentType = AgentSoul | AgentInstructions

  const ACCOUNT_PREFIX := "ACCOUNT#"
  const AGENT_SEGMENT := "#AGENT#"
  const CONTENT_PREFIX := "CONTENT#"
  const HISTORY_SEGMENT := "#HISTORY#"

  /** Versions are int64, so twenty digits never overflow the padding. */
  const VERSION_LIMIT: nat := 0x8000_0000_0000_0000
  const VERSION_DIGITS: nat := 20

  function Keyed(prefix: string, account: string, segment: string, agentId: string): (r: string)
    ensures |r| == |prefix| + |account| + |segment| + |agentId|
  {
    prefix + (account + segment + agentId)
  }

  lemma KeyedInjective(prefix: string, a1: string, m: string, g1: string, a2: string, g2: string)
    requires |m| >= 2 && !IsUpper(m[0]) && IsUpper(m[1])
    requires forall c :: c in a1 || c in a2 ==> !IsUpper(c)
    requires Keyed(prefix, a1, m, g1) == Keyed(prefix, a2, m, g2)
    ensures a1 == a2 && g1 == g2
  {
    Unprefix(prefix, a1 + m + g1, a2 + m + g2);
    SeparatorUnique(a1, g1, a2, g2, m);
  }

  function PartitionKey(f: CaseMap, account: string, agentId: string): (r: string) {
    var a, g := Normalize(f, account), Trim(agentId);
    if a == [] || g == [] then "" else Keyed(ACCOUNT_PREFIX, a, AGENT_SEGMENT, g)
  }

  function CurrentKey(typ: ContentType): (r: string) {
    CONTENT_PREFIX + (if typ == AgentSoul then "agent_soul" else "agent_instructions")
  }

  function HistoryKey(soulVersion: nat, state: State): (r: string) {
    if soulVersion < 1 then ""
    else CurrentKey(AgentSoul) + (HISTORY_SEGMENT + (Padded(soulVersion, VERSION_DIGITS) + ("#" + state.Name())))
  }

  // ---- partition keys ----

  /** A separator that holds an upper-case letter cannot start inside a part that holds none. */
  lemma SeparatorNotInside(a1: string, b1: string, a2: string, b2: string, m: string)
    requires |m| >= 2 && !IsUpper(m[0]) && IsUpper(m[1])
    requires forall c :: c in a2 ==> !IsUpper(c)
    requires |a1| < |a2|
    ensures a1 + m + b1 != a2 + m + b2
  {
    var s, t, k := a1 + m + b1, a2 + m + b2, |a1| + 1;
    assert s[k] == m[1];
    if k < |a2| {
      assert t[k] == a2[k] && a2[k] in a2;
    } else {
      assert t[k] == m[0];
    }
  }

  lemma SeparatorUnique(a1: string, b1: string, a2: string, b2: string, m: string)
    requires |m| >= 2 && !IsUpper(m[0]) && IsUpper(m[1])
    requires forall c :: c in a1 || c in a2 ==> !IsUpper(c)
    requires a1 + m + b1 == a2 + m + b2
    ensures a1 == a2 && b1 == b2
  {
    if |a1| < |a2| {
      SeparatorNotInside(a1, b1, a2, b2, m);
    } else if |a2| < |a1| {
      SeparatorNotInside(a2, b2, a1, b1, m);
    } else {
      var s, t := a1 + m + b1, a2 + m + b2;
      assert s[..|a1|] == a1 && t[..|a2|] == a2;
      assert s[|a1| + |m|..] == b1 && t[|a2| + |m|..] == b2;
    }
  }

  lemma Unprefix(p: string, s: string, t: string)
    requires p + s == p + t
    ensures s == t
  {
    assert (p + s)[|p|..] == s && (p + t)[|p|..] == t;
  }

  /** Distinct normalized (account, agent id) pairs never share a partition key, even when an id contains '#'. */
  lemma PartitionKeyInjective(f: CaseMap, account1: string, id1: string, account2: string, id2: string)
    requires PartitionKey(f, account1, id1) != ""
    requires PartitionKey(f, account1, id1) == PartitionKey(f, account2, id2)
    ensures Normalize(f, account1) == Normalize(f, account2) && Trim(id1) == Trim(id2)
  {
    var a1, g1, a2, g2 := Normalize(f, account1), Trim(id1), Normalize(f, account2), Trim(id2);
    SegmentShape();
    KeyedInjective(ACCOUNT_PREFIX, a1, AGENT_SEGMENT, g1, a2, g2);
  }

  lemma SegmentShape()
    ensures |AGENT_SEGMENT| == 7 && !IsUpper(AGENT_SEGMENT[0]) && IsUpper(AGENT_SEGMENT[1])
  {
  }

  // ---- sort keys ----

  lemma {:induction false} BelowSnoc(s: string, c: char, t: string, d: char)
    requires |s| == |t|
    ensures Below(s + [c], t + [d]) <==> Below(s, t) || (s == t && c < d)
  {
    if s == [] {
      assert s + [c] == [c] && t + [d] == [d];
      assert [c][1..] == [] && [d][1..] == [];
    } else {
      assert (s + [c])[1..] == s[1..] + [c] && (t + [d])[1..] == t[1..] + [d];
      BelowSnoc(s[1..], c, t[1..], d);
      assert s == [s[0]] + s[1..] && t == [t[0]] + t[1..];
    }
  }

  lemma {:induction false} BelowAppend(s: string, t: string, u: string)
    requires |s| == |t|
    ensures Below(s + u, t + u) <==> Below(s, t)
  {
    if s == [] {
      assert s + u == u && t + u == u;
      BelowIrreflexive(u);
    } else {
      assert (s + u)[1..] == s[1..] + u && (t + u)[1..] == t[1..] + u;
      BelowAppend(s[1..], t[1..], u);
    }
  }

  lemma {:induction false} PaddedOrder(m: nat, n: nat, w: nat)
    requires m < Pow10(w) && n < Pow10(w)
    ensures Below(Padded(m, w), Padded(n, w)) <==> m < n
    ensures Padded(m, w) == Padded(n, w) <==> m == n
  {
    if w > 0 {
      PaddedOrder(m / 10, n / 10, w - 1);
      var s, t := Padded(m / 10, w - 1), Padded(n / 10, w - 1);
      BelowSnoc(s, Digit(m % 10), t, Digit(n % 10));
      if Padded(m, w) == Padded(n, w) {
        assert Padded(m, w)[..w - 1] == s && Padded(n, w)[..w - 1] == t;
        assert Padded(m, w)[w - 1] == Digit(m % 10) && Padded(n, w)[w - 1] == Digit(n % 10);
      }
    }
  }

  lemma VersionFits()
    ensures VERSION_LIMIT < Pow10(VERSION_DIGITS)
  {
    assert Pow10(5) == 100000;
    assert Pow10(10) == 100000 * Pow10(5) by { assert Pow10(8) == 1000 * Pow10(5); }
    assert Pow10(15) == 100000 * Pow10(10) by { assert Pow10(13) == 1000 * Pow10(10); }
    assert Pow10(20) == 100000 * Pow10(15) by { assert Pow10(18) == 1000 * Pow10(15); }
  }

  /** For a fixed state, key order is soul-version order. */
  lemma HistoryKeyOrder(m: nat, n: nat, state: State)
    requires 1 <= m < VERSION_LIMIT && 1 <= n < VERSION_LIMIT
    ensures Below(HistoryKey(m, state), HistoryKey(n, state)) <==> m < n
  {
    VersionFits();
    var u := "#" + state.Name();
    var s, t := Padded(m, VERSION_DIGITS), Padded(n, VERSION_DIGITS);
    PaddedOrder(m, n, VERSION_DIGITS);
    BelowAppend(s, t, u);
    BelowCommonPrefix(HISTORY_SEGMENT, s + u, t + u);
    BelowCommonPrefix(CurrentKey(AgentSoul), HISTORY_SEGMENT + (s + u), HISTORY_SEGMENT + (t + u));
  }

  /** History keys are injective: one key per (soul version, state). */
  lemma HistoryKeyInjective(m: nat, state: State, n: nat, other: State)
    requires 1 <= m < VERSION_LIMIT && 1 <= n < VERSION_LIMIT
    requires HistoryKey(m, state) == HistoryKey(n, other)
    ensures m == n && state == other
  {
    VersionFits();
    var s, t := Padded(m, VERSION_DIGITS), Padded(n, VERSION_DIGITS);
    var u, v := "#" + state.Name(), "#" + other.Name();
    Unprefix(CurrentKey(AgentSoul), HISTORY_SEGMENT + (s + u), HISTORY_SEGMENT + (t + v));
    Unprefix(HISTORY_SEGMENT, s + u, t + v);
    assert (s + u)[..VERSION_DIGITS] == s && (t + v)[..VERSION_DIGITS] == t;
    assert (s + u)[VERSION_DIGITS..] == u && (t + v)[VERSION_DIGITS..] == v;
    assert u[1] == state.Name()[0] && v[1] == other.Name()[0];
    PaddedOrder(m, n, VERSION_DIGITS);
  }

  /** A current row and a history row never share a sort key. */
  lemma CurrentKeysApart(typ: ContentType, n: nat, state: State)
    requires n >= 1
    ensures CurrentKey(typ) != HistoryKey(n, state)
    ensures CurrentKey(AgentSoul) != CurrentKey(AgentInstructions)
  {
    var p := CurrentKey(AgentSoul);
    assert HistoryKey(n, state)[|p|] == '#';
    assert |CurrentKey(AgentInstructions)| == |p| + 8;
    assert |HistoryKey(n, state)| > |CurrentKey(AgentInstructions)|;
  }
}
