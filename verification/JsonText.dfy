/**
 The length of the JSON text of a document: names, punctuation, and strings as encoding/json escapes them.
 Instants are taken at whole seconds, where all of them are equally long.
 */
module JsonText {
  import opened Wrappers
  import opened ContentKeys
  import opened Json
  import opened SoulDocument
  import opened Text
  import Utf8

  const NAMES: Key := 33
  const INSTANT_BYTES: nat := 22

  /** The length of a member name; all of them are plain ASCII. */
  function NameBytes(k: Key): (n: nat)
    ensures n <= 26
  {
    if k in {SoulKey, BodyKey} then 4
    else if k in {NotesKey, ModelKey} then 5
    else if k in {BypassKey, SourceKey} then 6
    else if k in {SummaryKey, VersionKey} then 7
    else if k in {AgentIdKey, IdentityKey, RefusalsKey} then 8
    else if k in {StructureKey, InvariantKey} then 9
    else if k in {CreatedAtKey, UpdatedAtKey, ProvenanceKey, PhilosophyKey, DisciplineKey, BoundariesKey} then 10
    else if k in {FiveBodiesKey, ProducedAtKey} then 11
    else if k == SoulVersionKey then 12
    else if k == SchemaVersionKey then 14
    else if k in {LifecycleStateKey, ClosestSafePathKey, RegistrationIdKey, ConversationIdKey} then 15
    else if k in {UpdatedBySubjectIdKey, MigrationReadKey} then 21
    else if k == ClassificationKey then 23
    else if k in {DeclarationSchemaVersionKey, CandidateHashKey, HistoricalPublicationKey} then 26
    else 0
  }

  /** One code point in a JSON string: short escapes, \u escapes, or its UTF-8 bytes. */
  function CharBytes(c: char): (n: nat)
    ensures n <= 6
  {
    if c in {'"', '\\', '\n', '\r', '\t', '\U{0008}', '\U{000C}'} then 2
    else if c < ' ' || c in {'<', '>', '&', '\U{2028}', '\U{2029}'} then 6
    else |Utf8.EncodeRune(c)|
  }

  function TextBytes(s: string): (n: nat)
    ensures n <= 6 * |s|
  {
    if s == [] then 0 else CharBytes(s[0]) + TextBytes(s[1..])
  }

  function Quoted(s: string): nat { 2 + TextBytes(s) }

  function WordBytes(w: Word): (n: nat) {
    match w
    case SchemaWord(NoSchema) => 0
    case SchemaWord(SoulDocumentV2) => TextBytes(SCHEMA_URL)
    case SchemaWord(OtherSchema(name)) => TextBytes(name)
    case StateWord(Draft) => 5
    case StateWord(Published) => 9
    case StateWord(Archived) => 8
    case SourceWord(HostGenesisFinalize) => 21
    case SourceWord(HostRecovery) => 13
    case SourceWord(PtahSeed) => 9
    case SourceWord(Owner) => 5
    case SourceWord(OtherSource(name)) => TextBytes(name)
    case ClassificationWord(NoClassification) => 0
    case ClassificationWord(PublishedArtifactVerified) => 27
    case ClassificationWord(LegacyDeclarationsOnly) => 24
    case ClassificationWord(OtherClassification(name)) => TextBytes(name)
  }

  function NumberBytes(n: int): nat { if n < 0 then 1 + |Decimal(-n)| else |Decimal(n)| }

  /** Brackets, and a comma between any two items: one byte more than the items with a comma each. */
  function JsonBytes(j: Json): (n: nat)
    decreases j, 1, 0
  {
    match j
    case Null => 4
    case Bool(b) => if b then 4 else 5
    case Num(n) => NumberBytes(n)
    case Str(s) => Quoted(s)
    case Fixed(w) => 2 + WordBytes(w)
    case Time(_) => INSTANT_BYTES
    case Arr(items) => if items == [] then 2 else 1 + ItemsBytes(j, |items|)
    case Obj(fields) => if fields == map[] then 2 else 1 + MembersBytes(j, NAMES)
  }

  function ItemsBytes(j: Json, n: nat): nat
    requires j.Arr? && n <= |j.items|
    decreases j, 0, n
  {
    if n == 0 then 0 else ItemsBytes(j, n - 1) + JsonBytes(j.items[n - 1]) + 1
  }

  /** The members with names up to n, each with its quotes, colon and comma. */
  function MembersBytes(j: Json, n: nat): nat
    requires j.Obj?
    decreases j, 0, n
  {
    if n == 0 then 0 else MembersBytes(j, n - 1) + if n in j.fields then NameBytes(n) + 4 + JsonBytes(j.fields[n]) else 0
  }

  // ---- comparing two objects member by member ----

  /** What member k adds to an object. */
  function MemberBytes(j: Json, k: Key): nat
    requires j.Obj?
  {
    if k in j.fields then NameBytes(k) + 4 + JsonBytes(j.fields[k]) else 0
  }

  lemma {:induction false} MembersShift(j: Json, j': Json, n: nat, key: Key, d: int)
    requires j.Obj? && j'.Obj? && MemberBytes(j', key) == MemberBytes(j, key) + d
    requires forall k :: k != key ==> MemberBytes(j', k) == MemberBytes(j, k)
    ensures MembersBytes(j', n) == MembersBytes(j, n) + if 1 <= key <= n then d else 0
    decreases n
  {
    if n > 0 {
      MembersShift(j, j', n - 1, key, d);
      assert MemberBytes(j', n) == MemberBytes(j, n) + if n == key then d else 0;
    }
  }

  /** Objects that differ in one member differ in length by as much as that member. */
  lemma ObjectShift(j: Json, j': Json, key: Key, d: int)
    requires j.Obj? && j'.Obj? && j.fields != map[] && j'.fields != map[] && 1 <= key <= NAMES
    requires MemberBytes(j', key) == MemberBytes(j, key) + d
    requires forall k :: k != key ==> MemberBytes(j', k) == MemberBytes(j, k)
    ensures JsonBytes(j') == JsonBytes(j) + d
  {
    MembersShift(j, j', NAMES, key, d);
  }

  lemma {:induction false} MembersAtMost(j: Json, j': Json, n: nat)
    requires j.Obj? && j'.Obj? && forall k :: MemberBytes(j, k) <= MemberBytes(j', k)
    ensures MembersBytes(j, n) <= MembersBytes(j', n)
  {
    if n > 0 {
      MembersAtMost(j, j', n - 1);
      assert MemberBytes(j, n) <= MemberBytes(j', n);
    }
  }

  ghost predicate ValuesAtMost(j: Json, b: nat)
    requires j.Obj?
  {
    forall k :: k in j.fields ==> JsonBytes(j.fields[k]) <= b
  }

  lemma OneMore(n: nat, b: nat)
    ensures (n + 1) * b == n * b + b
  {
  }

  lemma {:induction false} MembersBound(j: Json, n: nat, b: nat)
    requires j.Obj? && ValuesAtMost(j, b)
    ensures MembersBytes(j, n) <= |set k | k in j.fields && 1 <= k <= n| * (30 + b)
  {
    var s := set k | k in j.fields && 1 <= k <= n;
    if n > 0 {
      MembersBound(j, n - 1, b);
      var before := set k | k in j.fields && 1 <= k <= n - 1;
      if n in j.fields {
        assert s == before + {n} && |s| == |before| + 1;
        OneMore(|before|, 30 + b);
      } else {
        assert s == before;
      }
    }
  }

  lemma SubsetSize<T>(a: set<T>, b: set<T>)
    requires a <= b
    ensures |a| <= |b|
  {
    assert b == a + (b - a);
  }

  /** An object of these members, with values of at most b bytes. */
  lemma ObjectBound(j: Json, keys: set<Key>, count: nat, b: nat)
    requires j.Obj? && ValuesAtMost(j, b) && j.fields.Keys <= keys && |keys| <= count
    ensures JsonBytes(j) <= 2 + count * (30 + b)
  {
    MembersBound(j, NAMES, b);
    var s := set k | k in j.fields && 1 <= k <= NAMES;
    SubsetSize(s, keys);
    Times(|s|, count, 30 + b);
  }

  lemma Times(m: nat, n: nat, b: nat)
    requires m <= n
    ensures m * b <= n * b
  {
  }

  // ---- the stamped forms of one document ----

  lemma OneDigit(n: nat)
    requires n < 10
    ensures NumberBytes(n) == 1
  {
  }

  lemma StampedMember(d: Document, state: State, soulVersion: int, version: int, subject: string, now: int, k: Key)
    ensures DocumentField(Stamp(d, state, soulVersion, version, subject, now, now), k)
      == if k == SchemaVersionKey then Some(Fixed(SchemaWord(SoulDocumentV2)))
         else if k == SoulVersionKey then NonZero(soulVersion)
         else if k == LifecycleStateKey then Some(Fixed(StateWord(state)))
         else if k == UpdatedBySubjectIdKey then NonEmpty(Trim(subject))
         else if k in {CreatedAtKey, UpdatedAtKey} then Some(Time(now))
         else if k == VersionKey then NonZero(version)
         else DocumentField(d, k)
  {
    hide Trim;
  }

  lemma EncodedMember(d: Document, k: Key)
    ensures Encode(d).Obj? && Encode(d).fields != map[]
    ensures MemberBytes(Encode(d), k)
      == match DocumentField(d, k) case None => 0 case Some(v) => NameBytes(k) + 4 + JsonBytes(v)
  {
    hide JsonBytes, NameBytes, DocumentField;
    EncodedMembers(d);
    assert Member(Encode(d), k) == DocumentField(d, k);
    AgentIdEncoded(d);
    assert Member(Encode(d), AgentIdKey) == DocumentField(d, AgentIdKey);
  }

  lemma AgentIdEncoded(d: Document)
    ensures DocumentField(d, AgentIdKey).Some?
  {
  }

  /** Publishing makes the text four bytes longer: the state is spelled out, the version is still one digit. */
  lemma PublishedLonger(d: Document, subject: string, now: int)
    ensures JsonBytes(Encode(Stamp(d, Published, 1, 2, subject, now, now)))
         == JsonBytes(Encode(Stamp(d, Draft, 1, 1, subject, now, now))) + 4
  {
    hide Encode, DocumentField, Stamp, Trim, NameBytes, MembersBytes, ItemsBytes, Decimal;
    var draft, published := Stamp(d, Draft, 1, 1, subject, now, now), Stamp(d, Published, 1, 2, subject, now, now);
    OneDigit(1);
    OneDigit(2);
    EncodedMember(draft, AgentIdKey);
    EncodedMember(published, AgentIdKey);
    forall k
      ensures MemberBytes(Encode(published), k) == MemberBytes(Encode(draft), k) + if k == LifecycleStateKey then 4 else 0
    {
      EncodedMember(draft, k);
      EncodedMember(published, k);
      StampedMember(d, Draft, 1, 1, subject, now, k);
      StampedMember(d, Published, 1, 2, subject, now, k);
    }
    ObjectShift(Encode(draft), Encode(published), LifecycleStateKey, 4);
  }

  // ---- a document of any length ----

  function Padding(n: nat): string { seq(n, i requires 0 <= i < n => 'x') }

  lemma {:induction false} PaddingBytes(n: nat)
    ensures TextBytes(Padding(n)) == n
  {
    if n > 0 {
      PaddingBytes(n - 1);
      assert Padding(n)[1..] == Padding(n - 1);
    }
  }

  const PLAIN := Section("s", None)
  const SOUL := SoulSection("s", None, Some([Refusal("b", "i", "c")]))

  function Noted(n: nat): Section { Section("s", Some([Padding(n)])) }

  function Bodies(n: nat): FiveBodies { FiveBodies(Some(Noted(n)), Some(PLAIN), Some(PLAIN), Some(PLAIN), Some(SOUL)) }

  /** A declaration with one note of n letters. */
  function Lengthy(n: nat): Document {
    Document(NoSchema, "a", "b", None, 0, None, "", None, None, 0, Some(Structure(Some(Bodies(n)))), None)
  }

  lemma NotesBytes(n: nat)
    ensures JsonBytes(EncodeStrings([Padding(n)])) == 4 + n
  {
    var j := EncodeStrings([Padding(n)]);
    PaddingBytes(n);
    assert ItemsBytes(j, 1) == ItemsBytes(j, 0) + JsonBytes(j.items[0]) + 1;
  }

  lemma SectionGrows(n: nat)
    ensures JsonBytes(EncodeSection(Noted(n))) == JsonBytes(EncodeSection(Noted(0))) + n
  {
    hide JsonBytes, NameBytes, TextBytes, MembersBytes;
    var j, j' := EncodeSection(Noted(0)), EncodeSection(Noted(n));
    NotesBytes(0);
    NotesBytes(n);
    assert Member(j, SummaryKey).Some? && Member(j', SummaryKey).Some?;
    forall k ensures MemberBytes(j', k) == MemberBytes(j, k) + if k == NotesKey then n else 0 {
      assert Member(j, k) == (if k in SECTION_KEYS then SectionField(Noted(0), k) else None);
      assert Member(j', k) == (if k in SECTION_KEYS then SectionField(Noted(n), k) else None);
    }
    ObjectShift(j, j', NotesKey, n);
  }

  lemma BodiesGrow(n: nat)
    ensures JsonBytes(EncodeFiveBodies(Some(Bodies(n)))) == JsonBytes(EncodeFiveBodies(Some(Bodies(0)))) + n
  {
    hide JsonBytes, NameBytes, MembersBytes, EncodeSection, EncodeSoulSection;
    var j, j' := EncodeFiveBodies(Some(Bodies(0))), EncodeFiveBodies(Some(Bodies(n)));
    SectionGrows(n);
    assert Member(j, IdentityKey).Some? && Member(j', IdentityKey).Some?;
    forall k ensures MemberBytes(j', k) == MemberBytes(j, k) + if k == IdentityKey then n else 0 {
      assert Member(j, k) == (if k in FIVE_BODIES_KEYS then FiveBodiesField(Bodies(0), k) else None);
      assert Member(j', k) == (if k in FIVE_BODIES_KEYS then FiveBodiesField(Bodies(n), k) else None);
    }
    ObjectShift(j, j', IdentityKey, n);
  }

  lemma StructureGrows(n: nat)
    ensures JsonBytes(EncodeStructure(Structure(Some(Bodies(n))))) == JsonBytes(EncodeStructure(Structure(Some(Bodies(0))))) + n
  {
    hide JsonBytes, NameBytes, MembersBytes, EncodeFiveBodies, Bodies;
    var j, j' := EncodeStructure(Structure(Some(Bodies(0)))), EncodeStructure(Structure(Some(Bodies(n))));
    BodiesGrow(n);
    assert Member(j, FiveBodiesKey).Some? && Member(j', FiveBodiesKey).Some?;
    forall k ensures MemberBytes(j', k) == MemberBytes(j, k) + if k == FiveBodiesKey then n else 0 {
      assert Member(j, k) == (if k in STRUCTURE_KEYS then StructureField(Structure(Some(Bodies(0))), k) else None);
      assert Member(j', k) == (if k in STRUCTURE_KEYS then StructureField(Structure(Some(Bodies(n))), k) else None);
    }
    ObjectShift(j, j', FiveBodiesKey, n);
  }

  lemma LengthyField(n: nat, k: Key)
    ensures DocumentField(Lengthy(n), k)
      == if k == AgentIdKey then Some(Str("a")) else if k == BodyKey then Some(Str("b"))
         else if k == StructureKey then Some(EncodeStructure(Structure(Some(Bodies(n))))) else None
  {
    hide EncodeStructure, Bodies;
  }

  /** Every letter of the note is one byte of the stored draft. */
  lemma LengthyGrows(n: nat, subject: string, now: int)
    ensures JsonBytes(Encode(Stamp(Lengthy(n), Draft, 1, 1, subject, now, now)))
         == JsonBytes(Encode(Stamp(Lengthy(0), Draft, 1, 1, subject, now, now))) + n
  {
    hide Encode, DocumentField, Stamp, Trim, NameBytes, MembersBytes, JsonBytes, EncodeStructure, Lengthy, Bodies;
    var d, d' := Stamp(Lengthy(0), Draft, 1, 1, subject, now, now), Stamp(Lengthy(n), Draft, 1, 1, subject, now, now);
    StructureGrows(n);
    EncodedMember(d, AgentIdKey);
    EncodedMember(d', AgentIdKey);
    forall k ensures MemberBytes(Encode(d'), k) == MemberBytes(Encode(d), k) + if k == StructureKey then n else 0 {
      EncodedMember(d, k);
      EncodedMember(d', k);
      StampedMember(Lengthy(0), Draft, 1, 1, subject, now, k);
      StampedMember(Lengthy(n), Draft, 1, 1, subject, now, k);
      LengthyField(0, k);
      LengthyField(n, k);
    }
    ObjectShift(Encode(d), Encode(d'), StructureKey, n);
  }

  /** The length of the stored form does not depend on the instant. */
  lemma InstantsAlike(d: Document, subject: string, now: int, then_: int)
    ensures JsonBytes(Encode(Stamp(d, Draft, 1, 1, subject, now, now)))
         == JsonBytes(Encode(Stamp(d, Draft, 1, 1, subject, then_, then_)))
  {
    hide Encode, DocumentField, Stamp, Trim, NameBytes, MembersBytes;
    var e, e' := Stamp(d, Draft, 1, 1, subject, then_, then_), Stamp(d, Draft, 1, 1, subject, now, now);
    EncodedMember(e, AgentIdKey);
    EncodedMember(e', AgentIdKey);
    forall k ensures MemberBytes(Encode(e'), k) == MemberBytes(Encode(e), k) {
      EncodedMember(e, k);
      EncodedMember(e', k);
      StampedMember(d, Draft, 1, 1, subject, now, k);
      StampedMember(d, Draft, 1, 1, subject, then_, k);
    }
    ObjectShift(Encode(e), Encode(e'), AgentIdKey, 0);
  }

  /** The text of a draft before it is stamped is no longer than after. */
  lemma StampLengthens(n: nat, subject: string, now: int)
    ensures JsonBytes(Encode(Lengthy(n))) <= JsonBytes(Encode(Stamp(Lengthy(n), Draft, 1, 1, subject, now, now)))
  {
    hide Encode, DocumentField, Stamp, Trim, NameBytes, MembersBytes, JsonBytes, EncodeStructure, Lengthy, Bodies;
    var d, d' := Lengthy(n), Stamp(Lengthy(n), Draft, 1, 1, subject, now, now);
    EncodedMember(d, AgentIdKey);
    EncodedMember(d', AgentIdKey);
    forall k ensures MemberBytes(Encode(d), k) <= MemberBytes(Encode(d'), k) {
      EncodedMember(d, k);
      EncodedMember(d', k);
      StampedMember(Lengthy(n), Draft, 1, 1, subject, now, k);
      LengthyField(n, k);
    }
    MoreMembers(Encode(d), Encode(d'));
  }

  lemma MoreMembers(j: Json, j': Json)
    requires j.Obj? && j'.Obj? && j.fields != map[] && j'.fields != map[]
    requires forall k :: MemberBytes(j, k) <= MemberBytes(j', k)
    ensures JsonBytes(j) <= JsonBytes(j')
  {
    MembersAtMost(j, j', NAMES);
  }

  // ---- with no note text at all there is ample room ----

  lemma RefusalBound(r: Refusal)
    requires |r.bypass| <= 1 && |r.invariant_| <= 1 && |r.closestSafePath| <= 1
    ensures JsonBytes(EncodeRefusal(r)) <= 116
  {
    hide NameBytes, MembersBytes, CharBytes;
    var j := EncodeRefusal(r);
    forall k | k in j.fields ensures JsonBytes(j.fields[k]) <= 8 {
      assert Member(j, k) == RefusalField(r, k);
    }
    ObjectBound(j, REFUSAL_KEYS, 3, 8);
  }

  lemma RefusalsBound()
    ensures JsonBytes(EncodeRefusals(SOUL.refusals)) <= 118
  {
    hide NameBytes, MembersBytes, EncodeRefusal;
    var j := EncodeRefusals(SOUL.refusals);
    RefusalBound(SOUL.refusals.value[0]);
    assert ItemsBytes(j, 1) == ItemsBytes(j, 0) + JsonBytes(j.items[0]) + 1;
  }

  lemma SoulBound()
    ensures JsonBytes(EncodeSoulSection(SOUL)) <= 446
  {
    hide NameBytes, MembersBytes, CharBytes, EncodeRefusals;
    var j := EncodeSoulSection(SOUL);
    RefusalsBound();
    forall k | k in j.fields ensures JsonBytes(j.fields[k]) <= 118 {
      assert Member(j, k) == SoulSectionField(SOUL, k);
    }
    ObjectBound(j, SOUL_SECTION_KEYS, 3, 118);
  }

  lemma SectionBound(s: Section)
    requires s == PLAIN || s == Noted(0)
    ensures JsonBytes(EncodeSection(s)) <= 78
  {
    hide NameBytes, MembersBytes, CharBytes;
    var j := EncodeSection(s);
    NotesBytes(0);
    forall k | k in j.fields ensures JsonBytes(j.fields[k]) <= 8 {
      assert Member(j, k) == SectionField(s, k);
    }
    ObjectBound(j, SECTION_KEYS, 2, 8);
  }

  lemma BodiesBound()
    ensures JsonBytes(EncodeFiveBodies(Some(Bodies(0)))) <= 2382
  {
    hide NameBytes, MembersBytes, JsonBytes, EncodeSection, EncodeSoulSection;
    var j := EncodeFiveBodies(Some(Bodies(0)));
    SectionBound(PLAIN);
    SectionBound(Noted(0));
    SoulBound();
    forall k | k in j.fields ensures JsonBytes(j.fields[k]) <= 446 {
      assert Member(j, k) == FiveBodiesField(Bodies(0), k);
    }
    ObjectBound(j, FIVE_BODIES_KEYS, 5, 446);
  }

  lemma StructureBound()
    ensures JsonBytes(EncodeStructure(Structure(Some(Bodies(0))))) <= 2414
  {
    hide NameBytes, MembersBytes, JsonBytes, EncodeFiveBodies, Bodies;
    var s := Structure(Some(Bodies(0)));
    var j := EncodeStructure(s);
    BodiesBound();
    forall k | k in j.fields ensures JsonBytes(j.fields[k]) <= 2382 {
      assert Member(j, k) == StructureField(s, k);
    }
    ObjectBound(j, STRUCTURE_KEYS, 1, 2382);
  }

  lemma SchemaBytes()
    ensures TextBytes(SCHEMA_URL) <= 600
  {
    hide TextBytes;
    assert |SCHEMA_URL| <= 100;
  }

  lemma ShortValues(subject: string, now: int)
    requires TextBytes(Trim(subject)) <= 2000
    ensures JsonBytes(Fixed(SchemaWord(SoulDocumentV2))) <= 2414 && JsonBytes(Fixed(StateWord(Draft))) <= 2414
    ensures NumberBytes(1) == 1 && JsonBytes(Time(now)) <= 2414
    ensures JsonBytes(Str(Trim(subject))) <= 2414 && JsonBytes(Str("a")) <= 2414 && JsonBytes(Str("b")) <= 2414
  {
    hide Trim, TextBytes, MembersBytes, ItemsBytes, Decimal;
    SchemaBytes();
    OneDigit(1);
    assert |"a"| == 1 && |"b"| == 1;
  }

  lemma DraftBound(subject: string, now: int)
    requires TextBytes(Trim(subject)) <= 2000
    ensures JsonBytes(Encode(Stamp(Lengthy(0), Draft, 1, 1, subject, now, now))) <= 30_000
  {
    hide Encode, DocumentField, Stamp, Trim, NameBytes, MembersBytes, EncodeStructure, Lengthy, Bodies, TextBytes, NumberBytes;
    var d := Stamp(Lengthy(0), Draft, 1, 1, subject, now, now);
    var j := Encode(d);
    StructureBound();
    ShortValues(subject, now);
    EncodedMember(d, AgentIdKey);
    EncodedMembers(d);
    forall k | k in j.fields ensures JsonBytes(j.fields[k]) <= 2414 {
      assert Member(j, k) == DocumentField(d, k);
      StampedMember(Lengthy(0), Draft, 1, 1, subject, now, k);
      LengthyField(0, k);
    }
    DocumentKeys(d);
    ObjectBound(j, DOCUMENT_KEYS, 12, 2414);
  }

  lemma DocumentKeys(d: Document)
    ensures Encode(d).Obj? && Encode(d).fields.Keys <= DOCUMENT_KEYS && |DOCUMENT_KEYS| <= 12
  {
    hide DocumentField;
  }

  /** For every author there is a declaration whose stored draft has exactly this length. */
  lemma AnyLength(subject: string, length: nat) returns (n: nat)
    requires TextBytes(Trim(subject)) <= 2000 && length >= 30_000
    ensures forall now :: JsonBytes(Encode(Stamp(Lengthy(n), Draft, 1, 1, subject, now, now))) == length
  {
    hide Encode, Stamp, Trim, JsonBytes, Lengthy, TextBytes;
    DraftBound(subject, 0);
    n := length - JsonBytes(Encode(Stamp(Lengthy(0), Draft, 1, 1, subject, 0, 0)));
    forall now ensures JsonBytes(Encode(Stamp(Lengthy(n), Draft, 1, 1, subject, now, now))) == length {
      InstantsAlike(Lengthy(n), subject, now, 0);
      LengthyGrows(n, subject, 0);
    }
  }
}
