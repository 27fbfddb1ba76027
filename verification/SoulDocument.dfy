/**
 JSON trees. Member names are interned as numbers; a string drawn from a
 fixed vocabulary is Fixed, any other string a Str.
 */
module Json {
  import opened Wrappers
  import opened ContentKeys

  /** A member name, interned as a number; every number without a constant below is some other name. */
  type Key = int

  const SchemaVersionKey: Key := 1
  const AgentIdKey: Key := 2
  const BodyKey: Key := 3
  const SummaryKey: Key := 4
  const SoulVersionKey: Key := 5
  const LifecycleStateKey: Key := 6
  const UpdatedBySubjectIdKey: Key := 7
  const CreatedAtKey: Key := 8
  const UpdatedAtKey: Key := 9
  const VersionKey: Key := 10
  const StructureKey: Key := 11
  const ProvenanceKey: Key := 12
  const FiveBodiesKey: Key := 13
  const IdentityKey: Key := 14
  const PhilosophyKey: Key := 15
  const DisciplineKey: Key := 16
  const BoundariesKey: Key := 17
  const SoulKey: Key := 18
  const NotesKey: Key := 19
  const RefusalsKey: Key := 20
  const BypassKey: Key := 21
  const InvariantKey: Key := 22
  const ClosestSafePathKey: Key := 23
  const DeclarationSchemaVersionKey: Key := 24
  const CandidateHashKey: Key := 25
  const RegistrationIdKey: Key := 26
  const ConversationIdKey: Key := 27
  const ModelKey: Key := 28
  const SourceKey: Key := 29
  const ClassificationKey: Key := 30
  const MigrationReadKey: Key := 31
  const ProducedAtKey: Key := 32
  const HistoricalPublicationKey: Key := 33

  const SCHEMA_URL := "https://spec.lessersoul.ai/contracts/panonomous/soul-document/v2/schema.json"

  /** Names outside a closed vocabulary, so that every string of the source has one value here. */
  type UnknownSchema = s: string | s !in ["", SCHEMA_URL] witness "x"
  type UnknownSource = s: string | s !in ["host_genesis_finalize", "host_recovery", "ptah_seed", "owner"] witness ""
  type UnknownClassification = s: string | s !in ["", "published_artifact_verified", "legacy_declarations_only"] witness "x"

  datatype Schema = NoSchema | SoulDocumentV2 | OtherSchema(name: UnknownSchema)
  datatype Source = HostGenesisFinalize | HostRecovery | PtahSeed | Owner | OtherSource(name: UnknownSource)
  datatype Classification =
    NoClassification | PublishedArtifactVerified | LegacyDeclarationsOnly | OtherClassification(name: UnknownClassification)

  datatype Word = SchemaWord(schema: Schema) | StateWord(state: State) | SourceWord(source: Source)
                | ClassificationWord(classification: Classification)

  /** Time is a JSON string that parses as a timestamp. */
  datatype Json =
    | Null | Bool(b: bool) | Num(n: int) | Str(s: string) | Fixed(w: Word) | Time(t: int)
    | Arr(items: seq<Json>) | Obj(fields: map<Key, Json>)

  function Member(j: Json, k: Key): (r: Option<Json>) {
    if j.Obj? && k in j.fields then Some(j.fields[k]) else None
  }

  /** The object with the members that f supplies. */
  function ObjOf(keys: set<Key>, f: Key -> Option<Json>): (r: Json)
    ensures r.Obj? && r.fields.Keys <= keys
    ensures forall k :: Member(r, k) == if k in keys then f(k) else None
  {
    Obj(map k | k in keys && f(k).Some? :: f(k).value)
  }

  /** requireClosedObjectFields: no unknown member, no null member, every required member there. */
  predicate Closed(j: Json, required: set<Key>, allowed: set<Key>) {
    && j.Obj?
    && j.fields.Keys <= allowed && required <= j.fields.Keys
    && (forall k :: k in j.fields ==> j.fields[k] != Null)
  }

  /** DisallowUnknownFields on a struct without its own decoder: null members are zero values. */
  predicate Known(j: Json, allowed: set<Key>) {
    j.Obj? && j.fields.Keys <= allowed
  }

  function DecodeAll<T>(items: seq<Json>, d: Json -> Option<T>): (r: Option<seq<T>>)
    ensures r.Some? ==> |r.value| == |items|
  {
    if items == [] then Some([])
    else
      var x :- d(items[0]);
      var xs :- DecodeAll(items[1..], d);
      Some([x] + xs)
  }

  lemma {:induction false} DecodeAllIs<T>(items: seq<Json>, d: Json -> Option<T>, xs: seq<T>)
    requires |items| == |xs| && forall i :: 0 <= i < |xs| ==> d(items[i]) == Some(xs[i])
    ensures DecodeAll(items, d) == Some(xs)
  {
    if items != [] {
      DecodeAllIs(items[1..], d, xs[1..]);
      assert xs == [xs[0]] + xs[1..];
    }
  }
}

/** The soul document v2: internal/agentcontent/soul_document.go. */
module SoulDocument {
  import opened Wrappers
  import opened ContentKeys
  import opened Json
  import opened Text
  import Utf8

  const MAX_BODY_BYTES := 49_152
  const MAX_SUMMARY_BYTES := 2_048
  const MAX_DOCUMENT_BYTES := 300 * 1024
  const MAX_AGENT_ID_RUNES := 128

  datatype Refusal = Refusal(bypass: string, invariant_: string, closestSafePath: string)

  /** None is a nil slice: absent notes differ from an empty list of notes. */
  datatype Section = Section(summary: string, notes: Option<seq<string>>)

  datatype SoulSection =
    SoulSection(summary: string, notes: Option<seq<string>>, refusals: Option<seq<Refusal>>)

  datatype FiveBodies = FiveBodies(
    identity: Option<Section>, philosophy: Option<Section>, discipline: Option<Section>,
    boundaries: Option<Section>, soul: Option<SoulSection>)

  datatype Structure = Structure(fiveBodies: Option<FiveBodies>)

  datatype Provenance = Provenance(
    declarationSchemaVersion: string, candidateHash: string, registrationId: string,
    conversationId: string, model: string, source: Source, classification: Classification,
    migrationRead: string, producedAt: string, historicalPublication: Option<bool>)

  /** Zero values stand for absent members; the six server fields are stamped by the store. */
  datatype Document = Document(
    schema: Schema, agentId: string, body: string, summary: Option<string>,
    soulVersion: int, state: Option<State>, updatedBy: string,
    createdAt: Option<int>, updatedAt: Option<int>, version: int,
    structure: Option<Structure>, provenance: Option<Provenance>)

  // ---- encoding ----

  function NonZero(n: int): Option<Json> { if n == 0 then None else Some(Num(n)) }
  function NonEmpty(s: string): Option<Json> { if s == "" then None else Some(Str(s)) }
  function OptTime(t: Option<int>): Option<Json> { if t.None? then None else Some(Time(t.value)) }

  function EncodeStrings(strings: seq<string>): (r: Json)
    ensures r.Arr? && |r.items| == |strings| && forall i :: 0 <= i < |strings| ==> r.items[i] == Str(strings[i])
  {
    Arr(seq(|strings|, i requires 0 <= i < |strings| => Str(strings[i])))
  }

  function EncodeNotes(notes: Option<seq<string>>): Option<Json> {
    if notes.None? then None else Some(EncodeStrings(notes.value))
  }

  const REFUSAL_KEYS := {BypassKey, InvariantKey, ClosestSafePathKey}
  const SECTION_KEYS := {SummaryKey, NotesKey}
  const SOUL_SECTION_KEYS := {SummaryKey, NotesKey, RefusalsKey}
  const FIVE_BODIES_KEYS := {IdentityKey, PhilosophyKey, DisciplineKey, BoundariesKey, SoulKey}
  const STRUCTURE_KEYS := {FiveBodiesKey}
  const PROVENANCE_KEYS := {
    DeclarationSchemaVersionKey, CandidateHashKey, RegistrationIdKey, ConversationIdKey, ModelKey,
    SourceKey, ClassificationKey, MigrationReadKey, ProducedAtKey, HistoricalPublicationKey}
  const DOCUMENT_KEYS := {
    SchemaVersionKey, AgentIdKey, BodyKey, SummaryKey, SoulVersionKey, LifecycleStateKey,
    UpdatedBySubjectIdKey, CreatedAtKey, UpdatedAtKey, VersionKey, StructureKey, ProvenanceKey}

  function RefusalField(r: Refusal, k: Key): Option<Json> {
    if k == BypassKey then Some(Str(r.bypass))
    else if k == InvariantKey then Some(Str(r.invariant_))
    else if k == ClosestSafePathKey then Some(Str(r.closestSafePath))
    else None
  }

  function EncodeRefusal(r: Refusal): Json { ObjOf(REFUSAL_KEYS, k => RefusalField(r, k)) }

  /** A nil slice of refusals encodes as null, there is no omitempty. */
  function EncodeRefusals(refusals: Option<seq<Refusal>>): (r: Json)
    ensures refusals.None? ==> r == Null
    ensures refusals.Some? ==> r.Arr? && |r.items| == |refusals.value|
    ensures refusals.Some? ==> forall i :: 0 <= i < |r.items| ==> r.items[i] == EncodeRefusal(refusals.value[i])
  {
    match refusals
    case None => Null
    case Some(rs) => Arr(seq(|rs|, i requires 0 <= i < |rs| => EncodeRefusal(rs[i])))
  }

  function SectionField(s: Section, k: Key): Option<Json> {
    if k == SummaryKey then Some(Str(s.summary))
    else if k == NotesKey then EncodeNotes(s.notes)
    else None
  }

  function EncodeSection(s: Section): Json { ObjOf(SECTION_KEYS, k => SectionField(s, k)) }

  function SoulSectionField(s: SoulSection, k: Key): Option<Json> {
    if k == SummaryKey then Some(Str(s.summary))
    else if k == NotesKey then EncodeNotes(s.notes)
    else if k == RefusalsKey then Some(EncodeRefusals(s.refusals))
    else None
  }

  function EncodeSoulSection(s: SoulSection): Json { ObjOf(SOUL_SECTION_KEYS, k => SoulSectionField(s, k)) }

  function EncodeSectionPointer(s: Option<Section>): Json { if s.None? then Null else EncodeSection(s.value) }
  function EncodeSoulPointer(s: Option<SoulSection>): Json { if s.None? then Null else EncodeSoulSection(s.value) }

  function FiveBodiesField(f: FiveBodies, k: Key): Option<Json> {
    if k == IdentityKey then Some(EncodeSectionPointer(f.identity))
    else if k == PhilosophyKey then Some(EncodeSectionPointer(f.philosophy))
    else if k == DisciplineKey then Some(EncodeSectionPointer(f.discipline))
    else if k == BoundariesKey then Some(EncodeSectionPointer(f.boundaries))
    else if k == SoulKey then Some(EncodeSoulPointer(f.soul))
    else None
  }

  function EncodeFiveBodies(f: Option<FiveBodies>): Json {
    if f.None? then Null else ObjOf(FIVE_BODIES_KEYS, k => FiveBodiesField(f.value, k))
  }

  function StructureField(s: Structure, k: Key): Option<Json> {
    if k == FiveBodiesKey then Some(EncodeFiveBodies(s.fiveBodies)) else None
  }

  function EncodeStructure(s: Structure): Json { ObjOf(STRUCTURE_KEYS, k => StructureField(s, k)) }

  function ProvenanceField(p: Provenance, k: Key): Option<Json> {
    if k == DeclarationSchemaVersionKey then Some(Str(p.declarationSchemaVersion))
    else if k == CandidateHashKey then NonEmpty(p.candidateHash)
    else if k == RegistrationIdKey then Some(Str(p.registrationId))
    else if k == ConversationIdKey then Some(Str(p.conversationId))
    else if k == ModelKey then NonEmpty(p.model)
    else if k == SourceKey then Some(Fixed(SourceWord(p.source)))
    else if k == ClassificationKey then (if p.classification == NoClassification then None else Some(Fixed(ClassificationWord(p.classification))))
    else if k == MigrationReadKey then NonEmpty(p.migrationRead)
    else if k == ProducedAtKey then NonEmpty(p.producedAt)
    else if k == HistoricalPublicationKey then (if p.historicalPublication.None? then None else Some(Bool(p.historicalPublication.value)))
    else None
  }

  function EncodeProvenance(p: Provenance): Json { ObjOf(PROVENANCE_KEYS, k => ProvenanceField(p, k)) }

  function DocumentField(d: Document, k: Key): Option<Json> {
    if k == SchemaVersionKey then (if d.schema == NoSchema then None else Some(Fixed(SchemaWord(d.schema))))
    else if k == AgentIdKey then Some(Str(d.agentId))
    else if k == BodyKey then Some(Str(d.body))
    else if k == SummaryKey then (if d.summary.None? then None else Some(Str(d.summary.value)))
    else if k == SoulVersionKey then NonZero(d.soulVersion)
    else if k == LifecycleStateKey then (if d.state.None? then None else Some(Fixed(StateWord(d.state.value))))
    else if k == UpdatedBySubjectIdKey then NonEmpty(d.updatedBy)
    else if k == CreatedAtKey then OptTime(d.createdAt)
    else if k == UpdatedAtKey then OptTime(d.updatedAt)
    else if k == VersionKey then NonZero(d.version)
    else if k == StructureKey then (if d.structure.None? then None else Some(EncodeStructure(d.structure.value)))
    else if k == ProvenanceKey then (if d.provenance.None? then None else Some(EncodeProvenance(d.provenance.value)))
    else None
  }

  function Encode(d: Document): Json { ObjOf(DOCUMENT_KEYS, k => DocumentField(d, k)) }

  // ---- decoding ----

  function StringOr(j: Option<Json>): Option<string> {
    match j
    case None => Some("")
    case Some(Str(s)) => Some(s)
    case Some(Null) => Some("")
    case _ => None
  }

  function IntOr(j: Option<Json>): Option<int> {
    match j
    case None => Some(0)
    case Some(Num(n)) => Some(n)
    case _ => None
  }

  function TimeOr(j: Option<Json>): Option<Option<int>> {
    match j
    case None => Some(None)
    case Some(Time(t)) => Some(Some(t))
    case Some(Null) => Some(None)
    case _ => None
  }

  function DecodeString(j: Json): Option<string> { if j.Str? then Some(j.s) else None }

  function DecodeNotes(j: Option<Json>): Option<Option<seq<string>>> {
    match j
    case None => Some(None)
    case Some(Arr(items)) =>
      var notes :- DecodeAll(items, DecodeString); Some(Some(notes))
    case _ => None
  }

  function DecodeRefusal(j: Json): Option<Refusal> {
    if !Closed(j, REFUSAL_KEYS, REFUSAL_KEYS) then None
    else
      var bypass :- StringOr(Member(j, BypassKey));
      var inv :- StringOr(Member(j, InvariantKey));
      var path :- StringOr(Member(j, ClosestSafePathKey));
      Some(Refusal(bypass, inv, path))
  }

  function DecodeSection(j: Json): Option<Section> {
    if !Closed(j, {SummaryKey}, SECTION_KEYS) then None
    else
      var summary :- StringOr(Member(j, SummaryKey));
      var notes :- DecodeNotes(Member(j, NotesKey));
      Some(Section(summary, notes))
  }

  function DecodeRefusals(j: Option<Json>): Option<Option<seq<Refusal>>> {
    match j
    case Some(Arr(items)) =>
      var refusals :- DecodeAll(items, DecodeRefusal); Some(Some(refusals))
    case _ => None
  }

  function DecodeSoulSection(j: Json): Option<SoulSection> {
    if !Closed(j, {SummaryKey, RefusalsKey}, SOUL_SECTION_KEYS) then None
    else DecodeSoulSectionMembers(j)
  }

  function DecodeSoulSectionMembers(j: Json): Option<SoulSection> {
    var summary :- StringOr(Member(j, SummaryKey));
    var notes :- DecodeNotes(Member(j, NotesKey));
    var refusals :- DecodeRefusals(Member(j, RefusalsKey));
    Some(SoulSection(summary, notes, refusals))
  }

  /** A pointer member: absent and null are nil. */
  function Pointer<T>(j: Option<Json>, d: Json -> Option<T>): Option<Option<T>> {
    match j
    case None => Some(None)
    case Some(Null) => Some(None)
    case Some(v) => var x :- d(v); Some(Some(x))
  }

  function DecodeFiveBodies(j: Json): Option<FiveBodies> {
    if !Known(j, FIVE_BODIES_KEYS) then None
    else DecodeFiveBodiesMembers(j)
  }

  function DecodeFiveBodiesMembers(j: Json): Option<FiveBodies> {
    var identity :- Pointer(Member(j, IdentityKey), DecodeSection);
    var philosophy :- Pointer(Member(j, PhilosophyKey), DecodeSection);
    var discipline :- Pointer(Member(j, DisciplineKey), DecodeSection);
    var boundaries :- Pointer(Member(j, BoundariesKey), DecodeSection);
    var soul :- Pointer(Member(j, SoulKey), DecodeSoulSection);
    Some(FiveBodies(identity, philosophy, discipline, boundaries, soul))
  }

  function DecodeStructure(j: Json): Option<Structure> {
    if !Known(j, STRUCTURE_KEYS) then None
    else
      var five :- Pointer(Member(j, FiveBodiesKey), DecodeFiveBodies);
      Some(Structure(five))
  }

  function DecodeSource(j: Option<Json>): Option<Source> {
    match j
    case Some(Fixed(SourceWord(s))) => Some(s)
    case None => Some(OtherSource(""))
    case Some(Null) => Some(OtherSource(""))
    case _ => None
  }

  function DecodeClassification(j: Option<Json>): Option<Classification> {
    match j
    case Some(Fixed(ClassificationWord(c))) => Some(c)
    case None => Some(NoClassification)
    case Some(Null) => Some(NoClassification)
    case _ => None
  }

  function DecodeBool(j: Json): Option<bool> { if j.Bool? then Some(j.b) else None }

  function DecodeProvenance(j: Json): Option<Provenance> {
    if !Known(j, PROVENANCE_KEYS) then None
    else DecodeProvenanceMembers(j)
  }

  function DecodeProvenanceMembers(j: Json): Option<Provenance> {
    var declaration :- StringOr(Member(j, DeclarationSchemaVersionKey));
    var hash :- StringOr(Member(j, CandidateHashKey));
    var registration :- StringOr(Member(j, RegistrationIdKey));
    var conversation :- StringOr(Member(j, ConversationIdKey));
    var model :- StringOr(Member(j, ModelKey));
    var source :- DecodeSource(Member(j, SourceKey));
    var classification :- DecodeClassification(Member(j, ClassificationKey));
    var read :- StringOr(Member(j, MigrationReadKey));
    var produced :- StringOr(Member(j, ProducedAtKey));
    var historical :- Pointer(Member(j, HistoricalPublicationKey), DecodeBool);
    Some(Provenance(declaration, hash, registration, conversation, model, source, classification, read, produced, historical))
  }

  function DecodeSchema(j: Option<Json>): Option<Schema> {
    match j
    case None => Some(NoSchema)
    case Some(Fixed(SchemaWord(s))) => Some(s)
    case _ => None
  }

  function DecodeState(j: Option<Json>): Option<Option<State>> {
    match j
    case None => Some(None)
    case Some(Fixed(StateWord(s))) => Some(Some(s))
    case _ => None
  }

  function Decode(j: Json): (r: Option<Document>) {
    if !Closed(j, {AgentIdKey, BodyKey}, DOCUMENT_KEYS) then None
    else DecodeDocumentMembers(j)
  }

  function DecodeDocumentMembers(j: Json): Option<Document> {
    var schema :- DecodeSchema(Member(j, SchemaVersionKey));
    var agentId :- StringOr(Member(j, AgentIdKey));
    var body :- StringOr(Member(j, BodyKey));
    var summary :- Pointer(Member(j, SummaryKey), DecodeString);
    var soulVersion :- IntOr(Member(j, SoulVersionKey));
    var state :- DecodeState(Member(j, LifecycleStateKey));
    var updatedBy :- StringOr(Member(j, UpdatedBySubjectIdKey));
    var createdAt :- TimeOr(Member(j, CreatedAtKey));
    var updatedAt :- TimeOr(Member(j, UpdatedAtKey));
    var version :- IntOr(Member(j, VersionKey));
    var structure :- Pointer(Member(j, StructureKey), DecodeStructure);
    var provenance :- Pointer(Member(j, ProvenanceKey), DecodeProvenance);
    Some(Document(schema, agentId, body, summary, soulVersion, state, updatedBy, createdAt, updatedAt, version, structure, provenance))
  }

  // ---- round trip ----

  lemma NotesRoundTrip(notes: Option<seq<string>>)
    ensures DecodeNotes(EncodeNotes(notes)) == Some(notes)
  {
    if notes.Some? {
      DecodeAllIs(EncodeStrings(notes.value).items, DecodeString, notes.value);
    }
  }

  lemma RefusalRoundTrip(r: Refusal)
    ensures DecodeRefusal(EncodeRefusal(r)) == Some(r)
  {
    var j := EncodeRefusal(r);
    assert Member(j, BypassKey).Some? && Member(j, InvariantKey).Some? && Member(j, ClosestSafePathKey).Some?;
    forall k | k in j.fields ensures j.fields[k] != Null {
      assert Member(j, k) == RefusalField(r, k);
    }
  }

  lemma SectionRoundTrip(s: Section)
    ensures DecodeSection(EncodeSection(s)) == Some(s)
  {
    var j := EncodeSection(s);
    assert Member(j, SummaryKey).Some?;
    forall k | k in j.fields ensures j.fields[k] != Null {
      assert Member(j, k) == SectionField(s, k);
    }
    NotesRoundTrip(s.notes);
  }

  lemma RefusalsRoundTrip(rs: seq<Refusal>)
    ensures DecodeRefusals(Some(EncodeRefusals(Some(rs)))) == Some(Some(rs))
  {
    forall i | 0 <= i < |rs| ensures DecodeRefusal(EncodeRefusals(Some(rs)).items[i]) == Some(rs[i]) {
      RefusalRoundTrip(rs[i]);
    }
    DecodeAllIs(EncodeRefusals(Some(rs)).items, DecodeRefusal, rs);
  }

  lemma SoulSectionMembers(j: Json, s: SoulSection)
    requires forall k :: Member(j, k) == SoulSectionField(s, k)
    requires s.refusals.Some?
    ensures DecodeSoulSectionMembers(j) == Some(s)
  {
    NotesRoundTrip(s.notes);
    RefusalsRoundTrip(s.refusals.value);
  }

  /** A nil slice of refusals is the one thing that encodes but does not decode. */
  lemma SoulSectionRoundTrip(s: SoulSection)
    ensures DecodeSoulSection(EncodeSoulSection(s)) == if s.refusals.Some? then Some(s) else None
  {
    var j := EncodeSoulSection(s);
    assert Member(j, SummaryKey).Some? && Member(j, RefusalsKey) == Some(EncodeRefusals(s.refusals));
    if s.refusals.Some? {
      forall k | k in j.fields ensures j.fields[k] != Null {
        assert Member(j, k) == SoulSectionField(s, k);
      }
      SoulSectionMembers(j, s);
    } else {
      assert j.fields[RefusalsKey] == Null;
    }
  }

  predicate RefusalsPresent(d: Document) {
    d.structure.Some? && d.structure.value.fiveBodies.Some? && d.structure.value.fiveBodies.value.soul.Some?
    ==> d.structure.value.fiveBodies.value.soul.value.refusals.Some?
  }

  lemma SectionPointerRoundTrip(s: Option<Section>)
    ensures Pointer(Some(EncodeSectionPointer(s)), DecodeSection) == Some(s)
  {
    if s.Some? {
      SectionRoundTrip(s.value);
    }
  }

  lemma FiveBodiesMembers(j: Json, f: FiveBodies)
    requires forall k :: Member(j, k) == FiveBodiesField(f, k)
    ensures DecodeFiveBodiesMembers(j) == if f.soul.Some? ==> f.soul.value.refusals.Some? then Some(f) else None
  {
    SectionPointerRoundTrip(f.identity);
    SectionPointerRoundTrip(f.philosophy);
    SectionPointerRoundTrip(f.discipline);
    SectionPointerRoundTrip(f.boundaries);
    SoulPointerRoundTrip(f.soul);
  }

  lemma SoulPointerRoundTrip(s: Option<SoulSection>)
    ensures Pointer(Some(EncodeSoulPointer(s)), DecodeSoulSection)
         == if s.Some? ==> s.value.refusals.Some? then Some(s) else None
  {
    if s.Some? {
      SoulSectionRoundTrip(s.value);
    }
  }

  lemma FiveBodiesRoundTrip(f: FiveBodies)
    ensures DecodeFiveBodies(EncodeFiveBodies(Some(f)))
         == if f.soul.Some? ==> f.soul.value.refusals.Some? then Some(f) else None
  {
    FiveBodiesMembers(EncodeFiveBodies(Some(f)), f);
  }

  lemma ProvenanceMembers(j: Json, p: Provenance)
    requires forall k :: Member(j, k) == ProvenanceField(p, k)
    ensures DecodeProvenanceMembers(j) == Some(p)
  {
    hide Member;
  }

  lemma ProvenanceRoundTrip(p: Provenance)
    ensures DecodeProvenance(EncodeProvenance(p)) == Some(p)
  {
    ProvenanceMembers(EncodeProvenance(p), p);
  }

  lemma StructureRoundTrip(s: Structure)
    ensures DecodeStructure(EncodeStructure(s))
         == if s.fiveBodies.Some? && s.fiveBodies.value.soul.Some? ==> s.fiveBodies.value.soul.value.refusals.Some?
            then Some(s) else None
  {
    if s.fiveBodies.Some? {
      FiveBodiesRoundTrip(s.fiveBodies.value);
    }
    assert Member(EncodeStructure(s), FiveBodiesKey) == Some(EncodeFiveBodies(s.fiveBodies));
  }

  lemma StructurePointerRoundTrip(d: Document)
    ensures Pointer(DocumentField(d, StructureKey), DecodeStructure)
         == if RefusalsPresent(d) then Some(d.structure) else None
  {
    if d.structure.Some? {
      StructureRoundTrip(d.structure.value);
    }
  }

  lemma ProvenancePointerRoundTrip(d: Document)
    ensures Pointer(DocumentField(d, ProvenanceKey), DecodeProvenance) == Some(d.provenance)
  {
    if d.provenance.Some? {
      ProvenanceRoundTrip(d.provenance.value);
    }
  }

  lemma DocumentMembers(j: Json, d: Document)
    requires forall k :: Member(j, k) == DocumentField(d, k)
    ensures DecodeDocumentMembers(j) == if RefusalsPresent(d) then Some(d) else None
  {
    StructurePointerRoundTrip(d);
    ProvenancePointerRoundTrip(d);
    ScalarMembers(j, d);
    StampMembers(j, d);
  }

  lemma ScalarMembers(j: Json, d: Document)
    requires forall k :: Member(j, k) == DocumentField(d, k)
    ensures StringOr(Member(j, AgentIdKey)) == Some(d.agentId) && StringOr(Member(j, BodyKey)) == Some(d.body)
    ensures Pointer(Member(j, SummaryKey), DecodeString) == Some(d.summary)
    ensures StringOr(Member(j, UpdatedBySubjectIdKey)) == Some(d.updatedBy)
  {
  }

  lemma StampMembers(j: Json, d: Document)
    requires forall k :: Member(j, k) == DocumentField(d, k)
    ensures DecodeSchema(Member(j, SchemaVersionKey)) == Some(d.schema)
    ensures DecodeState(Member(j, LifecycleStateKey)) == Some(d.state)
    ensures IntOr(Member(j, SoulVersionKey)) == Some(d.soulVersion) && IntOr(Member(j, VersionKey)) == Some(d.version)
    ensures TimeOr(Member(j, CreatedAtKey)) == Some(d.createdAt) && TimeOr(Member(j, UpdatedAtKey)) == Some(d.updatedAt)
  {
  }

  lemma FieldNotNull(d: Document, k: Key)
    ensures DocumentField(d, k) != Some(Null)
    ensures k !in DOCUMENT_KEYS ==> DocumentField(d, k) == None
  {
  }

  lemma EncodedMembers(d: Document)
    ensures forall k :: Member(Encode(d), k) == DocumentField(d, k)
  {
    forall k ensures Member(Encode(d), k) == DocumentField(d, k) {
      FieldNotNull(d, k);
    }
  }

  lemma EncodedClosed(d: Document)
    ensures Closed(Encode(d), {AgentIdKey, BodyKey}, DOCUMENT_KEYS)
  {
    var j := Encode(d);
    EncodedMembers(d);
    assert Member(j, AgentIdKey).Some? && Member(j, BodyKey).Some?;
    forall k | k in j.fields ensures j.fields[k] != Null {
      FieldNotNull(d, k);
      assert Member(j, k) == Some(j.fields[k]);
    }
  }

  /**
   Decoding an encoded document gives the document back, absent and empty notes told apart, exactly
   when its refusals are not a nil slice.
   */
  lemma RoundTrip(d: Document)
    ensures Decode(Encode(d)) == if RefusalsPresent(d) then Some(d) else None
  {
    EncodedMembers(d);
    EncodedClosed(d);
    DocumentMembers(Encode(d), d);
  }

  // ---- encoding is injective on all documents ----

  lemma SectionPointerInjective(s: Option<Section>, t: Option<Section>)
    requires EncodeSectionPointer(s) == EncodeSectionPointer(t)
    ensures s == t
  {
    SectionPointerRoundTrip(s);
    SectionPointerRoundTrip(t);
  }

  lemma SoulPointerInjective(s: Option<SoulSection>, t: Option<SoulSection>)
    requires EncodeSoulPointer(s) == EncodeSoulPointer(t)
    ensures s == t
  {
    if s.Some? && t.Some? {
      var j := EncodeSoulPointer(s);
      assert Member(j, RefusalsKey) == Some(EncodeRefusals(s.value.refusals)) == Some(EncodeRefusals(t.value.refusals));
      SoulSectionRoundTrip(s.value);
      SoulSectionRoundTrip(t.value);
      assert Member(j, SummaryKey) == Some(Str(s.value.summary)) == Some(Str(t.value.summary));
      assert Member(j, NotesKey) == EncodeNotes(s.value.notes) == EncodeNotes(t.value.notes);
      NotesRoundTrip(s.value.notes);
      NotesRoundTrip(t.value.notes);
    }
  }

  lemma FiveBodiesInjective(f: Option<FiveBodies>, g: Option<FiveBodies>)
    requires EncodeFiveBodies(f) == EncodeFiveBodies(g)
    ensures f == g
  {
    if f.Some? && g.Some? {
      var j := EncodeFiveBodies(f);
      assert forall k :: Member(j, k) == FiveBodiesField(f.value, k);
      assert forall k :: Member(j, k) == FiveBodiesField(g.value, k);
      FiveBodiesFieldsInjective(j, f.value, g.value);
    }
  }

  lemma FiveBodiesFieldsInjective(j: Json, f: FiveBodies, g: FiveBodies)
    requires forall k :: Member(j, k) == FiveBodiesField(f, k)
    requires forall k :: Member(j, k) == FiveBodiesField(g, k)
    ensures f == g
  {
    assert Member(j, IdentityKey) == Some(EncodeSectionPointer(f.identity)) == Some(EncodeSectionPointer(g.identity));
    assert Member(j, PhilosophyKey) == Some(EncodeSectionPointer(f.philosophy)) == Some(EncodeSectionPointer(g.philosophy));
    assert Member(j, DisciplineKey) == Some(EncodeSectionPointer(f.discipline)) == Some(EncodeSectionPointer(g.discipline));
    assert Member(j, BoundariesKey) == Some(EncodeSectionPointer(f.boundaries)) == Some(EncodeSectionPointer(g.boundaries));
    assert Member(j, SoulKey) == Some(EncodeSoulPointer(f.soul)) == Some(EncodeSoulPointer(g.soul));
    SectionPointerInjective(f.identity, g.identity);
    SectionPointerInjective(f.philosophy, g.philosophy);
    SectionPointerInjective(f.discipline, g.discipline);
    SectionPointerInjective(f.boundaries, g.boundaries);
    SoulPointerInjective(f.soul, g.soul);
  }

  lemma StructureInjective(d: Document, e: Document)
    requires DocumentField(d, StructureKey) == DocumentField(e, StructureKey)
    ensures d.structure == e.structure
  {
    if d.structure.Some? && e.structure.Some? {
      var s, t := d.structure.value, e.structure.value;
      assert Member(EncodeStructure(s), FiveBodiesKey) == Some(EncodeFiveBodies(s.fiveBodies));
      assert Member(EncodeStructure(t), FiveBodiesKey) == Some(EncodeFiveBodies(t.fiveBodies));
      FiveBodiesInjective(s.fiveBodies, t.fiveBodies);
    }
  }

  lemma EncodeInjective(d: Document, e: Document)
    requires Encode(d) == Encode(e)
    ensures d == e
  {
    var j := Encode(d);
    EncodedMembers(d);
    EncodedMembers(e);
    ScalarMembers(j, d);
    ScalarMembers(j, e);
    StampMembers(j, d);
    StampMembers(j, e);
    assert Member(j, StructureKey) == DocumentField(d, StructureKey) == DocumentField(e, StructureKey);
    StructureInjective(d, e);
    assert Member(j, ProvenanceKey) == DocumentField(d, ProvenanceKey) == DocumentField(e, ProvenanceKey);
    ProvenancePointerRoundTrip(d);
    ProvenancePointerRoundTrip(e);
  }

  // ---- stamping, comparison, validation ----

  function Stamp(d: Document, state: State, soulVersion: int, version: int, subject: string,
                 createdAt: int, updatedAt: int): (r: Document)
  {
    d.(schema := SoulDocumentV2, soulVersion := soulVersion, state := Some(state), updatedBy := Trim(subject),
       createdAt := Some(createdAt), updatedAt := Some(updatedAt), version := version)
  }

  /** The bytes the comparison looks at: schema defaulted, the six server fields cleared. */
  function AuthoringView(d: Document): (r: Document) {
    d.(schema := if d.schema == NoSchema then SoulDocumentV2 else d.schema,
       soulVersion := 0, state := None, updatedBy := "", createdAt := None, updatedAt := None, version := 0)
  }

  /** sameSoulDocumentAuthoringContent: equality of the encodings. */
  predicate SameAuthoring(d: Document, e: Document) {
    Encode(AuthoringView(d)) == Encode(AuthoringView(e))
  }

  function DefaultSchema(s: Schema): Schema { if s == NoSchema then SoulDocumentV2 else s }

  /** The comparison is true exactly when the documents agree outside the six server fields and the defaulted schema. */
  lemma SameAuthoringIff(d: Document, e: Document)
    ensures SameAuthoring(d, e) <==>
      && d.agentId == e.agentId && d.body == e.body && d.summary == e.summary
      && d.structure == e.structure && d.provenance == e.provenance
      && DefaultSchema(d.schema) == DefaultSchema(e.schema)
  {
    if SameAuthoring(d, e) {
      EncodeInjective(AuthoringView(d), AuthoringView(e));
    } else {
      assert AuthoringView(d) != AuthoringView(e);
    }
  }

  /**
   The number of bytes of an encoding and the strings that parse as RFC 3339 times. JSON escaping and time
   parsing are not modelled, so any measure and any predicate will do.
   */
  datatype Limits = Limits(size: Json -> nat, timestamp: string -> bool)

  predicate ValidAgentId(agentId: string) {
    agentId != "" && |agentId| <= MAX_AGENT_ID_RUNES && '|' !in agentId && '=' !in agentId && '/' !in agentId
  }

  predicate ValidProvenance(limits: Limits, p: Provenance) {
    && Trim(p.declarationSchemaVersion) != "" && Trim(p.registrationId) != "" && Trim(p.conversationId) != ""
    && match p.source
       case HostRecovery =>
         && p.classification in {PublishedArtifactVerified, LegacyDeclarationsOnly}
         && Sha256Name(p.migrationRead) && p.producedAt != "" && limits.timestamp(p.producedAt) && p.historicalPublication == Some(false)
         && p.candidateHash == "" && p.model == ""
       case OtherSource(_) => false
       case _ =>
         && Trim(p.model) != "" && Sha256Name(p.candidateHash)
         && p.classification == NoClassification && p.migrationRead == "" && p.producedAt == ""
         && p.historicalPublication.None?
  }

  predicate ValidFiveBodies(f: FiveBodies) {
    && f.identity.Some? && f.philosophy.Some? && f.discipline.Some? && f.boundaries.Some? && f.soul.Some?
    && f.soul.value.refusals.Some? && f.soul.value.refusals.value != []
  }

  predicate ValidSummary(s: string) {
    s != "" && Trimmed(s) && |Utf8.Encode(s)| <= MAX_SUMMARY_BYTES
  }

  predicate ValidAuthoring(limits: Limits, d: Document, expectedAgentId: string) {
    && d.schema in {NoSchema, SoulDocumentV2}
    && ValidAgentId(d.agentId)
    && (Trim(expectedAgentId) != "" ==> d.agentId == Trim(expectedAgentId))
    && d.body != "" && |Utf8.Encode(d.body)| <= MAX_BODY_BYTES
    && (d.summary.Some? ==> ValidSummary(d.summary.value))
    && (d.structure.Some? ==> d.structure.value.fiveBodies.Some? && ValidFiveBodies(d.structure.value.fiveBodies.value))
    && (d.provenance.Some? ==> ValidProvenance(limits, d.provenance.value))
  }

  predicate ServerFieldsStamped(d: Document) {
    && d.schema == SoulDocumentV2 && d.soulVersion >= 1 && d.state.Some? && Trim(d.updatedBy) != ""
    && d.version >= 1 && d.createdAt.Some? && d.updatedAt.Some?
  }

  predicate ServerFieldsClear(d: Document) {
    d.soulVersion == 0 && d.state.None? && d.updatedBy == "" && d.createdAt.None? && d.updatedAt.None? && d.version == 0
  }

  predicate FitsItem(limits: Limits, d: Document) { limits.size(Encode(d)) <= MAX_DOCUMENT_BYTES }

  /** ValidateSoulDocumentDraft. */
  predicate ValidDraft(limits: Limits, d: Document, expectedAgentId: string) {
    ServerFieldsClear(d) && ValidAuthoring(limits, d, expectedAgentId) && FitsItem(limits, d)
  }

  /** ValidateSoulDocumentRecord. */
  predicate ValidRecord(limits: Limits, d: Document, expectedAgentId: string) {
    ValidAuthoring(limits, d, expectedAgentId) && ServerFieldsStamped(d) && FitsItem(limits, d)
  }

  /** Decoding the encoding of any validated document returns that document. */
  lemma ValidRoundTrip(limits: Limits, d: Document, expectedAgentId: string)
    requires ValidDraft(limits, d, expectedAgentId) || ValidRecord(limits, d, expectedAgentId)
    ensures Decode(Encode(d)) == Some(d)
  {
    RoundTrip(d);
  }

  /** Stamping never touches what the author wrote. */
  lemma StampKeepsAuthoring(d: Document, state: State, soulVersion: int, version: int, subject: string,
                            createdAt: int, updatedAt: int)
    requires d.schema in {NoSchema, SoulDocumentV2}
    ensures var stamped := Stamp(d, state, soulVersion, version, subject, createdAt, updatedAt);
      AuthoringView(stamped) == AuthoringView(d) && SameAuthoring(stamped, d)
  {
    SameAuthoringIff(Stamp(d, state, soulVersion, version, subject, createdAt, updatedAt), d);
  }
}
