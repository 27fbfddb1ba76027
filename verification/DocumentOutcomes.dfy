/**
 The JSON form of a soul document member by member, what makes a document unacceptable member by member, and
 the literal form of the storage keys.
 */
module DocumentOutcomes {
  import opened Wrappers
  import opened ContentKeys
  import opened Json
  import opened JsonText
  import opened SoulDocument
  import opened Text
  import ByteText
  import Utf8

  // ---- member names ----

  /** The names as they stand in the JSON text; any other number is some other name. */
  function NameOf(k: Key): string {
    if k == SchemaVersionKey then "schema_version" else if k == AgentIdKey then "agent_id" else if k == BodyKey then "body"
    else if k == SummaryKey then "summary" else if k == SoulVersionKey then "soul_version"
    else if k == LifecycleStateKey then "lifecycle_state" else if k == UpdatedBySubjectIdKey then "updated_by_subject_id"
    else if k == CreatedAtKey then "created_at" else if k == UpdatedAtKey then "updated_at" else if k == VersionKey then "version"
    else NestedNameOf(k)
  }

  function NestedNameOf(k: Key): string {
    if k == StructureKey then "structure" else if k == ProvenanceKey then "provenance" else if k == FiveBodiesKey then "five_bodies"
    else if k == IdentityKey then "identity" else if k == PhilosophyKey then "philosophy" else if k == DisciplineKey then "discipline"
    else if k == BoundariesKey then "boundaries" else if k == SoulKey then "soul" else if k == NotesKey then "notes"
    else if k == RefusalsKey then "refusals" else if k == BypassKey then "bypass" else if k == InvariantKey then "invariant"
    else if k == ClosestSafePathKey then "closestSafePath"
    else ProvenanceNameOf(k)
  }

  function ProvenanceNameOf(k: Key): string {
    if k == DeclarationSchemaVersionKey then "declaration_schema_version" else if k == CandidateHashKey then "declaration_candidate_hash"
    else if k == RegistrationIdKey then "registration_id" else if k == ConversationIdKey then "conversation_id"
    else if k == ModelKey then "model" else if k == SourceKey then "source" else if k == ClassificationKey then "recovery_classification"
    else if k == MigrationReadKey then "migration_read_sha256" else if k == ProducedAtKey then "produced_at"
    else if k == HistoricalPublicationKey then "historical_publication_sha" else ""
  }

  /** The table of lengths that the size of a document is computed with. */
  lemma NamesAreLong(k: Key)
    ensures NameBytes(k) == |NameOf(k)|
  {
  }

  function StateName(state: State): string {
    match state
    case Draft => "draft"
    case Published => "published"
    case Archived => "archived"
  }

  function WordOf(w: Word): string {
    match w
    case SchemaWord(NoSchema) => ""
    case SchemaWord(SoulDocumentV2) => SCHEMA_URL
    case SchemaWord(OtherSchema(name)) => name
    case StateWord(state) => StateName(state)
    case SourceWord(HostGenesisFinalize) => "host_genesis_finalize"
    case SourceWord(HostRecovery) => "host_recovery"
    case SourceWord(PtahSeed) => "ptah_seed"
    case SourceWord(Owner) => "owner"
    case SourceWord(OtherSource(name)) => name
    case ClassificationWord(NoClassification) => ""
    case ClassificationWord(PublishedArtifactVerified) => "published_artifact_verified"
    case ClassificationWord(LegacyDeclarationsOnly) => "legacy_declarations_only"
    case ClassificationWord(OtherClassification(name)) => name
  }

  function HexDigit(d: nat): char
    requires d < 16
  {
    "0123456789abcdef"[d]
  }

  /** One code point between the quotes of a JSON string. */
  function Escaped(c: char): string {
    if c == '"' then "\\\"" else if c == '\\' then "\\\\" else if c == '\n' then "\\n" else if c == '\r' then "\\r"
    else if c == '\t' then "\\t" else if c == '\U{0008}' then "\\b" else if c == '\U{000C}' then "\\f"
    else if c < ' ' || c == '<' || c == '>' || c == '&' || c == '\U{2028}' || c == '\U{2029}' then
      var n := c as int;
      ['\\', 'u', HexDigit(n / 4096 % 16), HexDigit(n / 256 % 16), HexDigit(n / 16 % 16), HexDigit(n % 16)]
    else [c]
  }

  function EscapedText(s: string): string { if s == [] then [] else Escaped(s[0]) + EscapedText(s[1..]) }

  lemma {:induction false} PlainBytes(s: string)
    requires forall c :: c in s ==> c < '\U{0080}'
    ensures |Utf8.Encode(s)| == |s|
  {
    if s != [] {
      assert s[0] in s && forall c :: c in s[1..] ==> c in s;
      PlainBytes(s[1..]);
    }
  }

  lemma HexPlain(d: nat)
    requires d < 16
    ensures HexDigit(d) < '\U{0080}'
  {
  }

  lemma CharIs(c: char)
    ensures CharBytes(c) == |Utf8.Encode(Escaped(c))|
  {
    if Escaped(c) == [c] {
      assert Utf8.Encode([c]) == Utf8.EncodeRune(c);
    } else {
      var n := c as int;
      HexPlain(n / 4096 % 16);
      HexPlain(n / 256 % 16);
      HexPlain(n / 16 % 16);
      HexPlain(n % 16);
      hide HexDigit;
      PlainBytes(Escaped(c));
    }
  }

  /** The length of a text is that of its escaped form in UTF-8. */
  lemma {:induction false} TextIs(s: string)
    ensures TextBytes(s) == |Utf8.Encode(EscapedText(s))|
  {
    hide CharBytes, Escaped, Utf8.EncodeRune;
    if s != [] {
      CharIs(s[0]);
      TextIs(s[1..]);
      ByteText.EncodeConcat(Escaped(s[0]), EscapedText(s[1..]));
    }
  }

  /** The table of lengths of the fixed words; a schema is measured as the text it is. */
  lemma WordsAreLong(w: Word)
    ensures WordBytes(w)
      == if w.SchemaWord? || (w.SourceWord? && w.source.OtherSource?) || (w.ClassificationWord? && w.classification.OtherClassification?)
         then TextBytes(WordOf(w)) else |WordOf(w)|
  {
  }

  // ---- the members of an encoded document ----

  predicate Has(j: Json, k: Key, v: Json) { j.Obj? && k in j.fields && j.fields[k] == v }

  predicate Lacks(j: Json, k: Key) { j.Obj? && k !in j.fields }

  /** A text member that is left out when it is empty. */
  predicate Words(j: Json, k: Key, s: string) { if s == "" then Lacks(j, k) else Has(j, k, Str(s)) }

  predicate Number(j: Json, k: Key, n: int) { if n == 0 then Lacks(j, k) else Has(j, k, Num(n)) }

  predicate Instant(j: Json, k: Key, t: Option<int>) { if t.None? then Lacks(j, k) else Has(j, k, Time(t.value)) }

  predicate IsProvenance(j: Json, p: Provenance) {
    && Has(j, DeclarationSchemaVersionKey, Str(p.declarationSchemaVersion)) && Words(j, CandidateHashKey, p.candidateHash)
    && Has(j, RegistrationIdKey, Str(p.registrationId)) && Has(j, ConversationIdKey, Str(p.conversationId))
    && Words(j, ModelKey, p.model) && Has(j, SourceKey, Fixed(SourceWord(p.source)))
    && (if p.classification == NoClassification then Lacks(j, ClassificationKey)
        else Has(j, ClassificationKey, Fixed(ClassificationWord(p.classification))))
    && Words(j, MigrationReadKey, p.migrationRead) && Words(j, ProducedAtKey, p.producedAt)
    && (if p.historicalPublication.None? then Lacks(j, HistoricalPublicationKey)
        else Has(j, HistoricalPublicationKey, Bool(p.historicalPublication.value)))
  }

  /** Absent notes are left out, empty notes are an empty list. */
  ghost predicate IsNotes(j: Json, notes: Option<seq<string>>) {
    if notes.None? then Lacks(j, NotesKey)
    else exists items :: Has(j, NotesKey, Arr(items)) && |items| == |notes.value|
                         && forall i :: 0 <= i < |items| ==> items[i] == Str(notes.value[i])
  }

  ghost predicate IsSection(j: Json, s: Option<Section>) {
    if s.None? then j == Null else Has(j, SummaryKey, Str(s.value.summary)) && IsNotes(j, s.value.notes)
  }

  predicate IsRefusal(j: Json, r: Refusal) {
    && Has(j, BypassKey, Str(r.bypass)) && Has(j, InvariantKey, Str(r.invariant_))
    && Has(j, ClosestSafePathKey, Str(r.closestSafePath))
  }

  ghost predicate IsRefusals(j: Json, refusals: seq<Refusal>) {
    exists items :: Has(j, RefusalsKey, Arr(items)) && |items| == |refusals|
                    && forall i :: 0 <= i < |items| ==> IsRefusal(items[i], refusals[i])
  }

  ghost predicate IsSoul(j: Json, s: Option<SoulSection>) {
    if s.None? then j == Null
    else
      && Has(j, SummaryKey, Str(s.value.summary)) && IsNotes(j, s.value.notes)
      && if s.value.refusals.None? then Has(j, RefusalsKey, Null) else IsRefusals(j, s.value.refusals.value)
  }

  ghost predicate IsFiveBodies(j: Json, f: Option<FiveBodies>) {
    if f.None? then j == Null
    else
      && j.Obj? && {IdentityKey, PhilosophyKey, DisciplineKey, BoundariesKey, SoulKey} <= j.fields.Keys
      && IsSection(j.fields[IdentityKey], f.value.identity) && IsSection(j.fields[PhilosophyKey], f.value.philosophy)
      && IsSection(j.fields[DisciplineKey], f.value.discipline) && IsSection(j.fields[BoundariesKey], f.value.boundaries)
      && IsSoul(j.fields[SoulKey], f.value.soul)
  }

  ghost predicate IsStructure(j: Json, s: Structure) {
    j.Obj? && FiveBodiesKey in j.fields && IsFiveBodies(j.fields[FiveBodiesKey], s.fiveBodies)
  }

  predicate IsScalars(j: Json, d: Document) {
    && (if d.schema == NoSchema then Lacks(j, SchemaVersionKey) else Has(j, SchemaVersionKey, Fixed(SchemaWord(d.schema))))
    && Has(j, AgentIdKey, Str(d.agentId)) && Has(j, BodyKey, Str(d.body))
    && (if d.summary.None? then Lacks(j, SummaryKey) else Has(j, SummaryKey, Str(d.summary.value)))
    && Number(j, SoulVersionKey, d.soulVersion) && Number(j, VersionKey, d.version)
    && (if d.state.None? then Lacks(j, LifecycleStateKey) else Has(j, LifecycleStateKey, Fixed(StateWord(d.state.value))))
    && Words(j, UpdatedBySubjectIdKey, d.updatedBy)
    && Instant(j, CreatedAtKey, d.createdAt) && Instant(j, UpdatedAtKey, d.updatedAt)
  }

  ghost predicate IsDocument(j: Json, d: Document) {
    && IsScalars(j, d)
    && (if d.structure.None? then Lacks(j, StructureKey)
        else StructureKey in j.fields && IsStructure(j.fields[StructureKey], d.structure.value))
    && (if d.provenance.None? then Lacks(j, ProvenanceKey)
        else ProvenanceKey in j.fields && IsProvenance(j.fields[ProvenanceKey], d.provenance.value))
    && (forall k :: k in j.fields ==> 1 <= k <= 12)
  }

  /** A member as the function of its object gives it. */
  lemma At(j: Json, k: Key, field: Option<Json>)
    requires j.Obj? && Member(j, k) == field
    ensures if field.None? then Lacks(j, k) else Has(j, k, field.value)
  {
  }

  lemma ProvenanceFields(j: Json, p: Provenance)
    requires j.Obj? && forall k :: Member(j, k) == ProvenanceField(p, k)
    ensures IsProvenance(j, p)
  {
    hide Member, Has, Lacks;
    At(j, DeclarationSchemaVersionKey, ProvenanceField(p, DeclarationSchemaVersionKey));
    At(j, CandidateHashKey, ProvenanceField(p, CandidateHashKey));
    At(j, RegistrationIdKey, ProvenanceField(p, RegistrationIdKey));
    At(j, ConversationIdKey, ProvenanceField(p, ConversationIdKey));
    At(j, ModelKey, ProvenanceField(p, ModelKey));
    At(j, SourceKey, ProvenanceField(p, SourceKey));
    At(j, ClassificationKey, ProvenanceField(p, ClassificationKey));
    At(j, MigrationReadKey, ProvenanceField(p, MigrationReadKey));
    At(j, ProducedAtKey, ProvenanceField(p, ProducedAtKey));
    At(j, HistoricalPublicationKey, ProvenanceField(p, HistoricalPublicationKey));
  }

  lemma ProvenanceIs(p: Provenance)
    ensures IsProvenance(EncodeProvenance(p), p)
  {
    hide IsProvenance;
    ProvenanceFields(EncodeProvenance(p), p);
  }

  lemma SectionIs(s: Option<Section>)
    ensures IsSection(EncodeSectionPointer(s), s)
  {
    if s.Some? {
      var j := EncodeSection(s.value);
      At(j, SummaryKey, SectionField(s.value, SummaryKey));
      At(j, NotesKey, SectionField(s.value, NotesKey));
      NotesAre(j, s.value.notes);
    }
  }

  lemma NotesAre(j: Json, notes: Option<seq<string>>)
    requires if notes.None? then Lacks(j, NotesKey) else Has(j, NotesKey, EncodeStrings(notes.value))
    ensures IsNotes(j, notes)
  {
    if notes.Some? {
      var items := EncodeStrings(notes.value).items;
      assert Has(j, NotesKey, Arr(items));
    }
  }

  lemma RefusalIs(r: Refusal)
    ensures IsRefusal(EncodeRefusal(r), r)
  {
    var j := EncodeRefusal(r);
    At(j, BypassKey, RefusalField(r, BypassKey));
    At(j, InvariantKey, RefusalField(r, InvariantKey));
    At(j, ClosestSafePathKey, RefusalField(r, ClosestSafePathKey));
  }

  lemma SoulIs(s: Option<SoulSection>)
    ensures IsSoul(EncodeSoulPointer(s), s)
  {
    if s.Some? {
      var j := EncodeSoulSection(s.value);
      At(j, SummaryKey, SoulSectionField(s.value, SummaryKey));
      At(j, NotesKey, SoulSectionField(s.value, NotesKey));
      At(j, RefusalsKey, SoulSectionField(s.value, RefusalsKey));
      NotesAre(j, s.value.notes);
      if s.value.refusals.Some? {
        RefusalsAre(j, s.value.refusals.value);
      }
    }
  }

  lemma RefusalsAre(j: Json, refusals: seq<Refusal>)
    requires Has(j, RefusalsKey, EncodeRefusals(Some(refusals)))
    ensures IsRefusals(j, refusals)
  {
    hide IsRefusal, EncodeRefusal;
    var items := EncodeRefusals(Some(refusals)).items;
    forall i | 0 <= i < |items| ensures IsRefusal(items[i], refusals[i]) {
      RefusalIs(refusals[i]);
    }
    assert Has(j, RefusalsKey, Arr(items));
  }

  lemma FiveBodiesFields(j: Json, f: FiveBodies)
    requires j.Obj? && forall k :: Member(j, k) == FiveBodiesField(f, k)
    ensures IsFiveBodies(j, Some(f))
  {
    hide EncodeSectionPointer, EncodeSoulPointer, IsSection, IsSoul;
    assert Member(j, IdentityKey) == Some(EncodeSectionPointer(f.identity));
    assert Member(j, PhilosophyKey) == Some(EncodeSectionPointer(f.philosophy));
    assert Member(j, DisciplineKey) == Some(EncodeSectionPointer(f.discipline));
    assert Member(j, BoundariesKey) == Some(EncodeSectionPointer(f.boundaries));
    assert Member(j, SoulKey) == Some(EncodeSoulPointer(f.soul));
    SectionIs(f.identity);
    SectionIs(f.philosophy);
    SectionIs(f.discipline);
    SectionIs(f.boundaries);
    SoulIs(f.soul);
  }

  lemma FiveBodiesIs(f: Option<FiveBodies>)
    ensures IsFiveBodies(EncodeFiveBodies(f), f)
  {
    hide IsFiveBodies;
    if f.Some? {
      FiveBodiesFields(EncodeFiveBodies(f), f.value);
    } else {
      NoFiveBodies();
    }
  }

  lemma NoFiveBodies()
    ensures IsFiveBodies(Null, None)
  {
  }

  lemma ScalarsAre(j: Json, d: Document)
    requires j.Obj? && forall k :: Member(j, k) == DocumentField(d, k)
    ensures IsScalars(j, d)
  {
    hide Member, Has, Lacks;
    At(j, SchemaVersionKey, DocumentField(d, SchemaVersionKey));
    At(j, AgentIdKey, DocumentField(d, AgentIdKey));
    At(j, BodyKey, DocumentField(d, BodyKey));
    At(j, SummaryKey, DocumentField(d, SummaryKey));
    At(j, SoulVersionKey, DocumentField(d, SoulVersionKey));
    At(j, LifecycleStateKey, DocumentField(d, LifecycleStateKey));
    At(j, UpdatedBySubjectIdKey, DocumentField(d, UpdatedBySubjectIdKey));
    At(j, CreatedAtKey, DocumentField(d, CreatedAtKey));
    At(j, UpdatedAtKey, DocumentField(d, UpdatedAtKey));
    At(j, VersionKey, DocumentField(d, VersionKey));
  }

  lemma StructureIs(s: Structure)
    ensures IsStructure(EncodeStructure(s), s)
  {
    hide EncodeFiveBodies, IsFiveBodies;
    assert Member(EncodeStructure(s), FiveBodiesKey) == Some(EncodeFiveBodies(s.fiveBodies));
    FiveBodiesIs(s.fiveBodies);
  }

  /** Every member of an encoded document is the one of its name, and there are no others. */
  lemma EncodeIs(d: Document)
    ensures IsDocument(Encode(d), d)
  {
    hide EncodeStructure, EncodeProvenance, IsScalars, IsStructure, IsProvenance;
    var j := Encode(d);
    EncodedMembers(d);
    ScalarsAre(j, d);
    assert Member(j, StructureKey) == DocumentField(d, StructureKey) && Member(j, ProvenanceKey) == DocumentField(d, ProvenanceKey);
    if d.structure.Some? {
      StructureIs(d.structure.value);
    }
    if d.provenance.Some? {
      ProvenanceIs(d.provenance.value);
    }
  }

  // ---- what the decoder refuses ----

  /** An object with these members and no others, none of them null. */
  predicate Strict(j: Json, required: set<Key>, allowed: set<Key>) {
    && j.Obj? && (forall k :: k in j.fields ==> k in allowed && j.fields[k] != Null)
    && forall k :: k in required ==> k in j.fields
  }

  ghost predicate StrictSections(j: Json) {
    && j.Obj?
    && (forall k :: k in j.fields && j.fields[k] != Null && k != SoulKey ==> Strict(j.fields[k], {SummaryKey}, {SummaryKey, NotesKey}))
    && (SoulKey in j.fields && j.fields[SoulKey] != Null ==>
          && Strict(j.fields[SoulKey], {SummaryKey, RefusalsKey}, {SummaryKey, NotesKey, RefusalsKey})
          && j.fields[SoulKey].fields[RefusalsKey].Arr?)
  }

  /** Only closed objects are read: nothing unknown, nothing null, an agent id and a body, and sections in their own form. */
  lemma DecodeStrict(j: Json)
    requires Decode(j).Some?
    ensures Strict(j, {AgentIdKey, BodyKey}, {1, 2, 3, 4, 5, 6, 7, 8, 9, 10, 11, 12})
    ensures j.fields[AgentIdKey] == Str(Decode(j).value.agentId) && j.fields[BodyKey] == Str(Decode(j).value.body)
    ensures StructureKey in j.fields ==>
      && j.fields[StructureKey].Obj? && (forall k :: k in j.fields[StructureKey].fields ==> k == FiveBodiesKey)
      && (FiveBodiesKey in j.fields[StructureKey].fields && j.fields[StructureKey].fields[FiveBodiesKey] != Null ==>
            StrictSections(j.fields[StructureKey].fields[FiveBodiesKey]))
  {
    hide DecodeStructure, DecodeProvenance;
    if StructureKey in j.fields {
      StructureStrict(j.fields[StructureKey]);
    }
  }

  lemma StructureStrict(j: Json)
    requires DecodeStructure(j).Some?
    ensures j.Obj? && (forall k :: k in j.fields ==> k == FiveBodiesKey)
    ensures FiveBodiesKey in j.fields && j.fields[FiveBodiesKey] != Null ==>
      StrictSections(j.fields[FiveBodiesKey])
  {
    hide DecodeFiveBodies, StrictSections;
    if FiveBodiesKey in j.fields && j.fields[FiveBodiesKey] != Null {
      FiveBodiesStrict(j.fields[FiveBodiesKey]);
    }
  }

  lemma FiveBodiesStrict(j: Json)
    requires DecodeFiveBodies(j).Some?
    ensures StrictSections(j)
  {
    hide DecodeSection, DecodeSoulSection, Strict;
    forall k | k in j.fields && j.fields[k] != Null && k != SoulKey ensures Strict(j.fields[k], {SummaryKey}, {SummaryKey, NotesKey}) {
      assert k in FIVE_BODIES_KEYS;
      SectionStrict(j.fields[k]);
    }
    if SoulKey in j.fields && j.fields[SoulKey] != Null {
      SoulStrict(j.fields[SoulKey]);
    }
  }

  lemma SoulStrict(j: Json)
    requires DecodeSoulSection(j).Some?
    ensures Strict(j, {SummaryKey, RefusalsKey}, {SummaryKey, NotesKey, RefusalsKey}) && j.fields[RefusalsKey].Arr?
  {
    hide DecodeNotes;
  }

  lemma SectionStrict(j: Json)
    requires DecodeSection(j).Some?
    ensures Strict(j, {SummaryKey}, {SummaryKey, NotesKey})
  {
    hide DecodeNotes;
  }

  // ---- what makes a document unacceptable, one member at a time ----

  /** Any other body for an accepted document: not empty, 48 KiB, and the document still fits. */
  lemma BodyIff(limits: Limits, d: Document, agentId: string, body: string)
    requires ValidDraft(limits, d, agentId)
    ensures var e := d.(body := body);
      ValidDraft(limits, e, agentId)
      <==> body != "" && |Utf8.Encode(body)| <= 49_152 && limits.size(Encode(e)) <= 307_200
  {
    hide Utf8.Encode, Encode, ValidAgentId, ValidSummary, ValidFiveBodies, ValidProvenance, Trim;
  }

  lemma SummaryIff(limits: Limits, d: Document, agentId: string, summary: Option<string>)
    requires ValidDraft(limits, d, agentId)
    ensures var e := d.(summary := summary);
      ValidDraft(limits, e, agentId)
      <==> limits.size(Encode(e)) <= 307_200
           && (summary.Some? ==> summary.value != "" && Trim(summary.value) == summary.value && |Utf8.Encode(summary.value)| <= 2_048)
  {
    hide Utf8.Encode, Encode, ValidAgentId, ValidFiveBodies, ValidProvenance;
    hide Trim;
  }

  /** A selector fixes the agent id; without one, it is 1 to 128 characters, none of them a separator. */
  lemma AgentIdIff(limits: Limits, d: Document, agentId: string)
    requires ValidDraft(limits, d, "")
    ensures var e := d.(agentId := agentId);
      && (ValidDraft(limits, e, "")
          <==> 1 <= |agentId| <= 128 && (forall c :: c in agentId ==> c != '|' && c != '=' && c != '/')
               && limits.size(Encode(e)) <= 307_200)
      && forall selector :: ValidDraft(limits, d, selector) <==> Trim(selector) == "" || Trim(selector) == d.agentId
  {
    hide Utf8.Encode, Encode, ValidSummary, ValidFiveBodies, ValidProvenance;
    BlankTrims();
    hide Trim;
  }

  lemma BlankTrims()
    ensures Trim("") == ""
  {
  }

  /** All five bodies, and at least one refusal in the soul. */
  lemma StructureIff(limits: Limits, d: Document, agentId: string, structure: Option<Structure>)
    requires ValidDraft(limits, d, agentId)
    ensures var e := d.(structure := structure);
      ValidDraft(limits, e, agentId)
      <==> limits.size(Encode(e)) <= 307_200
           && (structure.Some? ==>
                 && structure.value.fiveBodies.Some?
                 && var f := structure.value.fiveBodies.value;
                   && f.identity.Some? && f.philosophy.Some? && f.discipline.Some? && f.boundaries.Some? && f.soul.Some?
                   && f.soul.value.refusals.Some? && |f.soul.value.refusals.value| >= 1)
  {
    hide Utf8.Encode, Encode, ValidAgentId, ValidSummary, ValidProvenance, Trim;
  }

  /** A recovery carries its evidence and no authoring model; every other source the other way round. */
  lemma ProvenanceIff(limits: Limits, d: Document, agentId: string, p: Provenance)
    requires ValidDraft(limits, d, agentId)
    ensures var e := d.(provenance := Some(p));
      ValidDraft(limits, e, agentId)
      <==> && limits.size(Encode(e)) <= 307_200
           && Trim(p.declarationSchemaVersion) != "" && Trim(p.registrationId) != "" && Trim(p.conversationId) != ""
           && (p.source == HostRecovery ==>
                 && (p.classification == PublishedArtifactVerified || p.classification == LegacyDeclarationsOnly)
                 && Sha256Name(p.migrationRead) && p.producedAt != "" && limits.timestamp(p.producedAt)
                 && p.historicalPublication == Some(false) && p.candidateHash == "" && p.model == "")
           && (p.source != HostRecovery ==>
                 && (p.source == HostGenesisFinalize || p.source == PtahSeed || p.source == Owner)
                 && Trim(p.model) != "" && Sha256Name(p.candidateHash) && p.classification == NoClassification
                 && p.migrationRead == "" && p.producedAt == "" && p.historicalPublication == None)
  {
    hide Utf8.Encode, Encode, ValidAgentId, ValidSummary, ValidFiveBodies, Trim, Sha256Name;
  }

  // ---- storage keys ----

  lemma PartitionKeyIs(f: CaseMap, account: string, agentId: string)
    requires Trim(account) != "" && Trim(agentId) != ""
    ensures PartitionKey(f, account, agentId) == "ACCOUNT#" + (ToLower(f, Trim(account)) + "#AGENT#" + Trim(agentId))
  {
    hide Trim, ToLower;
    assert |ToLower(f, Trim(account))| == |Trim(account)|;
  }

  lemma SortKeysAre(soulVersion: nat, state: State)
    requires soulVersion >= 1
    ensures CurrentKey(AgentSoul) == "CONTENT#" + "agent_soul" && CurrentKey(AgentInstructions) == "CONTENT#" + "agent_instructions"
    ensures HistoryKey(soulVersion, state)
      == "CONTENT#" + "agent_soul" + ("#HISTORY#" + (Padded(soulVersion, 20) + ("#" + StateName(state))))
  {
    hide Padded;
  }

  /** The number a numeral stands for, first digit first. */
  function NumberOf(s: string): int {
    if s == [] then 0 else 10 * NumberOf(s[..|s| - 1]) + (s[|s| - 1] as int - '0' as int)
  }

  lemma {:induction false} PaddedReads(n: nat, w: nat)
    requires n < Pow10(w)
    ensures NumberOf(Padded(n, w)) == n
  {
    if w > 0 {
      PaddedReads(n / 10, w - 1);
      assert Padded(n, w)[..w - 1] == Padded(n / 10, w - 1);
    }
  }

  lemma {:induction false} DecimalReads(n: nat)
    ensures NumberOf(Decimal(n)) == n
  {
    if n >= 10 {
      DecimalReads(n / 10);
      assert Decimal(n)[..|Decimal(n)| - 1] == Decimal(n / 10);
    }
  }
}
