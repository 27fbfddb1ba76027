# Verification of the instance-plane stores, packs and sessions

This project models the parts of lesser-body that decide over shared state, and proves what they promise.
`dafny verify dfyconfig.toml` checks all of it.

Four components share one pattern: a table with conditional writes, and calls broken into single database
steps that interleave arbitrarily. Their results are stated over every list of events from an initial
state, so over every run.

- **Soul documents** (`agentcontent`). `SoulDocument.dfy` has the documents, their codec and comparison;
  `SoulRows.dfy` the rows, the two-item transaction and the sequential meaning of one write;
  `SoulMachine.dfy` the operations as a step machine; `SoulStore.dfy` the retry loops, proved equal to that
  machine over a database with arbitrary answers. `SoulWorld.dfy` lets any number of calls race on one
  record, with stale reads, lost replies and crashes. `SoulHistory.dfy`, `SoulOutcomes.dfy`,
  `SoulProgress.dfy`, `SoulSeeds.dfy` and `SeedLimits.dfy` hold the results, `SoulAlone.dfy` what each call does
  to a row when nobody disturbs it. `JsonText.dfy` has the length of a document's JSON text, `DocumentOutcomes.dfy`
  its members and what makes a document unacceptable. `ContentKeys.dfy` shows that the abstract history key (soul
  version, state) stands for exactly one sort key.
- **Instructions** (`agentcontent`). `Instructions.dfy` has the operations on the other content type, whose
  writes are single conditional updates, `InstructionsWorld.dfy` their interleaving and `InstructionsReplies.dfy`
  what their replies say.
- **Download grants** (`downloadgrant`). `DownloadGrant.dfy` has bindings, time and classification;
  `GrantWorld.dfy` the interleaving of issuers and consumers and the sequential store; `GrantOutcomes.dfy` says
  what that store does on the fields presented and stored.
- **Agent registry** (`agentregistry`, `actorendpoint`). `AgentRegistry.dfy` and `RegistryWorld.dfy`;
  `RegistryOutcomes.dfy` has the columns that a call changes.

The others are algorithms and pipelines: the mint limiter (`MintLimiter.dfy`), pack ids (`PackId.dfy`, on the byte strings of `ByteText.dfy`),
server names (`ServerName.dfy`), rendering (`InstallPack.dfy`) and the independent canary verifier
(`PackVerifier.dfy`), with what a pack holds and is called (`PackOutcomes.dfy`), plan to redemption
(`Redemption.dfy`, field by field in `RedemptionOutcomes.dfy`) and whole sequences of issues and redemption
requests (`RedemptionRuns.dfy`), OAuth session recovery (`SessionRecovery.dfy`, header by
header in `SessionOutcomes.dfy`) and batched draft hydration (`DraftHydration.dfy`).

Most operations are proved twice: the code against the functions that specify it, and these functions against
a description of the outcome in plain fields, so that neither could be wrong in the same way unnoticed. Small
lemmas do the same for the tables and text functions below them: `DocumentOutcomes.NamesAreLong`,
`DocumentOutcomes.WordsAreLong`, `DocumentOutcomes.PartitionKeyIs`, `DocumentOutcomes.SortKeysAre`,
`DocumentOutcomes.DecimalReads`, `Base64Url.SymbolIs`, `PackOutcomes.PathSafeIff`, `PackVerifier.LastOfIs`,
`SoulStore.FailedReads`, `Text.TrimIs` and `Text.SplitRejoins`.

## Assumptions

- A conditional create fails when its key exists, a conditional update when its condition does not hold,
  and a transaction applies both items or neither. A transaction that is answered with a condition failure
  was not applied; one that ends in any other error may have been.
- The soul results use the codec and validators of a record only through `SoulRows.Lawful`, which
  `SoulRows.SoulScopeLawful` proves for the real ones. The record starts absent, or as a legacy row that
  loads. Reads of the soul row may return any earlier committed state, because `loadRecord` does not ask for
  consistent reads; `SoulProgress`, `SoulSeeds.ReplayConverges` and `SeedLimits.SeedCompletesIff` say where they
  assume consistent ones.
- Lower-casing and case folding are any code-point map that is ASCII-correct, idempotent and keeps white
  space apart (`Text.LawAt`). Hashes are functions, injective only where a lemma says so. JSON marshalling
  of pack manifests is undone by parsing.
- The MCP runtime rejects a request whose session is not live before it dispatches it.

## What is not as one might expect

Each of these is a property the code does not have on all inputs, with the condition under which it has it.

- A grant issued between the two steps of a consume that presents it is reported as a binding mismatch;
  with consistent reads that is the only way to the last return of the classifier
  (`GrantWorld.LateIssueMisreported`, `GrantWorld.FallsThroughIff`), and it is closed when every grant is issued
  before it is presented (`GrantWorld.OrderlyTruthful`).
- A consume that was refused as expired is reported as a replay exactly when a client with an earlier clock
  consumed the grant before the classifying read (`GrantWorld.FailuresExplained`,
  `GrantWorld.ExpiredReportedAsReplay`).
- A seed publishes an accepted declaration exactly when both of its stamped forms fit the size limit
  (`SeedLimits.SeedCompletesIff`). A declaration whose draft fits and whose published form does not is seeded as
  a draft and never published, however often the seed is repeated (`SeedLimits.DraftForEver`). By the JSON text
  that is so exactly when the draft comes within three bytes of the limit (`SeedLimits.StuckIff`), and for every
  author there is such a declaration (`SeedLimits.StuckExists`).
- An archive of instructions does not raise the record version, so an upsert that read the row before it still
  commits over it, and both are confirmed (`InstructionsWorld.ArchiveOverriddenUnseen`). An archive stands exactly
  as long as no content is written after it (`InstructionsWorld.ArchiveSurvivesIff`), and a single step ends it
  exactly when it sends an upsert based on the archived version (`InstructionsWorld.SurvivesStepIff`).
- The redeemed pack is the planned pack, with the checksum that was announced, exactly when the trimmed local
  id is its own lower case, because the binding lower-cases it (`Redemption.RedemptionExact`,
  `Redemption.RedeemedZip`).
- A redeemed pack names the digest of the plan. That is the digest of what it contains exactly when the content
  is still that of the plan and the actor is its own lower case (`Redemption.DigestDescribesIff`); a soul that was
  rewritten in between is always delivered under the old digest (`Redemption.RewrittenUndetected`).
- The canary refuses a pack with an empty file, since a recorded size of zero counts as missing
  (`PackVerifier.VerifierAgrees`).
- With a clock that can run backwards, by however little, the limiter can admit more than its limit into one
  window, except when the limit is one (`MintLog.BoundedIff`).
- A request can be dispatched twice by the session recovery exactly when the answer to it imitates the
  session-not-found response and the session offered next is alive at the replay (`SessionRecovery.TwiceIff`,
  `SessionRecovery.DoubleDispatch`).
- A document whose refusals are a nil slice does not decode from its own encoding; validation excludes it
  (`SoulDocument.RoundTrip`).
- Creating a row and updating a blank one agree except for a recovery with a negative published version, which
  validation accepts (`AgentRegistry.CreateAgreesWithUpdate`, `AgentRegistry.NegativeAccepted`).
- An accepted pack id is the one that its own agent id and client build exactly when it is trimmed, its payload
  has no line break and no spare bit set, and the decoded id is trimmed (`PackId.RebuiltIff`); otherwise two pack
  ids stand for one agent (`PackId.Aliases`). The id it carries need not be text (`PackId.NoText`).

## Model

| member | source | states |
|---|---|---|
| SoulHistory.VersionsCountHistory | internal/agentcontent/store.go:333-425 | over every interleaving from an absent or legacy row, Version counts the history rows and SoulVersion the draft rows, both offset by the start, and every soul version is draft, published, archived at consecutive record versions with the same content |
| SoulHistory.EveryRowLoads | internal/agentcontent/store.go:870-941 | toRecord accepts the current row and every history row of every reachable table, and the columns agree with the embedded document |
| SoulHistory.RunGrows | internal/agentcontent/store.go:972-992 | the commit log is append-only and no run rewrites or drops a history row |
| SoulHistory.Linearizable | internal/agentcontent/store.go:337-424 | with stale reads allowed, the stored row is the committed operations applied one after the other in commit order |
| SoulHistory.LifecycleHolds | internal/agentcontent/store.go:723-801 | in the history table a published version has its draft and an archived one its published row, one record version before, with the same content |
| SoulWorld.Safety | internal/agentcontent/store.go:333-425 | the invariant of the race holds in every reachable state, whatever reads returned and whoever crashed |
| SoulWorld.ExecInv | internal/agentcontent/store.go:723-801 | every single step keeps that invariant |
| SoulWorld.CommitIff | internal/agentcontent/store.go:380-420 | a transaction commits exactly when the row its client loaded is still the stored one, and then stores the specified row and its history row |
| SoulWorld.NextKeyFree | internal/agentcontent/store.go:1104-1110 | the history key of the next commit is free in every reachable state, so a history collision is impossible |
| SoulWorld.RankIncreases | internal/agentcontent/store.go:756-790 | three times the soul version plus the lifecycle position strictly increases along commits |
| SoulWorld.SnapSound | internal/agentcontent/store.go:374-399 | every committed row loads, and its record version is its position in the log |
| SoulWorld.ExecSteps | internal/agentcontent/store.go:333-425 | every event starts a call, lets one call learn one answer with at most one commit, or does nothing |
| SoulWorld.BoundByRead | internal/agentcontent/store.go:533-546 | a seed bound to a version it compared is bound to its content: no other committed row has that version |
| SoulOutcomes.Replies | internal/agentcontent/store.go:333-425 | what a finished call may conclude: its record is one committed state, an upsert committed exactly once, a seed created at most one draft and published at most once, and a conflict or refusal committed nothing but a seed's draft |
| SoulOutcomes.SeedCreatesOnce | internal/agentcontent/store.go:504-515 | a seed that has created the draft never creates another one |
| SoulProgress.ExhaustedByOthers | internal/agentcontent/store.go:337-424 | with consistent reads, running out of attempts means at least three commits by other clients during the call |
| SoulProgress.ReadsOwnWrites | internal/agentcontent/store.go:388-391 | with consistent reads a returned record is not older than any write of the call itself |
| SoulSeeds.SeedsNeverOverwrite | internal/agentcontent/store.go:482-558 | under any interleaving a seed creates only from absence and publishes only a draft with its own content, and what it publishes is that content |
| SoulSeeds.SeedStates | internal/agentcontent/store.go:482-558 | seeds of one declaration, however crashed and interleaved, leave it absent, drafted or published |
| SoulSeeds.ReplayConverges | internal/agentcontent/store.go:482-558 | after any crashed seeds one uninterrupted seed ends at Version 2, SoulVersion 1, published, in the row an uninterrupted first creator would have left; it is refused exactly when that creator would be, and then it published nothing (SeedLimits says when that is) |
| SoulSeeds.DrivePublish | internal/agentcontent/store.go:530-546 | from a matching draft an undisturbed seed publishes it, or refuses when the published form is not valid |
| SeedLimits.OutcomeIff | internal/agentcontent/store.go:482-558 | an accepted declaration can be seeded all the way exactly when its draft form (soul version 1, record version 1) and its published form (1, 2) both fit the size limit |
| SeedLimits.SeedsFit | internal/agentcontent/store.go:482-558 | however seeds of one declaration crash and interleave, a draft is stored only when it fits and a published row only when both forms fit |
| SeedLimits.SeedCompletesIff | internal/agentcontent/store.go:482-558 | after any crashed seeds one uninterrupted seed publishes exactly when both forms fit; otherwise it is refused and leaves the draft if that fits, or nothing |
| SeedLimits.DraftForEver | internal/agentcontent/soul_document.go:546-569 | for every measure, declaration and authors for whom the draft fits and the published form does not: no run of seeds publishes it, and every complete seed fails on the draft |
| SeedLimits.StuckIff | internal/agentcontent/soul_document.go:546-555 | measured by the JSON text, both forms fit exactly when the draft is at least four bytes under the limit, and a seed is stuck exactly within the last three bytes and at the limit |
| SeedLimits.StuckExists | internal/agentcontent/soul_document.go:546-555 | for every author with a subject of at most 2000 bytes there is an accepted declaration that is stuck at every instant |
| JsonText.PublishedLonger | internal/agentcontent/soul_document.go:546-641 | the published form of any document is four bytes of JSON text longer than its draft |
| SoulRows.SoulScopeLawful | internal/agentcontent/soul_document.go:312-327 | the real codec, validators and comparison meet the laws that the other results use |
| SoulRows.NextRowSound | internal/agentcontent/store.go:341-413 | every specified write yields a row that loads, with the next record version, ranking above its source |
| SoulRows.TransitionKeepsAuthoring | internal/agentcontent/store.go:758-766 | publishing and archiving keep everything the author wrote |
| SoulClients.NextWellFormed | internal/agentcontent/store.go:333-425 | no answer takes a call out of its loop, past its attempts, or to a write that was not validated |
| SoulClients.NextBound | internal/agentcontent/store.go:533-546 | a seed's publish is bound only to the row just read and compared, and a write is built from the row just read |
| SoulClients.NextBudget | internal/agentcontent/store.go:488-557 | every answer uses up part of a bounded budget of database operations |
| SoulStore.CallsEnd | internal/agentcontent/store.go:333-425 | whatever the database answers, an upsert, publish or archive ends within 7 operations, a seed within 30, a draft seed within 2 |
| SoulStore.ThreeConflicts | internal/agentcontent/store.go:337-424 | whatever the database answers, an upsert, publish or archive reports exhaustion exactly when its third transaction has failed its condition |
| SoulStore.ConflictRetries | internal/agentcontent/store.go:394-424 | after a failed condition a call reads the row again or reports exhaustion, and the draft seed always reads |
| SoulStore.RetriesAlike | internal/agentcontent/store.go:337-424 | what a call decides on a row it has read does not depend on the attempts before |
| SoulStore.ReadBackAlike | internal/agentcontent/store.go:504-546 | a seed goes on from the row it reads back after a create as from any row |
| SoulStore.ConflictStaysInside | internal/agentcontent/store.go:533-557 | whatever the database answers, no call ends because the row it compared has changed: a seed goes round again |
| SoulAlone.UpsertAlone | internal/agentcontent/store.go:333-425 | from every reachable world, absent, legacy, draft, published or archived: an undisturbed upsert commits exactly one draft with the authored content at the successor versions and replies with it, and is refused, writing nothing, exactly for an unacceptable subject, declaration or stamped draft |
| SoulAlone.MoveAlone | internal/agentcontent/store.go:723-801 | from every reachable world: an undisturbed publish or archive makes one commit and replies with the moved record from the state before its target, replies with the very record and writes nothing in the target state, and is refused for each other reason |
| SoulAlone.MoveTwice | internal/agentcontent/store.go:461-476 | doing it twice is doing it once: the second publish or archive writes nothing and replies with the same record |
| SoulAlone.SeedAlone | internal/agentcontent/store.go:482-558 | from every reachable world: what an undisturbed seed commits and replies, for an absent, legacy, different, draft, published and archived row, and what it leaves when one of its two forms is refused |
| SoulAlone.SeedDraftAlone | internal/agentcontent/store.go:563-592 | the same for the draft seed, created told apart from found |
| SoulAlone.AcceptableIff | internal/agentcontent/soul_document.go:329-544 | an accepted declaration is refused in its stamped forms exactly for their encoded size |
| SoulStore.Store.UpsertSoul | internal/agentcontent/store.go:333-425 | the retry loop is the step machine: same transactions, same order, same reply; what an undisturbed upsert does is SoulAlone.UpsertAlone, what interference does to it SoulOutcomes.Replies and SoulStore.ThreeConflicts |
| SoulStore.Store.TransitionSoul | internal/agentcontent/store.go:723-801 | the same for publish and archive, with the conflict told apart for the enclosing seed; an undisturbed one is SoulAlone.MoveAlone |
| SoulStore.Store.Transit | internal/agentcontent/store.go:464-476 | Publish and Archive of agent_soul as that machine; undisturbed they are SoulAlone.MoveAlone, and repeated SoulAlone.MoveTwice |
| SoulStore.Store.CreateInitialSoulDraft | internal/agentcontent/store.go:638-670 | the create-only transaction and its re-read as that machine |
| SoulStore.Store.SeedPublished | internal/agentcontent/store.go:482-558 | the nested seed loop is that machine; an undisturbed seed is SoulAlone.SeedAlone |
| SoulStore.Store.SeedDraft | internal/agentcontent/store.go:563-592 | the draft seed is that machine; an undisturbed one is SoulAlone.SeedDraftAlone |
| SoulStore.Store.LoadRecord | internal/agentcontent/store.go:803-821 | a load yields a row that loads, absence, or the reply that ends the call |
| SoulStore.Store.Get | internal/agentcontent/store.go:429-459 | the re-read after a commit, as that machine |
| SoulDocument.RoundTrip | internal/agentcontent/soul_document.go:105-232 | on JSON trees decoding an encoding returns the document, absent and empty notes told apart, exactly when its refusals are not nil |
| SoulDocument.ValidRoundTrip | internal/agentcontent/soul_document.go:546-569 | every validated document decodes from its encoding |
| SoulDocument.EncodeInjective | internal/agentcontent/soul_document.go:546-555 | different documents have different encodings |
| DocumentOutcomes.EncodeIs | internal/agentcontent/soul_document.go:45-100 | every member of an encoded document holds the field of its name, omitted as the wire form omits it, and there is no other |
| DocumentOutcomes.DecodeStrict | internal/agentcontent/soul_document.go:105-310 | what decodes is a closed object with an agent id and a body, without nulls, and its sections are closed in their own form |
| DocumentOutcomes.BodyIff | internal/agentcontent/soul_document.go:329-365 | another body for an accepted document is accepted exactly when it is not empty, has at most 49152 bytes and the whole still fits |
| DocumentOutcomes.SummaryIff | internal/agentcontent/soul_document.go:329-380 | the same for a summary: absent, or trimmed, not empty and at most 2048 bytes |
| DocumentOutcomes.AgentIdIff | internal/agentcontent/soul_document.go:413-431 | the same for an agent id: 1 to 128 characters, none of them a separator, and the selected one when there is a selector |
| DocumentOutcomes.StructureIff | internal/agentcontent/soul_document.go:433-479 | the same for a structure: all five bodies and at least one refusal |
| DocumentOutcomes.ProvenanceIff | internal/agentcontent/soul_document.go:493-544 | the same for a provenance, by its source |
| DocumentOutcomes.TextIs | internal/agentcontent/soul_document.go:546-555 | the measured length of a text is that of its escaped form in UTF-8 |
| SoulDocument.SameAuthoringIff | internal/agentcontent/soul_document.go:643-662 | the comparison is true exactly when the documents agree outside the six server fields and the defaulted schema, the spelling of produced_at included |
| Instructions.Store.Upsert | internal/agentcontent/store.go:268-331 | create, or load and update in a retry loop, as the step machine: same requests, same order, same reply |
| Instructions.Store.Retry | internal/agentcontent/store.go:300-331 | the loop that Upsert and Archive share, as that machine |
| Instructions.Store.Archive | internal/agentcontent/store.go:676-721 | Archive of instructions as that machine |
| Instructions.Store.SeedInstructions | internal/agentcontent/store.go:598-636 | the create-only seed and the read of what was there, as that machine; whether it reports created is InstructionsReplies.CreatedIff |
| Instructions.ThreeConflicts | internal/agentcontent/store.go:300-331 | whatever the database answers, a call reports exhaustion exactly when its third update has failed its condition |
| Instructions.ConflictRetries | internal/agentcontent/store.go:286-331 | after a failed condition a call reads the row, or reports exhaustion |
| Instructions.RetriesAlike | internal/agentcontent/store.go:300-331 | what a call decides on a row it has read does not depend on the attempts before; an unreadable row, a missing row and a failing store end it with their own errors |
| InstructionsReplies.Replies | internal/agentcontent/store.go:268-331 | in every run: an upsert or archive that succeeds has committed exactly one write and returns the row of it; a seed that reports created has committed the first row and returns it; one that does not has written nothing and returns a committed row |
| InstructionsReplies.CreatedIff | internal/agentcontent/store.go:598-636 | in every run a finished seed reports created exactly when the first committed row is its own |
| InstructionsReplies.CreatedOnce | internal/agentcontent/store.go:598-636 | at most one seed of a record reports created |
| InstructionsReplies.UndisturbedOutcome | internal/agentcontent/store.go:268-331 | what an undisturbed upsert, archive or seed writes and replies, field by field, for an absent and for a stored row |
| InstructionsWorld.VersionsCountWrites | internal/agentcontent/store.go:300-331 | in every run the record version counts the writes of content, archives not among them |
| InstructionsWorld.UpdateAppliedIff | internal/agentcontent/store.go:306-320 | an update is applied exactly when no content was written since its client read the row, whatever was archived |
| InstructionsWorld.ContentSerial | internal/agentcontent/store.go:300-331 | in every run, stale reads included, an update replaces exactly the content and version its client had read, so no write of content is lost and an archive retires the content it was meant for |
| InstructionsWorld.SeedsOnlyCreate | internal/agentcontent/store.go:594-636 | a seed writes at most the first row of an absent record |
| InstructionsWorld.ArchiveSurvivesIff | internal/agentcontent/store.go:676-721 | in every run the record stays archived from an archive on exactly when no content is written after it |
| InstructionsWorld.SurvivesStepIff | internal/agentcontent/store.go:306-331 | one step ends an archive exactly when it sends an upsert based on the archived version |
| InstructionsWorld.ArchiveOverridden | internal/agentcontent/store.go:306-331 | the first write of content after an archive was based on the archived version and content; it knew of the archive exactly when it read the row after it |
| InstructionsWorld.ArchiveOverriddenUnseen | internal/agentcontent/store.go:676-721 | for all contents: a confirmed archive is overridden by a confirmed upsert that had read the draft before it |
| ContentKeys.PartitionKeyInjective | internal/agentcontent/store.go:1087-1094 | distinct normalized (account, agent id) pairs never share a partition key, even when ids contain the separator |
| ContentKeys.HistoryKeyInjective | internal/agentcontent/store.go:1104-1110 | one history sort key per (soul version, state) |
| ContentKeys.HistoryKeyOrder | internal/agentcontent/store.go:1104-1110 | for a fixed state key order is soul-version order |
| ContentKeys.CurrentKeysApart | internal/agentcontent/store.go:1096-1110 | current and history sort keys never coincide |
| DocumentOutcomes.PaddedReads | internal/agentcontent/store.go:1104-1110 | the padded digits read as the version |
| DownloadGrant.NormalizeBindingIdempotent | internal/downloadgrant/store.go:429-444 | a normalized binding is its own normal form |
| DownloadGrant.LifetimeExact | internal/downloadgrant/store.go:175-221 | truncation to seconds gives a lifetime in (ttl - 1s, ttl], and the update condition holds at exactly the instants before it is over |
| DownloadGrant.ClassifyCause | internal/downloadgrant/store.go:281-314 | classifying a stored row names the true reason for refusal exactly when the row refuses, and otherwise falls through |
| GrantWorld.AtMostOnce | internal/downloadgrant/store.go:242-279 | over every interleaving a grant has at most one consumer that is told so |
| GrantWorld.WinsRightfully | internal/downloadgrant/store.go:242-279 | a winner presented the issued token and binding within the lifetime, and received that grant |
| GrantWorld.RunInv | internal/downloadgrant/store.go:163-314 | in every reachable state a row is as issued or consumed once by its recorded winner |
| GrantWorld.RefusedForGood | internal/downloadgrant/store.go:250-262 | a row that has refused a ticket refuses it for ever |
| GrantWorld.FailuresExplained | internal/downloadgrant/store.go:281-314 | with consistent reads the answer names the true cause of the row read, and the true cause of the row its update met except exactly when that row had expired and was consumed before the read; not found means no row at either step |
| GrantWorld.ExpiredReportedAsReplay | internal/downloadgrant/store.go:281-314 | for every grant and two clocks around its expiry: the late consume is refused as expired and reported as a replay of the early one |
| GrantWorld.FallsThroughIff | internal/downloadgrant/store.go:300-313 | with a consistent read the last return is reached exactly when the row would accept the ticket, and then the update met no row |
| GrantWorld.LateIssueMisreported | internal/downloadgrant/store.go:281-314 | for every matching grant issued between update and read, the consume reports a binding mismatch |
| GrantWorld.OrderlyTruthful | internal/downloadgrant/store.go:281-314 | in runs with consistent reads where tickets are presented only after their issue, every refusal names the true cause and the last return is never reached |
| GrantWorld.AloneIsSequential | internal/downloadgrant/store.go:225-279 | the steps of an undisturbed consume refine the sequential consume |
| GrantWorld.SecondIsReplay | internal/downloadgrant/store.go:300-306 | presenting a consumed grant again is a replay that returns the same grant, at any clock |
| GrantWorld.Store.Issue | internal/downloadgrant/store.go:163-220 | exactly when it succeeds, and the one row it then adds |
| GrantWorld.Store.Consume | internal/downloadgrant/store.go:225-279 | the new table and the answer of the sequential consume |
| GrantOutcomes.IssueOutcome | internal/downloadgrant/store.go:163-220 | an issue accepts exactly bindings without a blank field, and the row it writes, field by field |
| GrantOutcomes.ConsumeOutcome | internal/downloadgrant/store.go:225-314 | the table and the answer of an undisturbed consume, by what is presented and what is stored, in the order in which an answer is chosen |
| ActorEndpoint.AsciiLowerInPlace | internal/actorendpoint/validation.go:50-58 | the in-place loop folds every character |
| RegistryWorld.CreatedOnce | internal/agentregistry/store.go:237-331 | in every run at most one call per key reports created |
| RegistryWorld.UsernameGuarded | internal/agentregistry/store.go:237-331 | in every run a local id is never cleared, and a change of its fold is committed only by a call whose expected local id is the stored one |
| RegistryWorld.UsernameStable | internal/agentregistry/store.go:335-413 | callers without an expected local id, however many, never change the fold of a non-empty local id |
| RegistryWorld.UsernameStableRuns | internal/agentregistry/store.go:335-413 | the same between any two versions in every run from an empty table |
| AgentRegistry.CreateAgreesWithUpdate | internal/agentregistry/store.go:602-666 | creating a row and updating a blank one agree exactly unless a recovery has a negative published version |
| AgentRegistry.NegativeAccepted | internal/agentregistry/store.go:602-666 | validation accepts every negative published version of an otherwise valid recovery; the create stores it and the update leaves the column at zero |
| RegistryWorld.RunInv | internal/agentregistry/store.go:200-413 | in every reachable state each row version follows from the one before by a permitted write |
| RegistryWorld.AloneIsSequential | internal/agentregistry/store.go:200-413 | the steps of an undisturbed call refine the sequential call |
| RegistryWorld.Store.Upsert | internal/agentregistry/store.go:200-413 | create, observe, validate and update, as the sequential call; what that call does to each column is RegistryOutcomes.AloneOutcome |
| RegistryWorld.Store.CreateIfAbsent | internal/agentregistry/store.go:218-229 | the conditional create |
| RegistryOutcomes.AloneOutcome | internal/agentregistry/store.go:200-413 | an undisturbed call by its own fields: when it is refused and why, the one row it changes, every column either as brought or as it was, and the agent it returns |
| RegistryOutcomes.EveryVersionBrought | internal/agentregistry/store.go:237-413 | in every run each version of each row is the version before with exactly the columns that its call brought |
| RegistryOutcomes.Replies | internal/agentregistry/store.go:237-413 | in every run a call that succeeds has committed exactly one version, of the row it names, returns it, and says created exactly when it is the first; one that is refused has committed none |
| MintLog.NeverOverLimit | internal/baserver/baserver.go:1283-1311 | for clocks that never run backwards no window (t - window, t] holds more than limit admissions |
| MintLog.BoundedIff | internal/baserver/baserver.go:1295-1302 | over all runs of clocks that step back by at most d the window bound holds exactly when d is 0 or the limit is 1 |
| MintLog.AdmittedIff | internal/baserver/baserver.go:1283-1311 | the compacted hits decide as the full admission log would |
| MintLog.ResetExact | internal/baserver/baserver.go:1303-1308 | a denial's reset time is exactly the first instant at which a retry is admitted |
| MintLog.RemainingExact | internal/baserver/baserver.go:1303-1311 | the remaining count of an admission is exactly how many more requests at that instant are admitted |
| MintLog.AccountsIndependent | internal/baserver/baserver.go:1283-1311 | a bucket is what the requests of its own account make of it |
| MintLog.EveryAccountBounded | internal/baserver/baserver.go:1283-1311 | whatever other accounts do, no account exceeds its limit in any window |
| MintLimiter.Bucket.Compact | internal/baserver/baserver.go:1295-1302 | the in-place overwrite of the slice keeps exactly the recent hits, in the same array |
| MintLimiter.Bucket.Append | internal/baserver/baserver.go:1309 | one hit more, in place or in a larger array |
| MintLimiter.Bucket.Admit | internal/baserver/baserver.go:1295-1310 | compaction, decision and append on one bucket are the specified decision |
| MintLimiter.Limiter.constructor | internal/baserver/baserver.go:1273-1281 | a limit of five and a window of one minute, each unless a positive one is given |
| MintLimiter.Limiter.Allow | internal/baserver/baserver.go:1283-1311 | the decision with its limit, window, remaining count and reset time, the new bucket of this account, every other account unchanged, the blank account refused, and the buckets still those of the whole sequence of calls |
| MintLimiter.AllowBounded | internal/baserver/baserver.go:1283-1311 | the class over any sequence of calls: each account stays within its limit in every window, and the next call is decided by its own admissions |
| PackId.RoundTrip | internal/baserver/baserver.go:951-980 | AgentIDFromPackID undoes PackIDForAgent up to trimming |
| PackId.Injective | internal/baserver/baserver.go:951-962 | distinct (trimmed id, client) pairs have distinct pack ids |
| PackId.RebuiltIff | internal/baserver/baserver.go:951-980 | rebuilding an accepted pack id from its own client and the bytes of its agent id gives it back exactly when it and the decoded bytes are trimmed and the payload is canonical; on ids that are text both ways of building agree |
| PackId.Aliases | internal/baserver/baserver.go:965-980 | two accepted pack ids of one agent and client |
| PackId.NoText | internal/baserver/baserver.go:965-980 | an accepted pack id whose agent id is not UTF-8 |
| ByteText.TrimBytesOf | internal/baserver/baserver.go:974-977 | trimming the bytes of a text gives the bytes of the trimmed text |
| PackId.PackIdForAgent | internal/baserver/baserver.go:951-962 | it fails exactly for a blank id or an unsupported client |
| Base64Url.RoundTrip | internal/baserver/baserver.go:960 | unpadded base64url of sections 3.2 and 5 of RFC 4648 decodes what it encodes |
| Base64Url.CanonicalIff | internal/baserver/baserver.go:970 | an accepted payload is the encoding of its decoding exactly when it has no line break and the spare bits of its last group are zero |
| Base64Url.GroupIs | internal/baserver/baserver.go:960 | a group of bytes and its symbols are one number, most significant first |
| Utf8.RuneIs | internal/baserver/baserver.go:960 | the bytes of a rune, marks and bits |
| Utf8.DecodeEncode | internal/baserver/baserver.go:960 | the UTF-8 bytes of an id decode back to it |
| ServerName.ServerNameInGrammar | internal/installpack/names.go:44-74 | every name fits 80 bytes and the verifier's grammar, truncated or not, and the no-room error cannot happen |
| ServerName.TruncatedIsComponent | internal/installpack/names.go:62-72 | truncation leaves a non-empty component within the budget, so the fallback after it is never used |
| ServerName.SafeNameComponentIdempotent | internal/installpack/names.go:100-119 | normalizing a component again changes nothing |
| ServerName.ComputeSafeNameComponent | internal/installpack/names.go:100-119 | the builder loop joins the lower-case words of the text with underscores |
| PackOutcomes.WordsAreRuns | internal/installpack/names.go:100-119 | those words are the maximal runs of letters and digits: the text is they and the gaps between them |
| PackOutcomes.NameIs | internal/installpack/names.go:44-95 | the name: brand, stage by the first label, and the joined words of the actor, all of them or the longest beginning that fits and does not end in an underscore |
| PackOutcomes.StageDomainIff | internal/installpack/renderer.go:293-317 | a stage domain is usable exactly when it is lower-case letters, digits, dots and dashes, with a dot, no dot or dash at an end or beside another dot, and is not the API host |
| InstallPack.LayoutOrderIrrelevant | internal/installpack/renderer.go:223-267 | with distinct paths manifest and ZIP do not depend on layout order or on the sort algorithm |
| InstallPack.SortedPack | internal/installpack/renderer.go:89-146 | a pack is determined by its files in path order |
| InstallPack.AlwaysNamed | internal/installpack/renderer.go:54-71 | the server-name error of a render cannot happen after its other checks |
| InstallPack.Render | internal/installpack/renderer.go:39-147 | the first failing check, a failed template, or a pack of exactly the rendered layout |
| PackOutcomes.IdentifyIs | internal/installpack/renderer.go:49-87 | which check refuses a request, and the identifying fields of a pack, literally |
| PackOutcomes.PackContents | internal/installpack/renderer.go:89-146 | a rendered pack lists every file once with its size, checksum and profile, and holds every file once after the manifest, both in path order, and nothing else |
| InstallPack.RenderLayout | internal/installpack/renderer.go:89-96 | the files in layout order, or failure as soon as one does not render |
| PackOutcomes.RenderedIs | internal/installpack/renderer.go:89-96 | the rendered files are those of the layout, each with the body of its template, and there are none exactly when some template fails |
| InstallPack.ManifestEntries | internal/installpack/renderer.go:223-244 | one entry per file with its size and checksum, sorted by path |
| InstallPack.BuildZip | internal/installpack/renderer.go:246-267 | the manifest first, then every file by path |
| PathOrder.SortSlice | internal/installpack/renderer.go:242 | an in-place sort by path: ascending and a permutation |
| PathOrder.SortingUnique | internal/installpack/renderer.go:249 | with distinct paths there is only one ascending permutation |
| PackOutcomes.BelowMeans | internal/installpack/renderer.go:242 | path order is decided by the first difference, a beginning before what it begins |
| PackVerifier.VerifyManifest | scripts/canary_ba_install.py:443-498 | the verifier's loops accept exactly the specified archives, which PackVerifier.AcceptedMeans and PackVerifier.AcceptedUnderPlanIff describe |
| PackVerifier.VerifierAgrees | scripts/canary_ba_install.py:443-498 | a rendered pack is accepted exactly when its layout is not empty and every file has a non-empty body under a safe path |
| PackVerifier.AcceptedUnderPlanIff | scripts/canary_ba_install.py:443-498 | a rendered pack is accepted under any plan exactly when the plan has its pack id, digest, server name and endpoint and the layout qualifies, so a pack rendered for another agent is rejected |
| PackVerifier.AcceptedMeans | scripts/canary_ba_install.py:443-498 | an accepted archive: its manifest has the schema, the four fields of the plan and neither token flag, and names exactly the other files, each with the size and checksum it records |
| PackVerifier.EscapesIff | scripts/canary_ba_install.py:443-498 | a path is refused exactly when it is absolute or has a parent step |
| PackVerifier.RenderedAccepted | internal/installpack/renderer.go:89-146 | the same for every pack rendered from a layout in any order, whatever the sort |
| PackVerifier.AcceptedIsAuthentic | scripts/canary_ba_install.py:490-497 | an archive accepted with the manifest of a pack holds the very bytes of that pack |
| PackVerifier.AcceptedFixesRequest | scripts/canary_ba_install.py:443-498 | the manifest of an accepted archive fixes the normalized request it was rendered for, and the path and bytes of every file |
| PackVerifier.DefaultPathsQualify | internal/installpack/templates.go:50-187 | the built-in layouts have distinct, safe paths other than the manifest's |
| Redemption.RedemptionExact | internal/instanceapp/installer_grants.go:215-261 | redeeming a plan's grant rebuilds the planned request with the actor lower-cased, so the planned one exactly when the actor is its own lower case |
| RedemptionOutcomes.BuildIs | internal/baserver/baserver.go:741-859 | which check refuses pack input, in order, and the request otherwise, on the given fields |
| RedemptionOutcomes.PlanIs | internal/baserver/baserver.go:315-475 | a plan exists exactly for complete inputs and packable content, and its request and binding, field by field |
| RedemptionOutcomes.RedeemIs | internal/instanceapp/installer_grants.go:215-261 | redeeming the stored grant of a plan under any later configuration and content: the first thing missing, or the planned identity and digest with the text of then |
| Redemption.RedeemedZip | internal/instanceapp/installer_grants.go:246-260 | from a plan: the ZIP redeemed from its stored grant, with unchanged content, is the planned ZIP with the announced checksum exactly when lower-casing leaves the trimmed local id alone |
| Redemption.DigestDescribesIff | internal/baserver/baserver.go:838-841 | a grant planned under one content and redeemed under another: the pack carries the planned digest, and it is the digest of what the pack contains exactly when the content is unchanged and the actor is its own lower case |
| Redemption.RewrittenUndetected | internal/baserver/baserver.go:838-841 | for every plan: a soul rewritten before the redemption is delivered under the old digest, which is not its own |
| Redemption.PlanHashes | internal/baserver/baserver.go:891-921 | the planned digest is the hash of exactly the plan's inputs |
| Redemption.DigestIdentifiesPlan | internal/baserver/baserver.go:891-921 | plans with the same digest are the same plan |
| Redemption.UrlMatchesGrant | internal/baserver/baserver.go:1035-1062 | following the URL of a grant issued for a plan presents what is stored, and is accepted for exactly its lifetime |
| Redemption.HandleGrant | internal/instanceapp/installer_grants.go:263-327 | an entitled request consumes its row and nothing else, and what it is served is the rendering of that row; any other request changes nothing and is refused |
| RedemptionOutcomes.RouteIs | internal/instanceapp/installer_grants.go:263-327 | the response and the stored row after an undisturbed request, by what its URL presents and what is stored |
| RedemptionRuns.ServedAtMostOnce | internal/instanceapp/installer_grants.go:263-327 | in any sequence of issues and undisturbed redemption requests, with any content at each of them, a grant id is served at most once |
| RedemptionRuns.ServedRightly | internal/instanceapp/installer_grants.go:263-327 | and whatever is served was asked for with the token and binding of an earlier issue of that id, within its lifetime, and is the rendering of that grant |
| RedemptionRuns.InterleavedAtMostOnce | internal/instanceapp/installer_grants.go:263-327 | the same when the updates and reads of requests interleave with each other and with issues |
| RedemptionRuns.InterleavedRightly | internal/instanceapp/installer_grants.go:263-327 | and there too whatever is served went to the issued token and binding in time and is the rendering of that grant |
| Redemption.ServedOnce | internal/instanceapp/installer_grants.go:293-325 | after a pack was served, or failed to render, the same URL is answered as already consumed |
| SessionRecovery.Recover | internal/mcpapp/session_recovery.go:41-73 | the middleware's calls, replies and restored request, for every answer of the runtime |
| SessionOutcomes.RecoversMeans | internal/mcpapp/session_recovery.go:41-133 | one request through the middleware, said on the requests sent and the response returned header by header: passed through, marked as not to be stored, failed, or replayed in a fresh session |
| SessionRecovery.DispatchedAtMostOnce | internal/mcpapp/session_recovery.go:41-73 | an inbound request is dispatched at most once when no dispatched answer imitates a dead session |
| SessionRecovery.TwiceIff | internal/mcpapp/session_recovery.go:41-73 | a request can be dispatched twice exactly when its dispatched answer imitates a dead session and the next answer offers a session that is alive at the replay |
| SessionRecovery.TwiceInRun | internal/mcpapp/session_recovery.go:274-292 | the same for one given run, with the session it replayed in |
| SessionRecovery.DoubleDispatch | internal/mcpapp/session_recovery.go:274-292 | every request whose answer imitates a dead session, at a runtime that opens a session, is dispatched as it came and again as the replay |
| SessionRecovery.StreamNeverRebound | internal/mcpapp/session_recovery.go:52-56 | a GET never opens a session |
| SessionRecovery.ReplayCarriesFreshSession | internal/mcpapp/session_recovery.go:65-67 | the replay keeps method, body and other headers, and has exactly one session header, which the runtime reads |
| SessionRecovery.DeadSessionRecovered | internal/mcpapp/session_recovery.go:58-71 | a request in a dead session is dispatched once, in the session opened for it |
| SessionRecovery.InitializeReplacement | internal/mcpapp/session_recovery.go:75-93 | the replacement session, or the reason there is none |
| SessionRecovery.InitializeRequest | internal/mcpapp/session_recovery.go:95-133 | the internal initialize request, built on copied headers |
| SessionRecovery.InitializeIsFresh | internal/mcpapp/session_recovery.go:120-131 | the internal initialize request keeps no spelling of the session, event, length and method headers |
| SessionRecovery.InvokeWith | internal/mcpapp/session_recovery.go:135-149 | the handler sees the given request and the context gets its own back |
| SessionRecovery.CloneRequest | internal/mcpapp/session_recovery.go:151-163 | an equal request over fresh headers |
| SessionRecovery.FirstHeaderValue | internal/mcpapp/well_known.go:324-340 | the first value with text under some spelling of the name |
| SessionOutcomes.FirstOfIs | internal/mcpapp/well_known.go:332-337 | of several values the first that is not blank counts, trimmed |
| HttpHeaders.WithDetermines | internal/mcpapp/session_recovery.go:176-185 | after setting a header there is exactly one spelling of it, so every lookup gives that value |
| HttpHeaders.HeaderMap.Remove | internal/mcpapp/session_recovery.go:207-214 | deletes every spelling and nothing else, in any key order |
| HttpHeaders.HeaderMap.Set | internal/mcpapp/session_recovery.go:176-185 | the map with this one header |
| DraftHydration.HydrateDraftListEdges | internal/cmsapi/drafts.go:271-312 | batched hydration is a pointwise lookup by trimmed cursor: every edge up to the first failing batch has the draft of its cursor where there is one, all others are as they were, and no request asks for more than 20 |
| DraftHydration.BuildBatch | internal/cmsapi/drafts.go:277-294 | one alias and variable per non-blank cursor, in order |
| DraftHydration.BatchWellFormed | internal/cmsapi/drafts.go:277-294 | at most 20 aliases, pairwise different, each with its own non-blank id |
| DraftHydration.AssignedAt | internal/cmsapi/drafts.go:305-309 | a batch hydrates exactly its own edges |
| DraftHydration.AssignBatch | internal/cmsapi/drafts.go:305-309 | the answers are assigned through the recorded indexes |

## Left out

- JSON text: trees are modelled, with objects as maps; the text itself only by its length (`JsonText`, at whole-second instants). Number syntax and the case-insensitive member matching of encoding/json are not. In the other results the encoded size of a soul document, and which strings parse as RFC 3339 times, are parameters.
- Time formatting: timestamps are integers; only the truncation to seconds in grants is arithmetic.
- 64-bit width of versions and counters: integers are unbounded; only the history key's zero-padding has its limit.
- Strings that are not valid Unicode, and Unicode normalization: strings are sequences of code points; only the ids that pack ids carry are byte strings.
- Redeem: a binding whose pack id carries an id that is not text is refused at once, where the source looks for the content of that id; the plan issues no such binding.
- Instructions rows whose stored lifecycle is not one of the three words; a published one is refused as in the source.
- Account and agent columns, table names and content types of a soul record: fixed per record, and stored as given.
- Aliasing of cloned soul documents: documents are values, so a missing deep copy would not show.
- GrantWorld.Store.Consume: one process without interference; interference between its two steps is the subject of the event machine beside it.
- RegistryWorld.Store.Upsert: likewise without interference between its steps.
- Listing and pagination of the registry, and reads outside the modelled calls.
- Random token and grant ids: parameters of the issue step; an id that is taken is refused as the conditional create does.
- Template text, content normalization of rendered files, merge instructions and the install marker: a file's body is any function of its specification, the identifying fields and the content.
- The binary ZIP format and the extraction to disk in the canary; manifest entries of unexpected JSON types.
- Parsing of the instance endpoint and URL encoding: the stage domain is a parameter, and a query is a map from parameters to values.
- The gates of the plan tool before and after its content is read: scopes, x402, the authoritative actor and the order of their error replies.
- Audit logging, nil contexts and nil responses of the session recovery; response headers are values and not updated in place.
- GraphQL query text: an operation is its aliases and variables.
- HTTP routing, the GraphQL and host clients, deployment code and the remaining scripts.
