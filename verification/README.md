# Verified models of the caffemate platform's core algorithms

This Dafny project models the parts of the platform where correctness is hardest to see by reading: transformations of
JSON Schemas, the outbox protocol that cleans up agent sessions, the canonical text that identifies an agent task,
pairs of validation gates that two services run on the same model output, and a few algorithms with a crisp
specification. `dafny verify dfyconfig.toml` checks all of it.

## What is modelled

**JSON and JSON Schema** (`Json`, `JsonSchema`). Values are finite trees with integer numbers; an object is the list
of its members in enumeration order and is read by key. The meaning of a schema follows JSON Schema 2020-12 Core:
section 8.2.3.1 for `$ref`, 10.2.1 for `allOf`, `anyOf`, `oneOf`, `not`, 10.2.2 for `if`, 10.3 for `prefixItems`,
`items`, `properties` and `additionalProperties`, 11.3 for `unevaluatedProperties`. References may be cyclic, so a
verdict (accepted or rejected) is what can be established by following finitely many references; a schema that can
only be judged by going round a cycle has no verdict. Keywords that look at the instance alone (`pattern`, `minimum`,
`format`, ...) are a parameter, so the theorems hold whatever they mean.

**Tool schemas** (`SchemaReferences`, `ToolSchemas`, `ToolSchemaMeaning`). `dereference` inlines every reference.
Proved: to which document and value a reference leads, and when to none; exactly when dereferencing fails; that nothing it returns holds a reference; that its result gives every value the
verdicts of the original. The tool results are closed by `unevaluatedProperties` beside an `allOf` of references, so
the meaning of a schema includes which properties it evaluates (section 11.3 of Core), and dereferencing keeps that
too. With an `allOf` beside a `$ref` the target is lost, because the spread of the siblings overwrites it: for that
case the exact set of values is given on which the meaning survives, and a schema that loses it.

**Projected response schemas** (`VertexResponseSchema`, `ProjectionSoundness`, `ProjectionMerge`, `ProjectionTheorem`,
`ProjectionExact`, `ProjectionBranches`, `ProjectionParts`, `ProjectionReferences`, `ProjectionLimits`, `ProjectionEntry`).
`projectSchema` flattens a cyclic set of documents into one bounded schema. Its purpose is to be weaker than the
contract (agents/src/vertex-model-client.ts:120-124). Proved: on the schemas that `Supported` describes, the
projection holds no reference and accepts whatever the contract accepts. `Supported` is a syntactic walk along the
projection: every key once, no `prefixItems`, nothing with a reference below `additionalProperties`, properties beside
a definite type wherever the schema is given up on, and `oneOf` branches that still differ in their type or in a tag
after projection, as they do when they differ so as they are written, behind their references. Where nothing has to be
given up at all (`Kept`: references resolve and do not recur, the depth suffices, only kept keywords and no `allOf`),
the projection accepts and rejects exactly what the contract does. An `allOf` is merged exactly: a keyword or a property
has the value of the last part with it, and the projection requires the names that the schema and the merged branches
require, through their references, and no others. Outside, the code does not meet its purpose. At the
depth limit only the types of a `oneOf`'s branches are kept, and the projection is a weakening exactly when each
accepted value is allowed by the type of exactly one branch; a schema that is given up on keeps its meaning exactly
when its properties stand beside a definite type or it accepts objects only; references stay exactly where what is
copied unread holds one. Two contracts as the code receives them, at depth 0, show it: under six arrays two object
branches become identical and reject everything, under seven a nullable object with properties loses null.

**The cleanup outbox** (`Outbox`, `DeadLetters`, `AgentCleanup`, `CleanupProtocol`, `CleanupAnswers`). The table, the repository, the
operator's commands and the consumer are classes whose methods are proved against functions on the tables. The
protocol is a state machine over those functions: any number of cleanup workers and workflow dispatchers
(api/app/workflows/dispatch.py:58-176), slow or crashing, with clocks that disagree, an operator, new rows, and the
verification runs that delete their own workflow rows (api/app/verification/documents.py:301-308,
api/app/verification/first_proposal.py:124-145). Every row carries a history, and the theorems speak of all runs:
fencing, conservation of attempts and of dead-letterings, no false cleanup, no lost row, bounded retries, and that each
outcome written down answers the one delete that was tried under its claim. The delay of
a retry is not claimed to be kept: `claim_next` only orders by it (worker/outbox.py:55-60). Pages of dead letters are
proved complete while the table changes between them.

**The calls of the Runtime** (`RuntimeStreams`, `TransportRetries`, `CleanupReports`, `RuntimeRules`). The reading of a streamed
answer, the selection of its final text, one attempt and the retry loop, with everything the network and the clocks do
as inputs. A session is handed to the outbox exactly if its attempt began, and either the stream raised or left no
time to begin, or the deadline is not passed after it and the first event refused is the report of a failed deletion.
The Runtime sends that report last, and the protocol promises cleanup for every failed deletion
(docs/contracts/agent-runtime-protocol.md:106): the code meets the promise exactly if the stream was late or broke
off, or else if the deadline is not passed, the agent threw no error of its own, and every event before the report is
accepted. Three runs that lose their session are given.

**Canonical JSON and the input digest** (`JsonText`, `CollatedJson`, `CanonicalJson`, `InputDigest`). A printer with
the escapes of JSON.stringify, a parser (section 7 of RFC 8259 for strings), keys sorted by UTF-16 code units (section
3.2.3 of RFC 8785), which is proved by positions: in every object of the text the keys ascend. Canonical texts are equal exactly when the values differ at most in the order of members; the
digest text depends exactly on the projected fields and survives every retry, trace and repair edit.

**Gates that must agree** (`Positions`, `ReferenceCollectors`, `ReferencePositions`, `ReferenceGates`, `EvidencePlans`,
`EvidencePlanGates`, `PlanRules`, `IntentGates`, `IntentSchema`, `IntentRules`). The Runtime's collectors fill
accumulators, the Control API's unite local results; both are proved against one specification, and that against the
positions in a value: the texts that stand under a key, and of the records of an id the last. What each gate reports or
accepts is stated on positions, numbers of plans and actions, and members alone, and proved in both directions. References accepted by the Runtime are accepted by the Control API for
every task type; the checks of assumptions used as evidence flag the same references; an accepted evidence plan is
accepted by the other side exactly when its claim ids are texts and it keeps the limits that only the Control API
enforces (zero and negative ones, which the input contract excludes with its minimum of 1); an accepted intent
operation meets the schema that is sent, the union of all branches for each property, exactly when it names no unit,
which the contract allows, the schema forbids and the validator does not look at.

**Algorithms** (`Ranking`, `Migrations`, `AreaSearch`, `CostReferences`). A ranking response is accepted exactly when
it reorders the request; migrations run once under any series of cut runs, and verification then succeeds exactly when
no file holds a carriage return, since applying sums the text read and verifying sums the bytes; the area search finds
the top codes; a cost snapshot passes exactly when its ranges are disjoint.

## Model

| member | source | states |
|---|---|---|
| `SchemaReferences.TokenRoundTrip` | mcp/src/tool-schemas.ts:15-17 | decoding a pointer token undoes the escaping of section 3 of RFC 6901, for every text |
| `SchemaReferences.ResolvePointer` | mcp/src/tool-schemas.ts:19-30 | the token loop finds what following the decoded path finds, and fails alike |
| `SchemaReferences.PointerAddresses` | mcp/src/tool-schemas.ts:19-30 | the RFC 6901 pointer of a path of names addresses its value, except exactly the path to the root member with the empty name |
| `SchemaReferences.ReferenceLeadsTo` | mcp/src/tool-schemas.ts:32-39 | a reference names a document, `./` before it or not, or by no name the current one, and resolves if and only if the document exists and the path of its decoded pointer finds a value, and then to that document and value |
| `SchemaReferences.MalformedFragmentFails` | mcp/src/tool-schemas.ts:37 | a fragment that cannot be decoded fails, whatever the document |
| `SchemaReferences.KeysTellApart` | mcp/src/tool-schemas.ts:49 | two targets have the same key if and only if they have the same document and pointer |
| `ToolSchemas.Untouched` | mcp/src/tool-schemas.ts:41-65 | a value without references comes back unchanged |
| `ToolSchemas.DereferenceFailsExactly` | mcp/src/tool-schemas.ts:41-65 | dereferencing fails if and only if a chain of written references, each leading where `ReferenceLeadsTo` says, ends unresolved or at a target already passed |
| `ToolSchemas.DereferenceLeavesNoReference` | mcp/src/tool-schemas.ts:41-65 | no reference is left in any position of a result, where no `$ref` member holds an object that is itself a reference |
| `ToolSchemas.ReferenceMade` | mcp/src/tool-schemas.ts:46-64 | where one does, and leads to a text, the result holds a reference that no schema wrote |
| `ToolSchemas.ServedExactly` | mcp/src/tool-schemas.ts:67-72 | a schema is served if and only if its reference leads to a value that dereferences to an object |
| `ToolSchemaMeaning.DereferencePreservesMeaning` | mcp/src/tool-schemas.ts:41-65 | the result accepts and rejects exactly the values that the original does, references being followed as far as needed and `unevaluatedProperties` seeing what is evaluated behind them |
| `ToolSchemaMeaning.Meaning` | mcp/src/tool-schemas.ts:41-65 | by induction over the dereferencing: the same verdicts, and the same properties evaluated, in source and result |
| `ToolSchemaMeaning.ServedToolSchema` | mcp/src/tool-schemas.ts:67-80 | the schema served for a tool is a reference-free object schema with the verdicts of the contract it refers to |
| `ToolSchemaMeaning.TargetLost` | mcp/src/tool-schemas.ts:54-59 | with an `allOf` beside a reference the result is what the siblings alone dereference to |
| `ToolSchemaMeaning.SiblingAllOfExact` | mcp/src/tool-schemas.ts:54-59 | the target being lost, a value keeps its verdict if and only if the siblings alone imply the target, and an `unevaluatedProperties` among them does not need it |
| `ToolSchemaMeaning.SiblingAllOfLosesTarget` | mcp/src/tool-schemas.ts:54-59 | a text schema beside an open `allOf` comes to accept numbers |
| `VertexResponseSchema.MergeObjectSchemas` | agents/src/vertex-response-schema.ts:99-116 | the nested loops compute the merge whose required names, properties and keywords the lemmas of `ProjectionParts` determine |
| `VertexResponseSchema.FillBase` | agents/src/vertex-response-schema.ts:149-168 | filling `base` key by key gives the specified base, or the first error |
| `VertexResponseSchema.ProjectSchema` | agents/src/vertex-response-schema.ts:118-177 | the projection as written is the specified projection, for every depth, document and set of seen references |
| `VertexResponseSchema.RefLeadsTo` | agents/src/vertex-response-schema.ts:77-85 | a reference names a document by the last part of its path, or by no path the current one, and resolves if and only if that document has an object at the path of member names, and then to it |
| `ProjectionSoundness.LooseSound` | agents/src/vertex-response-schema.ts:87-97 | keeping only the type accepts what the schema accepts, when properties stand beside exactly `object` or `array` |
| `ProjectionSoundness.LooseExact` | agents/src/vertex-response-schema.ts:87-97 | keeping only the type is a weakening if and only if the schema is safe in that sense or accepts objects only |
| `ProjectionMerge.MergeAdmits` | agents/src/vertex-response-schema.ts:99-116 | what all parts of an `allOf` accept, the merged object accepts |
| `ProjectionMerge.MergeGood` | agents/src/vertex-response-schema.ts:99-116 | merging brings in no reference, no other keyword and no repeated key |
| `ProjectionParts.MergedRequired` | agents/src/vertex-response-schema.ts:99-116 | where every `required` is a list, the merged object requires a name if and only if some part does, and names it once |
| `ProjectionParts.MergedProperty` | agents/src/vertex-response-schema.ts:103-108 | a property of the merged object has the schema that the last part with it gives it, and there are no others |
| `ProjectionParts.MergedKeyword` | agents/src/vertex-response-schema.ts:111-113 | any other keyword has the value that the last part with it gives it, and there are no others |
| `ProjectionParts.ProjectionRequires` | agents/src/vertex-response-schema.ts:118-177 | where every `required` is a list, the projection requires exactly the names that the written schema and its merged branches require, behind their references |
| `ProjectionParts.AcceptedNames` | agents/src/vertex-response-schema.ts:170-176 | an object that the projection accepts names everything that the schema and its merged branches require |
| `ProjectionParts.MemberExactly` | agents/src/vertex-response-schema.ts:149-168 | which members are copied, which become an `enum`, and which are dropped |
| `ProjectionParts.DepthExactly` | agents/src/vertex-response-schema.ts:124 | below six schemas a schema is given up on |
| `ProjectionTheorem.DiscriminatedExclusive` | agents/src/vertex-response-schema.ts:160-164 | branches that differ in type or tag have no value in common |
| `ProjectionTheorem.ProjectSound` | agents/src/vertex-response-schema.ts:118-177 | by induction over the projection: flat, free of references, and accepting what the schema accepts in its own document |
| `ProjectionTheorem.ProjectionWeakens` | agents/src/vertex-response-schema.ts:118-177 | a value accepted by the contract, through any references, is accepted by the projection in any document |
| `ProjectionExact.ProjectAlike` | agents/src/vertex-response-schema.ts:118-177 | by induction over the projection: on kept schemas it succeeds and gives the verdicts of the schema in its own document |
| `ProjectionExact.ProjectionKeepsMeaning` | agents/src/vertex-response-schema.ts:118-177 | on kept schemas the projection accepts and rejects exactly what the contract accepts and rejects |
| `ProjectionBranches.OneOfAtTheLimit` | agents/src/vertex-response-schema.ts:87-97 | at the depth limit a projected `oneOf` accepts a value if and only if the written type of exactly one branch allows it |
| `ProjectionBranches.OneOfAtTheLimitExactly` | agents/src/vertex-response-schema.ts:118-177 | there the projection of a schema with a `oneOf` is a weakening if and only if every accepted value is allowed by the written type of exactly one branch |
| `ProjectionBranches.OneOfWeakensExactly` | agents/src/vertex-response-schema.ts:118-177 | at any depth it is one if and only if every accepted value is accepted by exactly one projected branch |
| `ProjectionBranches.WrittenApartSupported` | agents/src/vertex-response-schema.ts:160-164 | written branches of different types or tags, behind their references, satisfy what the weakening theorem asks of a `oneOf` |
| `ProjectionLimits.OneOfLostAtTheLimit` | agents/src/vertex-response-schema.ts:118-177 | two object branches at the depth limit project to a schema that rejects every value |
| `ProjectionLimits.SplitSchemaLosesObjects` | agents/src/vertex-response-schema.ts:118-177 | a contract that accepts every object whose projection rejects them all |
| `ProjectionLimits.NullableLosesNull` | agents/src/vertex-response-schema.ts:87-97 | a nullable object schema accepts null, its loose form does not |
| `ProjectionEntry.FailsFromTheEntry` | agents/src/vertex-response-schema.ts:118-177 | a value lost at a depth is lost from the entry at depth 0, below as many arrays |
| `ProjectionEntry.ReceivedOneOfLost` | agents/src/vertex-response-schema.ts:478 | a contract entered at depth 0 accepts an object under six arrays, its projection rejects it |
| `ProjectionEntry.ReceivedNullLost` | agents/src/vertex-response-schema.ts:478 | a contract entered at depth 0 accepts null under seven arrays, its projection rejects it |
| `ProjectionReferences.ReferencesExactly` | agents/src/vertex-response-schema.ts:118-177 | the projection is free of references if and only if nothing it reaches and copies unread, below `additionalProperties` or `prefixItems`, holds one |
| `Outbox.CleanupSink.EnqueueSessionDelete` | api/app/agents/runtime.py:138-171 | a pending row with no attempts is added unless one with its topic, aggregate and digest exists |
| `Outbox.PostgresOutboxRepository.ClaimNext` | worker/outbox.py:37-94 | claims the first waiting unlocked row by time and id for 45 seconds under one more attempt, or finds none and changes nothing |
| `Outbox.PostgresOutboxRepository.MarkPublished` | worker/outbox.py:96-121 | publishes the row if the token still holds it, and else changes nothing |
| `Outbox.PostgresOutboxRepository.ReleaseForRetry` | worker/outbox.py:123-147 | releases the row if the token still holds it, and else changes nothing |
| `Outbox.PostgresOutboxRepository.MarkDeadLetter` | worker/outbox.py:149-174 | dead-letters the row if the token still holds it, and else changes nothing |
| `DeadLetters.DeadLetterOperations.Reprocess` | worker/dead_letter.py:103-208 | replay, the four refusals in their order, or an audit line and a reset row |
| `DeadLetters.ReprocessAnswers` | worker/dead_letter.py:103-208 | a new request is refused for the first thing that is wrong or is written down beside the row that starts again; a known one changes nothing and gets its answer again if nothing about it differs |
| `DeadLetters.ReprocessKeepsRequestsDistinct` | worker/dead_letter.py:111-176 | the audit table never names a request id twice |
| `DeadLetters.ReprocessIdempotent` | worker/dead_letter.py:109-131 | after a success the same request gets the same answer and changes nothing, any other under its id is refused |
| `DeadLetters.DeadLetterOperations.List` | worker/dead_letter.py:70-101 | the page is the next rows by id with a cursor exactly when more follow |
| `DeadLetters.PageLists` | worker/dead_letter.py:70-101 | a page lists all dead-lettered rows between its two cursors and no others |
| `DeadLetters.WalkAscends` | worker/dead_letter.py:70-101 | following cursors lists no id twice, whatever happens to the table between pages |
| `DeadLetters.WalkListsAll` | worker/dead_letter.py:70-101 | a row dead-lettered at every page of a finished walk is listed |
| `DeadLetters.WalkListsOnlyDead` | worker/dead_letter.py:70-101 | every id listed was dead-lettered when its page was read |
| `DeadLetters.WalkEnds` | worker/dead_letter.py:70-101 | over a table at rest the walk comes to a last page |
| `AgentCleanup.AgentSessionCleanupConsumer.Settle` | worker/agent_cleanup.py:92-126 | if the claim is still held, the row is concluded as payload, outcome and attempts ask: published, released for 2 to the attempts seconds, or dead-lettered under the code of the invalid payload, the refused scope or the exhausted retries; and else nothing changes and the loss is reported |
| `AgentCleanup.AgentSessionCleanupConsumer.CleanupOne` | worker/agent_cleanup.py:85-118 | undisturbed, one cleanup takes the first waiting cleanup row by time and id, concludes it in the same way under one more attempt and answers by the status it ends in, or reports that no row is waiting |
| `AgentCleanup.CleanupProgress` | worker/agent_cleanup.py:95-118 | each cleanup that finds a row lowers the sum over active rows of max(1, 5 - attempts), whatever the deleter does |
| `AgentCleanup.AgentSessionCleanupConsumer.Drain` | worker/main.py:263-286 | published rows grow by exactly `deleted`, dead-lettered ones by exactly `deadLettered`, and `retryScheduled` cleanups each released a row; the trace gives them one after the other; `drained` means no cleanup row is waiting |
| `AgentCleanup.AgentSessionCleanupConsumer.DrainAll` | worker/main.py:263-286 | a limit above the outstanding sum always drains |
| `CleanupProtocol.StepKeeps` | worker/outbox.py:37-174 | every step of every worker, dispatcher, publisher of rows, operator or verification run keeps the protocol's invariant |
| `CleanupProtocol.Fencing` | worker/outbox.py:37-174 | in every run an outcome follows its own grant with no other grant between, and each token writes at most one |
| `CleanupProtocol.StaleSettleIsNothing` | worker/outbox.py:96-174 | a settle under a superseded token changes neither table nor history |
| `CleanupProtocol.Conservation` | worker/dead_letter.py:150-187 | in every run claims granted are attempts plus audited attempts, dead-letterings are audit lines plus one if dead now |
| `CleanupProtocol.NoFalseCleanup` | worker/agent_cleanup.py:85-118 | in every run a published cleanup row had a delete of its own payload return under the settling claim |
| `CleanupProtocol.NoLostRow` | worker/outbox.py:48-94 | in every run a cleanup row is claimable if and only if it is pending or its claim is 45 seconds old |
| `CleanupProtocol.BoundedRetries` | worker/agent_cleanup.py:100-111 | in every run at most four retries follow an insertion or reprocessing, exhaustion takes five attempts |
| `CleanupProtocol.TerminalStates` | worker/dead_letter.py:132-187 | published rows never change, dead letters change only by an audited reprocess after exhaustion, payloads never; only rows of other topics that were never audited are removed |
| `CleanupProtocol.PublishedForEver` | worker/outbox.py:48-121 | a published row is the same at the end of every run if it was not removed, and a cleanup row is never removed |
| `CleanupProtocol.AnsweredAlike` | worker/dead_letter.py:109-131 | a reprocess request answered once is answered alike after every further run |
| `CleanupProtocol.CleanupIsThreeSteps` | worker/agent_cleanup.py:85-118 | the consumer's undisturbed cleanup is a run of claim, delete and settle of the protocol |
| `CleanupAnswers.StepAnswers` | worker/agent_cleanup.py:85-118 | every step of every participant keeps it that outcomes answer deletes, and that no claim tries two |
| `CleanupAnswers.OutcomeAnswersDelete` | worker/agent_cleanup.py:92-118 | in every run an outcome answers the one delete tried under its claim: published if and only if it returned, its scope invalid if and only if it was refused, at whatever attempt, released for 2, 4, 8 or 16 seconds if and only if it failed before the fifth attempt since the last reset, exhausted if and only if it failed then or later; a payload that names no session is only ever answered by its own code |
| `CleanupAnswers.SettleConcludes` | worker/agent_cleanup.py:92-126 | in every run the settle of a worker that still holds its claim leaves the row as the delete that it tried asks |
| `JsonText.TextRoundTrip` | agents/src/input-digest.ts:4-16 | a parser reading the text of a value gives the value back |
| `CanonicalJson.Utf16Injective` | agents/src/input-digest.ts:17-18 | different keys have different code units, so the sort order is strict |
| `CanonicalJson.Utf16Reads` | agents/src/input-digest.ts:18 | reading the code units of a text gives its characters in their order (RFC 2781, section 2.2) |
| `CanonicalJson.CanonicalOrder` | agents/src/input-digest.ts:17-20 | in every object, at whatever position of the text, two keys agree in their UTF-16 code units up to a position where the first ends or has the smaller number (RFC 8785, section 3.2.3) |
| `CanonicalJson.CanonicalLayout` | agents/src/input-digest.ts:4-21 | a list is the texts of its items, an object those of its members in their order, with commas between and nothing else; plain texts are written as they are |
| `CanonicalJson.EscapesShort` | agents/src/input-digest.ts:5-7 | a quote, a backslash and a control character have the short escape if there is one, and else four lower-case digits |
| `CanonicalJson.CanonicalIsNormalText` | agents/src/input-digest.ts:12-20 | the canonical text is the plain text of the value with its members sorted, in the order that `CanonicalOrder` states |
| `CanonicalJson.CanonicalRoundTrip` | agents/src/input-digest.ts:4-23 | a parser reading the canonical text gives the value with sorted members |
| `CanonicalJson.CanonicalInjective` | agents/src/input-digest.ts:4-23 | canonical texts are equal if and only if the values differ at most in member order |
| `InputDigest.DigestTextExact` | agents/src/input-digest.ts:25-49 | two tasks have the same digest text if and only if all projected fields agree |
| `InputDigest.DigestTextReads` | agents/src/input-digest.ts:25-49 | read back, the digest text is an object of exactly the sixteen projected fields, with their values |
| `InputDigest.EditsKeepDigest` | agents/src/dispatcher.ts:167-184 | transport, trace and repair edits in any sequence keep the digest text and its acceptance |
| `InputDigest.RepairContextExactly` | agents/src/dispatcher.ts:167-184 | a repair carries the first 65536 characters of the answer, its digest, and the first fifty errors |
| `InputDigest.ProjectionTextUnordered` | api/app/agents/task_factory.py:56-58 | projecting the same fields in another order gives the same canonical text |
| `CollatedJson.SameTextSameValue` | agents/src/semantic-evidence-plan.ts:23-35 | whatever the collation, values found the same differ at most in member order |
| `ReferenceCollectors.CollectNamedStrings` | agents/src/generation-constraints.ts:28-42 | the accumulator ends as it began plus the named texts of the value |
| `ReferenceCollectors.CollectNamedStringsLocally` | api/app/agents/boundary.py:694-707 | the local union is the named texts of the value |
| `ReferenceCollectors.CollectEvidenceRecords` | agents/src/generation-constraints.ts:44-56 | setting entries in the given map is merging in the value's records, the last and innermost winning |
| `ReferenceCollectors.CollectEvidenceRecordsLocally` | api/app/agents/boundary.py:638-650 | updating local dictionaries gives the same records |
| `ReferencePositions.NamedExactly` | agents/src/generation-constraints.ts:28-42 | a text is collected if and only if at some position an object has a member with one of the keys that is the text or lists it |
| `ReferencePositions.RecordsExactly` | agents/src/generation-constraints.ts:44-56 | an id is recorded if and only if at some position stands a record of it, and the record kept is the last of them, an inner one coming after the outer one |
| `ReferenceGates.AgentReferencePools` | agents/src/generation-constraints.ts:58-147 | the loops fill each pool with exactly the texts that the kind of task allows, or the code throws |
| `ReferenceGates.PoolsSupported` | agents/src/generation-constraints.ts:58-147 | each pool of the Runtime is within what the Control API supports |
| `ReferenceGates.PoolsExactly` | agents/src/generation-constraints.ts:58-147 | for each kind of task a pool holds exactly the texts that stand at the positions it is filled from; the code throws if and only if a franchise proposal has no single source |
| `ReferenceGates.ValidateReferenceSemantics` | agents/src/semantic-references.ts:66-100 | of each kind, exactly the texts that stand in the result under its keys and are not allowed to the kind of task |
| `ReferenceGates.ValidateSupportedReferences` | api/app/agents/boundary.py:300-384 | of each kind, exactly the texts that stand in the result under its keys and nowhere in the payload where the kind may be named |
| `ReferenceGates.RuntimeImpliesControl` | agents/src/semantic-references.ts:66-100 | no unsupported reference for the Runtime implies none for the Control API, for every task type |
| `ReferenceGates.RuntimeReportsExactly` | agents/src/semantic-references.ts:66-100 | of each kind a text is reported if and only if it stands in the result under a key of that kind and is not allowed to the kind of task |
| `ReferenceGates.ControlReportsExactly` | api/app/agents/boundary.py:300-384 | of each kind a text is reported if and only if it stands in the result under a key of that kind and nowhere in the task's payload where that kind may be named |
| `ReferenceGates.ListPayloadDiverges` | api/app/agents/boundary.py:300-384 | with a list for a payload, which no contract allows, the two differ |
| `ReferenceGates.FlagAssumptions` | agents/src/semantic-references.ts:102-123 | the loops flag exactly the texts that stand as evidence or support, or in an assessment, and whose last record is an assumption |
| `ReferenceGates.FlagsAgree` | api/app/agents/boundary.py:387-421 | the Control API flags exactly the same references unless it raises, which contract-shaped assessments exclude |
| `EvidencePlans.ValidateEvidencePlanSemantics` | agents/src/semantic-evidence-plan.ts:41-143 | the nested loops raise no issue if and only if the plan meets the stated conditions |
| `EvidencePlanGates.CountPerClaim` | api/app/agents/boundary.py:212-214 | the dictionary counts the actions of every claim |
| `EvidencePlanGates.ValidateEvidencePlan` | api/app/agents/boundary.py:141-248 | the checks find no error if and only if the plan meets the stated conditions |
| `PlanRules.RuntimeExactly` | agents/src/semantic-evidence-plan.ts:41-143 | a plan is accepted if and only if each claim is planned once, each plan has support and counter-evidence or goes by SQL, each action has an id of the pool, an allowed tool in its pinned version and the context of its claim, no two actions share an id, and positive limits are kept |
| `PlanRules.ControlExactly` | api/app/agents/boundary.py:141-248 | a complete plan passes if and only if its claim ids are the claims, each once, each action looked at has an allowed tool in its pinned version and the context of its claim, no two share an id, and the limits are kept in total and by plan |
| `EvidencePlanGates.AcceptedAlikeExactly` | agents/src/semantic-evidence-plan.ts:41-143 | an accepted complete plan passes the Control API if and only if its claim ids are texts and its limits as read there are kept |
| `EvidencePlanGates.RuntimePlanImpliesControl` | api/app/agents/boundary.py:141-248 | with positive or absent limits and texts for claim ids acceptance carries over |
| `EvidencePlanGates.NegativeLimitDiverges` | api/app/agents/boundary.py:203-210 | a negative total limit is enforced by the Control API only |
| `IntentGates.IntentOperationBranches` | agents/src/vertex-intent-schema.ts:73-150 | the loop builds the specified branches of all fields, or throws at the first impossible one |
| `IntentGates.ValidateIntentOperation` | agents/src/semantic-validator.ts:216-301 | no issue is raised if and only if span, value and precondition meet the stated conditions |
| `IntentRules.AcceptedExactly` | agents/src/semantic-validator.ts:216-301 | an operation is accepted if and only if its span lies in the input, and it adds a new visible item below eight, removes a present one, unsets a set loss, or sets a value that its field allows and state does not have |
| `IntentGates.AcceptedFitsExactly` | agents/src/vertex-intent-schema.ts:55-150 | an accepted operation fits one of the branches that the schema is made of if and only if it names no unit |
| `IntentRules.ThrowsExactly` | agents/src/vertex-intent-schema.ts:73-150 | the branches cannot be built if and only if state lacks the field, or holds something that no operation could change |
| `IntentRules.FieldExactly` | agents/src/vertex-intent-schema.ts:73-150 | an operation fits a branch of a field if and only if it is about that field, names no unit, and meets the rule of the field |
| `IntentRules.FitsExactly` | agents/src/vertex-intent-schema.ts:73-150 | it fits one of all branches if and only if its field may change and it meets that field's rule |
| `IntentSchema.DistinctIntentPropertySchemas` | agents/src/vertex-intent-schema.ts:152-160 | the loop collects the distinct schemas that the branches have for a property, in order |
| `IntentSchema.AcceptedMeetsSentExactly` | agents/src/vertex-intent-schema.ts:162-200 | an accepted operation meets the property unions that are sent if and only if it names no unit |
| `IntentRules.SentExactly` | agents/src/vertex-intent-schema.ts:162-200 | an operation meets what is sent if and only if its identifier and field are in their pools, its kind, expected value and new value are each allowed by some field, and it names no unit |
| `IntentSchema.UnitAcceptedNotSent` | agents/src/vertex-intent-schema.ts:200 | setting the unset funds to 5 with unit KRW is accepted by the validator and rejected by the schema sent |
| `IntentSchema.ValidateIntent` | agents/src/semantic-validator.ts:303-324 | the loop accepts a result if and only if identifiers and fields are in their pools, each operation is accepted, and no field occurs twice |
| `IntentRules.ResultExactly` | agents/src/semantic-validator.ts:303-324 | a result is accepted if and only if every operation has an identifier and a field of its pool and meets the rule where state has the field, and no two have one field |
| `IntentSchema.AcceptedKeepsMaxItems` | agents/src/vertex-intent-schema.ts:185 | an accepted result keeps the number of operations that is sent if and only if there are at most as many as identifiers, which may repeat |
| `IntentGates.AcceptedFollowsRule` | agents/src/generation-constraints.ts:186-214 | an accepted operation follows its field's advertised rule and the schema's span bounds |
| `IntentRules.RuleExactly` | agents/src/generation-constraints.ts:186-214 | the advertised rule names exactly the kinds of operations that the field's branches have |
| `Ranking.ParseRankingResponse` | rag/src/vertex-rag-backend.ts:152-188 | the walk accepts or refuses row by row, with the ids observed before each |
| `Ranking.AcceptedReorders` | rag/src/vertex-rag-backend.ts:152-188 | an accepted response yields the contexts in an order of their indices, only scores changed |
| `Ranking.AcceptedExactly` | rag/src/vertex-rag-backend.ts:139-188 | a response is accepted if and only if it is a scored reordering of the request; then no context is missing |
| `Ranking.AnyReorderingAccepted` | rag/src/vertex-rag-backend.ts:139-150 | the built request's records, scored and returned in any order, are accepted |
| `RuntimeStreams.StreamQuery` | api/app/agents/runtime.py:357-447 | the stream gives its events if and only if it ends in time and unbroken with every line readable, and else raises what its first obstacle raises |
| `RuntimeRules.LineExactly` | api/app/agents/runtime.py:411-424 | a line holds an event if and only if it is an object whose one member is the event, or one with an author and content or with an error |
| `RuntimeRules.EventsExactly` | api/app/agents/runtime.py:403-424 | the events are those of the lines that hold one, in their order |
| `RuntimeRules.ThroughExactly` | api/app/agents/runtime.py:376-447 | a stream gets through if and only if it is answered, ends unbroken and in time, and every line leaves more than two seconds and is blank or holds an event |
| `RuntimeRules.RaisedExactly` | api/app/agents/runtime.py:376-447 | which failure ends a stream that does not |
| `RuntimeStreams.SelectFinalText` | api/app/agents/runtime.py:503-535 | a text is selected if and only if one event is final and all others are partial; cleanup is reported uncertain if and only if the first refused event reports it |
| `RuntimeRules.ReadExactly` | api/app/agents/runtime.py:503-535 | an event is refused for what its error says or because it is not the agent's, it is partial, or its one part is a visible text without a code fence |
| `RuntimeStreams.RaiseForHttpStatus` | api/app/agents/runtime.py:538-565 | a status can be retried if and only if it is 408, 429 or 5xx and the provider did not time out |
| `RuntimeRules.StatusExactly` | api/app/agents/runtime.py:538-574 | what each status comes to, the provider's own code before it |
| `TransportRetries.RuntimeClient.InvokeOnce` | api/app/agents/runtime.py:301-342 | the outbox gains the session if and only if the recorded readings, reply and events make it uncertain and the sink works; what returns, what can be retried, and how it fails otherwise are decided by them as well |
| `TransportRetries.RuntimeClient.WaitBeforeRetry` | api/app/agents/runtime.py:576-590 | a sleep ends two seconds before the deadline, counted from the second reading, or does not begin because it would not |
| `TransportRetries.RuntimeClient.InvokeWithTransportRetries` | api/app/agents/runtime.py:280-299 | an attempt takes place if and only if all before it failed in a way that can be retried, with time left; only such attempts hand over sessions, the text of a completed one is returned, and a failure is that of the last attempt, of the want of time or attempts, or of a task that breaks its contract |
| `RuntimeRules.RetryExactly` | api/app/agents/runtime.py:425-447 | an attempt can be retried if and only if it began with time for its stream and in that time met a network error or a status that can be retried |
| `RuntimeRules.ReachedExactly` | api/app/agents/runtime.py:280-299 | an attempt takes place if and only if its task and all before it meet the contract, and every attempt before it can be retried and leaves two seconds by each reading |
| `RuntimeRules.HandedNamesSession` | worker/agent_cleanup.py:127-134 | the payload handed to the outbox is one that the consumer takes for the session of the attempt |
| `TransportRetries.QueuedExactly` | api/app/agents/runtime.py:280-342 | after the call an attempt's session is in the outbox if and only if the attempt took place, made it uncertain, and the sink worked |
| `CleanupReports.NamedByTheServer` | agents/src/runtime-error.ts:38-72 | the server names a failed deletion if and only if the agent ended with no other error |
| `RuntimeRules.ServerExactly` | agents/src/runtime-error.ts:38-72 | the status and code that the client is told of each error |
| `CleanupReports.FailedDeletionHanded` | agents/src/runtime-stream-bridge.ts:60-96 | a session that could not be deleted is handed over if and only if the stream was late, broke off, or brings the report where the client reads it |
| `CleanupReports.ReportsLost` | docs/contracts/agent-runtime-protocol.md:106 | a stray event, an error of the agent, and a passed deadline each lose a report that arrives |
| `Migrations.ReadTextExact` | api/app/migrations.py:38-39 | reading changes a file's text if and only if it holds a carriage return |
| `Migrations.ReadTextBreaks` | api/app/migrations.py:38 | a carriage return, with the line feed behind it if there is one, is read as a line feed, and everything else as it is |
| `Migrations.PiecesExactly` | api/app/migrations.py:52-56 | the pieces with the statement breaks between them are the text, and none of them holds a break |
| `Migrations.MigrationRunner.ApplyMigrations` | api/app/migrations.py:22-61 | a run cut at any transaction applies its files in order up to the first changed one |
| `Migrations.MigrationRunner.VerifyMigrations` | api/app/migrations.py:64-96 | succeeds if and only if the applied names are those of the files, and each has the checksum of its file's bytes |
| `Migrations.MigratesOnce` | api/app/migrations.py:37-61 | after any series of cut runs a prefix is applied, and a full run ends with every statement executed once in order |
| `Migrations.VerifiesExactly` | api/app/migrations.py:64-90 | then verification succeeds if and only if no file holds a carriage return |
| `Migrations.ChangedFileStops` | api/app/migrations.py:45-50 | a changed applied file stops a run before any new statement |
| `AreaSearch.RankAndDeduplicate` | mcp/src/connectors.ts:227-249 | the map loop, the sort and the cut give the specified list |
| `AreaSearch.DeduplicatedExact` | mcp/src/connectors.ts:233-239 | exactly the first best row of every code is kept |
| `AreaSearch.TopCodes` | mcp/src/connectors.ts:227-249 | distinct codes, ordered, as many as there are up to the limit, none left out that had to come before |
| `CostReferences.ValidateSnapshot` | mcp/src/cost-reference.ts:135-168 | the grouping and the checks of neighbours decide the stated conditions |
| `CostReferences.ValidExactly` | mcp/src/cost-reference.ts:135-168 | a snapshot passes if and only if ids differ, ranges are ranges, and ranges of one type are pairwise disjoint |
| `CostReferences.SelectsUniquely` | mcp/src/cost-reference.ts:316-320 | a date selects at most one reference of each type |
| `CostReferences.OkExactly` | mcp/src/cost-reference.ts:321-326 | for a request that is not empty the status is OK if and only if every type asked for has a reference in force on the date, and NOT_FOUND if and only if none has |

## Left out

- ToolSchemaMeaning.DereferencePreservesMeaning: asks that references stand only in positions where the standard applies schemas, because the code also rewrites objects with a `$ref` key inside `enum`, `const` and the like. Properties evaluated by keywords that the contracts do not use (`patternProperties`, `dependentSchemas`) are not counted.
- SchemaReferences.ReferenceLeadsTo: leaves out the path of the single empty name, which the code reads as the root; `PointerAddresses` shows that it is the only one.
- ToolSchemas.DereferenceLeavesNoReference: asks that no `$ref` member holds an object that is itself a reference; `ReferenceMade` shows why.
- ProjectionTheorem.ProjectSound: the induction behind the next, on the same schemas.
- ProjectionTheorem.ProjectionWeakens: holds on the schemas that `Supported` describes; where the projection gives up or splits a `oneOf`, the exact conditions are those of `LooseExact`, `OneOfAtTheLimitExactly` and `OneOfWeakensExactly`, which speak of schemas without parts to merge.
- ProjectionParts.ProjectionRequires: is about schemas whose objects have each key once and whose `required` are lists, as the standard demands; another value replaces the names before it.
- ProjectionReferences.ReferencesExactly: is about schemas whose objects have each key once and no parts to merge; merging only overwrites, so that a part's reference can disappear.
- AgentCleanup.AgentSessionCleanupConsumer.Drain: is about one worker undisturbed; with others at work a lost claim raises and ends the request, and the protocol's theorems apply.
- ReferenceGates.RuntimeImpliesControl: asks for a payload that is not a list; `ListPayloadDiverges` shows why.
- EvidencePlanGates.NegativeLimitDiverges: is about a task that the input contract forbids, with its minimum of 1 for both limits.
- EvidencePlanGates.ValidateEvidencePlan: values that the Control API iterates over are lists, as the contracts demand; for null it would raise. Equality of JSON values is equality up to member order, while Python also equates 1 with true.
- IntentSchema.AcceptedMeetsSentExactly: is about the six properties that are written over those of the contract; the bounds of three ambiguity codes, three questions, one workflow code and five risk flags are set by the schema alone, which neither the contract nor the validator does.
- TransportRetries.RuntimeClient.InvokeOnce: the parsing of header dates and of server-sent lines, tokens and telemetry are inputs; a session id is the invocation id behind its prefix, its truncated digest being injective here. A sink that fails is taken not to have written.
- Other keywords that apply subschemas (`contains`, which the contracts use without references; `dependentSchemas`, `patternProperties`, `propertyNames`, which they do not use) are read through the parameter for keywords that look at the instance alone.
- References in the meaning of a schema are resolved by the code's own rules; the `$id` and `$anchor` keywords are not.
- Percent-decoding of fragments is a parameter; names inherited from the prototype of a JavaScript object are not members here.
- Integer-like keys, which JavaScript moves to the front of an object, keep their place; a key that occurs twice in an object does not occur in the theorems on texts.
- Numbers are integers; fractions, exponents and non-finite numbers are left out, as are lone surrogates. Text lengths are counted in code points.
- Unicode normalisation, the scoring of addresses and the Korean collation are parameters or left out.
- The error messages and the paths of issues; only their kinds are modelled.
- `normalizeVertexEvidencePlanResult` and the other edits of generated schemas in place, which are sequences of simple assignments.
- The control flow of `dispatchAgentTask` around the repair, and `assertResultEcho`: flat conditions.
- The values of cost references, besides ids, types and dates: flat checks of each reference by itself.
- Statement failures inside a migration's transaction count as a run cut before that file; two runs at once are left out.
- SHA-256 and HMAC are injective constructors or arbitrary functions; the database is a map with one transaction a step; HTTP, telemetry, token generation and clocks are parameters.
- The workflow engine, the user interface, authentication, deployment checks and the remaining connectors.
