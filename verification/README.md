# Codex Memory: a verified model

This project models the parts of Codex Memory that other parts rely on, and proves what
they are relied on for. It covers four connected cores and a few algorithms:

* **OpenAPI contracts** (`api_operations.py`, `contract_revisions.py`). Translation of
  OpenAPI 3.0.3 schemas to 3.1, canonical form, JSON Pointers, `$ref` resolution, the
  operations of a document, and the published history of a service.
* **The job queue** (`pipelines/v11_worker.py`, the admin endpoints of `api/http_api.py`).
  Dispatch, claim, heartbeat, complete, fail, sweep, retry, cancel and the replays.
* **Delivery** (`local_outbox.py`, `api/v1_service.py`). A client file outbox in front of an
  idempotent server append, with crashes, lost answers and dead letters.
* **The candidate gate** (`pipelines/v11_candidates.py`, `pipelines/v11_handlers.py`, the
  review endpoint). When a candidate becomes a memory.
* **Smaller algorithms**. The context packer and hybrid ranking (`pipelines/v11_retrieval.py`),
  the token budget and output quota (`codex_cli_runner.py`), the report projection and the
  text truncation (`v14_service.py`, `hook_events.py`).

Each stateful component has a state datatype, functions that say what one transaction does
to it, a class that performs the transaction field by field and loop by loop and is proved
against those functions, and lemmas about every run. A database transaction is one atomic
step; a row's id is its index in its table; the rows a query returns, the clock and the
network are parameters. Documents are ordered objects, so key order is part of a value.

The files, in reading order: `Prelude`, `Json`, `KeyOrder`; `SchemaNormaliser`,
`SchemaProcedure`, `SchemaMeaning`, `MeaningPreservation`, `CanonicalForm`, `KeywordKinds`,
`SchemaResidue`, `CleanSchemas`, `TranslationPlace`; `JsonPointer`, `RefResolution`;
`DocumentImage`, `KeywordPositions`, `TranslationRefusals`, `TranslatedDepth`, `TranslatedRefs`, `DocumentFrames`, `TranslatedResidue`,
`DocumentResidue`; `MovedReferences`, `CanonicalMeaning`, `MisplacedSchemas`,
`DocumentMeaning`, `ContractPipeline`, `UploadedTwice`, `DivertedReferences`;
`OperationCatalogue`, `CatalogueAnswers`, `OperationIdentity`, `ContractRevisions`,
`RevisionAnswers`; `JobQueue`, `JobGuarantees`, `JobRuns`, `JobAnswers`; `ClientOutbox`,
`MessageArchive`, `Delivery`; `CandidateGate`, `CandidateRuns`, `CandidateAnswers`;
`ContextPacker`, `HybridRanking`, `RankingAnswers`, `TokenLedger`, `OutputQuota`,
`ReportProjection`, `ReportAnswers`, `Utf8Truncation`. `dafny verify dfyconfig.toml` verifies all of them.

The table lists the methods with loops and the lemmas. The transactions without a loop
(heartbeat, complete, fail, retry, cancel and the replays of the queue; reserve, finalise and
release of the ledger; the decisions of the gate; creating and publishing a revision;
enqueueing, appending and handling events; the reader's buffer) are methods too, proved equal
to the transition functions that the lemmas about runs speak of.  What each operation
answers, and when, is stated a second time, condition by condition and field by field, in the
modules whose names end in `Answers` and in the lemmas whose names end in `Exact`.

## Where the code does less than one might expect

Each of these is stated for all inputs, with exactly when it happens, and has an input that
shows it.

* **References move.** That every `$ref` resolves is checked before the translation, which
  puts a nullable schema without a `type` into an `anyOf` list and drops keywords.
  `MovedReferences.ReferenceExact` says what any reference finds afterwards,
  `MovedReferences.ReferenceSurvives` which references still resolve, and
  `DocumentMeaning.CarriedExact` which lead to the translation of what they led to before.
  A reference into a property of such a schema is lost (`MovedReferences.ReferenceLost`), and
  with it the meaning of the schema that makes it (`DocumentMeaning.MeaningLost`). A
  reference to one of the alternatives such a schema has of its own comes to something else:
  to the whole schema, to the null schema, or to nothing (`DivertedReferences.AlternativeExact`,
  `DivertedReferences.ReferenceDiverted`).
* **A normalised document need not be accepted again.** Up to the canonical form, that is
  through the walk, the reference check and the translation, it is accepted exactly when its
  references survive and the levels the translation adds do not carry it beyond the limit
  (`ContractPipeline.ParsedAgain`). Both can fail (`UploadedTwice.RefusedForReference`,
  `UploadedTwice.RefusedForDepth`).
* **Names are read as data.** Any key named `default`, `value`, `enum`, `const` or `example`,
  or starting with `x-`, is taken for data, even when it names a response or a header, and one
  named `schema` is taken for a schema. The output has no `nullable` and no boolean exclusive
  bound left exactly when the entries misread as data had none, and those misread as schemas
  are left none by that (`DocumentResidue.NormalizedResidueExact`); otherwise they keep them
  (`DocumentResidue.MisreadNamesKeepNullable`, `DocumentResidue.HeaderNamedSchema`).
* **Pointers.** The text `_json_path` writes leads back to the node exactly when the path is
  not empty (`JsonPointer.PathTextExact`). Evaluation is that of sections 3 and 4 of RFC 6901
  except where it resolves a list index with a leading zero, or a stray `~`
  (`JsonPointer.StandardExact`, `JsonPointer.LeadingZeroAccepted`).
* **The job ledger and budget.** Cancelling a running job leaves its attempt in progress;
  replaying it then puts two in progress (`JobRuns.LedgerExact`, `JobRuns.TwoAttemptsInProgress`).
  A step keeps every job within `max_attempts` exactly when each job it puts back has an
  attempt left (`JobRuns.BudgetExact`, `JobRuns.StepBudgets`).
* **Doomed keys.** An event whose key normalises to the text of another stored key (spaces,
  hyphens and letter case are the same there), or does not normalise at all, is answered with
  a server error at every attempt, so its record stays pending through every replay in which
  no request of the project is rejected outright
  (`MessageArchive.FailsExactly`, `MessageArchive.DoomedKeys`, `Delivery.WaitsForEver`); no
  other record does (`Delivery.SettlesUnlessDoomed`).
* **Context.** Headings are added after the last size check: a context is within its budget
  exactly when it was before any L1 item was offered (`ContextPacker.WithinBudgetExact`,
  `ContextPacker.FrameExceedsBudget`). Items of an unknown level vanish without raising the
  truncation flag (`ContextPacker.TruncationExact`, `ContextPacker.UnknownLevelVanishes`).
* **Midnight.** A settlement keeps the day's balance exactly when the reservation was made
  that day, or there is nothing to take off or to take it from (`TokenLedger.SettlementExact`,
  `TokenLedger.MidnightLosesBalance`).
* **Truncation.** Truncated text exceeds a limit below three bytes (`Utf8Truncation.TruncatedFits`).
* **Reports.** A report carries the run's Git baseline. The order in which a baseline event and
  an ending event are delivered shows in the report exactly when the run does not yet know
  whether Git is available and the event would change its baseline; whether the report is
  uncertain differs exactly when the two baselines differ in that, and nothing else does
  (`ReportProjection.BaselineOrderExact`). A clean baseline is enough
  (`ReportProjection.CleanBaselineShows`). That the report exists once does not depend on it.

## Model

| member | source | states |
|---|---|---|
| `MeaningPreservation.MeaningPreserved` | src/codex_memory/api_operations.py:271-327 | For every well-formed 3.0.3 schema that is not refused, every value, every reference depth and every reading of the shared keywords: the 3.0.3 reading accepts the value iff the 2020-12 reading of the output does, whenever each reference leads on the one side to the translation of what it leads to on the other. |
| `MeaningPreservation.NullableTypePreserved` | src/codex_memory/api_operations.py:316-321 | `nullable: true` with a `type` means the same as the type array with `null` that replaces it. |
| `MeaningPreservation.LowerBoundPreserved` | src/codex_memory/api_operations.py:304-315 | A boolean exclusive minimum and the number that replaces it exclude the same values. |
| `MeaningPreservation.UpperBoundPreserved` | src/codex_memory/api_operations.py:304-315 | The same for the maximum. |
| `SchemaResidue.SchemaClean` | src/codex_memory/api_operations.py:271-327 | A translated schema has no `nullable` and no boolean exclusive bound in any schema position, at any depth. |
| `SchemaResidue.TranslatedDocumentIsClean` | src/codex_memory/api_operations.py:246-268 | Neither has a translated document anywhere the translation looks, which leaves out everything below a key it reads as data. |
| `TranslatedResidue.AfterExact` | src/codex_memory/api_operations.py:246-327 | For every value, however it is translated and however it is read: its translation has no residue iff what the translation leaves of it, read off the source, has none. |
| `DocumentResidue.NormalizedResidueExact` | src/codex_memory/api_operations.py:246-268 | Going by where responses, headers, parameters and media types stand, and not by their names: a normalised 3.0.3 document has no residue in any schema position iff the entries misread as data had none in the source, and those misread as schemas are left none by that. |
| `DocumentResidue.EntryResidue` | src/codex_memory/api_operations.py:254-267 | For one response, header or the like: its translation has no residue iff it had none itself, when its name reads as data; iff its translation as a schema leaves none, when it is named `schema`; and otherwise iff the entries misread inside it satisfy the same. |
| `DocumentResidue.MisreadNamesKeepNullable` | src/codex_memory/api_operations.py:263-265 | An entry whose name reads as data, such as a header `x-rate-limit` or a response `default`, keeps `nullable` in its schema, which is residue. |
| `DocumentResidue.HeaderNamedSchema` | src/codex_memory/api_operations.py:256-257 | A header that is itself named `schema` keeps `nullable` in its schema, which is residue. |
| `DocumentResidue.NamedSchemaNeeds` | src/codex_memory/api_operations.py:256-257 | Such a header is left without residue only if its own schema had neither keyword. |
| `DocumentResidue.CanonicalRealClean` | src/codex_memory/api_operations.py:65-70 | Key order has nothing to do with residue: a document has none iff its canonical form has none. |
| `SchemaProcedure.TranslateSchema` | src/codex_memory/api_operations.py:271-327 | Filling and popping a dict in loops computes the recursive translation, refusals included. |
| `SchemaProcedure.TranslateDocument` | src/codex_memory/api_operations.py:246-268 | The same for documents. |
| `TranslationRefusals.SchemaRefusedExact` | src/codex_memory/api_operations.py:271-327 | A schema is translated iff, in every schema position at any depth, each exclusive bound that is `true` stands next to a number under its own bound, and a nullable schema's list of types holds no list or object; the refusal names the first position that fails, children first and the lower bound before the upper. |
| `TranslationRefusals.DocumentRefusedExact` | src/codex_memory/api_operations.py:246-327 | The same for a whole 3.0.3 document; a document of another version is never refused. |
| `KeywordPositions.KeywordTranslated` | src/codex_memory/api_operations.py:279-302 | By name: five keywords and the extensions hold data, which is only sorted; five hold schemas by name, four a list of them and ten one schema, and these are translated one by one. |
| `KeywordPositions.MemberTranslated` | src/codex_memory/api_operations.py:254-267 | By name: in an OpenAPI object `schema` and the component schemas are translated as schemas, and five keys and the extensions are only sorted. |
| `KeywordPositions.DistinctInOrder` | src/codex_memory/api_operations.py:321-323 | Of equal types in the list of types the first stays, and those that stay keep their order. |
| `CanonicalForm.CanonicalIdentifies` | src/codex_memory/api_operations.py:65-70 | Two documents have the same canonical form iff they differ in key order only, at any depth. |
| `CanonicalForm.CanonicalIdempotent` | src/codex_memory/api_operations.py:65-70 | A canonical document is left alone. |
| `CanonicalForm.KeyOrderDoesNotMatter` | src/codex_memory/api_operations.py:511-515 | Documents that differ only in key order normalise to the same document, or are both refused. |
| `CanonicalForm.NormalizedIsFixedPoint` | src/codex_memory/api_operations.py:511-515 | The translation and the canonical form leave a normalised document, now 3.1.0, unchanged. |
| `JsonPointer.EscapeRoundTrip` | src/codex_memory/api_operations.py:107 | Unescaping undoes escaping for keys with any mix of `~`, `/`, `~0` and `~1`, and an escaped key has no `/`. |
| `JsonPointer.PointerRoundTrip` | src/codex_memory/api_operations.py:106-108 | For every non-empty path into a document, `#` and the escaped path evaluate to exactly the node the path leads to. |
| `JsonPointer.JsonPathIsInjective` | src/codex_memory/api_operations.py:106-108 | Different paths into one document are written differently. |
| `JsonPointer.TokensReachANode` | src/codex_memory/api_operations.py:218-227 | Whatever the tokens evaluate to is a node of the document, reached by a path of that length. |
| `JsonPointer.EvaluatePointer` | src/codex_memory/api_operations.py:213-227 | The loop over tokens evaluates the pointer, or fails exactly when a step has no child. |
| `JsonPointer.PathTextExact` | src/codex_memory/api_operations.py:106-108 | For every document and every path into it: the text written for the path leads to its node iff the path is not empty. |
| `JsonPointer.StandardExact` | src/codex_memory/api_operations.py:213-227 | Every reference evaluates as sections 3 and 4 of RFC 6901 say, unless it resolves with a leading zero on a list or with a `~` that is followed by neither 0 nor 1. |
| `JsonPointer.LeadingZeroAccepted` | src/codex_memory/api_operations.py:223-224 | `01` is read as index 1. |
| `JsonPointer.LeadingZeroRefused` | src/codex_memory/api_operations.py:223-224 | The standard reads no element there. |
| `RefResolution.Walk` | src/codex_memory/api_operations.py:185-210 | The traversal appends the references of a value in document order, or reports the first rejection. |
| `RefResolution.WalkAccepts` | src/codex_memory/api_operations.py:185-210 | A value is accepted iff it is nested at most 64 deep and every `$ref` is a local string; the references collected are then exactly those in it. |
| `RefResolution.MeasureDrops` | src/codex_memory/api_operations.py:230-238 | Each recursive call leaves fewer document references off the stack, which bounds resolution of mutually cyclic references. |
| `RefResolution.ResolveAccepted` | src/codex_memory/api_operations.py:230-243 | On an accepted document resolution never fails; an object result has no top-level `$ref`, and each other key has the value of the nearest definition along the references followed. |
| `RefResolution.PointerCanonical` | src/codex_memory/api_operations.py:65-70 | Canonical form alone moves no node: every pointer finds the canonical form of what it found. |
| `DocumentImage.TrailExact` | src/codex_memory/api_operations.py:246-327 | For any tokens and any position: the translation has a node there iff the trail taken on the source has a position, and it is the translation of that position. |
| `MovedReferences.ReferenceExact` | src/codex_memory/api_operations.py:498-515 | What any reference finds in a normalised 3.0.3 document, if anything, read off the source. |
| `MovedReferences.ReferenceSurvives` | src/codex_memory/api_operations.py:500-511 | Every reference that resolves in the source resolves after the translation iff no step of it enters a wrapped schema, a keyword that is gone, or a `type` array beyond its end; or, where it enters the `anyOf` of a wrapped schema, iff the rest of it leads somewhere in what stands there now. |
| `MovedReferences.ComponentSchema` | src/codex_memory/api_operations.py:258-262 | The pointer to a component schema finds the canonical form of its translation. |
| `MovedReferences.WrappedComponent` | src/codex_memory/api_operations.py:316-326 | Every reference below a nullable component without a type is lost, unless it enters the component's own `anyOf`. |
| `MovedReferences.ReferenceLost` | src/codex_memory/api_operations.py:498-515 | A document whose one reference resolves, and does not after the translation. |
| `CanonicalMeaning.CanonicalAccepts` | src/codex_memory/api_operations.py:65-70 | The canonical form of a schema, with references to canonical forms, accepts what the schema accepts, in either dialect, at every depth and on every value. |
| `DocumentMeaning.CleanSchemaKept` | src/codex_memory/api_operations.py:271-327 | A schema without residue is translated to itself, up to key order. |
| `TranslationPlace.SchemaByPlace` | src/codex_memory/api_operations.py:271-327 | Anywhere but at the root a schema has the same translation, or is refused. |
| `MisplacedSchemas.DocumentAgrees` | src/codex_memory/api_operations.py:246-327 | A well-formed schema translated as an OpenAPI value, if that leaves no residue, is translated as a schema, up to key order. |
| `DocumentMeaning.CarriedExact` | src/codex_memory/api_operations.py:246-327 | Every reference to a well-formed schema leads after the translation to the translation of that schema iff no step of it bends and the schema is treated as one where it stands, or is taken for data or for an OpenAPI value and left without residue; or, if it enters the `anyOf` of a wrapped schema, iff what it comes to has the same translation. |
| `DivertedReferences.DivertedLanding` | src/codex_memory/api_operations.py:316-326 | A reference that enters the `anyOf` of a wrapped schema goes on in the whole inner schema after a 0, in the null schema after a 1, and nowhere otherwise. |
| `DivertedReferences.AlternativeExact` | src/codex_memory/api_operations.py:316-326 | A reference to an alternative of a wrapped schema: the first finds the whole inner schema, and never its own translation; the second finds the null schema, which is its translation iff it says no more than `type: null`; any later one finds nothing. |
| `DivertedReferences.ReferenceDiverted` | src/codex_memory/api_operations.py:316-326 | A reference to a text comes to a text or a number. |
| `DocumentMeaning.DocumentMeaningPreserved` | src/codex_memory/api_operations.py:498-515 | With the references read from the document on both sides and all carried over: what a schema of the document accepts under 3.0.3 is what the schema in its place in the normalised document accepts under 2020-12. |
| `DocumentMeaning.ComponentsKeepTheirMeaning` | src/codex_memory/api_operations.py:498-515 | With references to whole, well-formed component schemas only, each of them accepts after the translation what it accepted before: nothing else need be assumed. |
| `DocumentMeaning.MeaningLost` | src/codex_memory/api_operations.py:316-326 | A schema that refers to a property of a nullable schema without a type accepts text before the translation, and nothing after it. |
| `TranslatedDepth.DepthExact` | src/codex_memory/api_operations.py:246-327 | The nesting of the translation, read off the source: a wrapped schema adds two levels, a type array one, and the keywords that are gone add none. |
| `TranslatedRefs.RefsExact` | src/codex_memory/api_operations.py:246-327 | The references of the translation are exactly those of the source outside the keywords that are gone. |
| `TranslatedRefs.LocalKept` | src/codex_memory/api_operations.py:246-327 | They are local if those of the source are. |
| `ContractPipeline.Parse` | src/codex_memory/api_operations.py:498-515 | The walk, the loop over the references and the normalisation report the first failure or the normalised document. |
| `ContractPipeline.ParsedExact` | src/codex_memory/api_operations.py:498-515 | A document is accepted iff it is nested at most 64 deep, its references are local and resolve, it has a version, and every schema in it can be translated; if only the last fails, the refusal names the first schema that cannot. |
| `ContractPipeline.NormalizedAccepted` | src/codex_memory/api_operations.py:511-516 | What resolution needs of the normalised document holds iff every reference still made in it survives. |
| `ContractPipeline.ParsedAgain` | src/codex_memory/api_operations.py:498-515 | The normalised form of an accepted 3.0.3 document is accepted iff it is not too deep and its references survive; it is then unchanged, and otherwise refused as too deep or for a reference. |
| `ContractPipeline.ParsedAgainPlain` | src/codex_memory/api_operations.py:498-515 | The normalised form of an accepted 3.1 document is always accepted, and unchanged. |
| `ContractPipeline.OperationsResolve` | src/codex_memory/api_operations.py:372-403 | Where every reference resolves, reading the operations meets none that does not. |
| `UploadedTwice.RefusedForReference` | src/codex_memory/api_operations.py:500-506 | An accepted document whose normalised form is refused for a reference. |
| `UploadedTwice.RefusedForDepth` | src/codex_memory/api_operations.py:185-188 | An accepted document, 64 levels deep, whose normalised form is refused as too deep. |
| `OperationCatalogue.CollectItem` | src/codex_memory/api_operations.py:384-402 | The inner loop reads the methods of one path item, stopping at the first error. |
| `OperationCatalogue.CollectOperations` | src/codex_memory/api_operations.py:372-403 | The nested loops read all path items in key order. |
| `OperationCatalogue.OperationsAreCatalogue` | src/codex_memory/api_operations.py:378-403 | An accepted document yields each route once and each operation id once, at most 500, each standing in the document where its route says. |
| `OperationCatalogue.OperationsComplete` | src/codex_memory/api_operations.py:378-403 | Every method of every path item is among them. |
| `CatalogueAnswers.OperationsExact` | src/codex_memory/api_operations.py:372-403 | A document yields its operations iff every path item resolves, every method of one is an operation with an id and texts for tags, no two share an id, and there are at most 500; they then are all of these in the order of the paths and of the methods. |
| `CatalogueAnswers.MethodsExact` | src/codex_memory/api_operations.py:18-19 | The methods of a path item are the eight HTTP methods that some key of it spells, in any case. |
| `CatalogueAnswers.IdExact` | src/codex_memory/api_operations.py:388-391 | There is an id iff `operationId` is a text that is not blank, and it is that text without its outer white space. |
| `OperationIdentity.ValidateTransition` | src/codex_memory/api_operations.py:406-418 | The two tables and the loop report the first changed id, or all route warnings in order. |
| `OperationIdentity.TransitionExact` | src/codex_memory/api_operations.py:410-414 | A transition is accepted iff every known route keeps its operation id; an error names the route with its former and its new id. |
| `OperationIdentity.TransitionWarns` | src/codex_memory/api_operations.py:415-418 | The warnings are exactly the ids that moved from one route to another. |
| `ContractRevisions.ContractRevisionService.AddService` | src/codex_memory/contract_revisions.py:31-45 | A service is added unless its key is empty or taken in the project. |
| `ContractRevisions.RunInvariant` | src/codex_memory/contract_revisions.py:122-202 | In every reachable state a revision is published iff its service points to it, numbers run 1..n, and hashes are distinct. |
| `ContractRevisions.RunGrows` | src/codex_memory/contract_revisions.py:219-262 | Status moves only from proposed to published to superseded, and nothing else of a revision changes. |
| `RevisionAnswers.PublishExact` | src/codex_memory/contract_revisions.py:219-262 | In every reachable state publishing succeeds iff the service is there in the project, the numbered revision has exactly the expected hash, and it is published already or is a proposal that keeps the published ids; the row answered then has that number and hash and is what the service points to, and otherwise nothing changes. |
| `RevisionAnswers.PublishFound` | src/codex_memory/contract_revisions.py:234-262 | A revision that is there: another hash is a mismatch, a published one is found, a superseded one cannot be published, a changed id is named, and else it is published and the one before it superseded, with nothing else changed. |
| `RevisionAnswers.CreateExact` | src/codex_memory/contract_revisions.py:132-186 | A proposal is found by its hash, refused iff it changes an id published now, and otherwise added as the last row with the next number, the parsed hash and the parsed operations. |
| `RevisionAnswers.PublishedWasAsked` | src/codex_memory/contract_revisions.py:234-261 | After any run, what a service publishes was asked for by its number and by the hash it has. |
| `RevisionAnswers.ServiceKeysDistinct` | src/codex_memory/contract_revisions.py:31-45 | In every reachable state no two services of a project share a key, and none is empty. |
| `ContractRevisions.PublishedRouteKeepsItsId` | src/codex_memory/contract_revisions.py:247-259 | A route in every revision published from the i-th to the j-th keeps one operation id, in whatever order they were proposed. |
| `JobQueue.Queue.DispatchOnce` | src/codex_memory/pipelines/v11_worker.py:46-114 | Each picked event gets a job unless one answers to its key; a refused insert rolls the whole batch back. |
| `JobQueue.Queue.ClaimJobs` | src/codex_memory/pipelines/v11_worker.py:168-213 | Each picked job gets a new attempt, an owner and a lease, and is reported with the number of the attempt. |
| `JobQueue.Queue.SweepExpired` | src/codex_memory/pipelines/v11_worker.py:366-399 | Every running job whose lease has run out is put back or declared dead, and they are counted. |
| `JobGuarantees.StepProjects` | src/codex_memory/pipelines/v11_worker.py:76-399 | Every step moves each job with its attempts and event on its own, and keeps: at most one job per key, per (project, type, idempotency key) and per event; running iff owner and lease are recorded; attempts 1..attempt_count; job succeeded iff event completed. |
| `JobRuns.TraceConsistent` | src/codex_memory/pipelines/v11_worker.py:76-152 | All of that in every reachable state, however often an event is dispatched. |
| `JobAnswers.DispatchExact` | src/codex_memory/pipelines/v11_worker.py:73-152 | A dispatch that goes through leaves every picked event dispatched under a lease with a job for it, of the type and key its event type calls for; new jobs are waiting, due now and for picked events only, and all else is as it was. |
| `JobAnswers.DispatchRefused` | src/codex_memory/pipelines/v11_worker.py:73-112 | It does not go through iff for one of the picked events, after those before it, no job serves and its key is used. |
| `JobAnswers.ClaimExact` | src/codex_memory/pipelines/v11_worker.py:187-213 | A claim starts the next attempt of each picked job under a lease of the given length, and touches neither events nor other jobs. |
| `JobAnswers.HeartbeatExact` | src/codex_memory/pipelines/v11_worker.py:215-227 | A heartbeat under a live lease makes it last its length from now, and does nothing else. |
| `JobAnswers.CompleteExact` | src/codex_memory/pipelines/v11_worker.py:229-254 | A completion under a live lease settles the job, its last attempt and its event; any other changes nothing. |
| `JobAnswers.FailExact` | src/codex_memory/pipelines/v11_worker.py:256-292 | A failure under a live lease puts the job and its event off by min(max_backoff, 2^(attempts-1)) seconds iff it may be retried and has an attempt left, and declares both dead otherwise; any other changes nothing. |
| `JobAnswers.SweepExact` | src/codex_memory/pipelines/v11_worker.py:366-399 | A sweep puts each running job whose lease has run out, and its event, back at once iff it has an attempt left, declares both dead otherwise, abandons its last attempt either way, and leaves every other job as it was. |
| `JobAnswers.SweptRunsAgain` | src/codex_memory/pipelines/v11_worker.py:168-213 | Right after the sweep such a job can be claimed iff it had an attempt left, and then runs its next attempt. |
| `JobAnswers.FailedWaits` | src/codex_memory/pipelines/v11_worker.py:266-270 | After a failure the job can be claimed from exactly the end of the delay on, and never if it may not be retried. |
| `JobAnswers.PutBackExact` | src/codex_memory/api/http_api.py:355-473 | A retry and a replay make a stopped job due now with its attempts as they are; only the replay makes its event wait again. |
| `JobAnswers.CancelExact` | src/codex_memory/api/http_api.py:395-430 | Cancelling stops any job that is not finished, leaves its attempts as they are, and gives its event up. |
| `JobAnswers.ReplayEventExact` | src/codex_memory/api/http_api.py:542-589 | Replaying an event makes it wait again, and its job due now iff that has stopped. |
| `JobAnswers.ReplayProjectExact` | src/codex_memory/api/http_api.py:711-744 | Replaying a project gives each message a job of the type, waiting, due now and without an event, unless it has one, and does nothing else. |
| `JobRuns.SettleOrSweep` | src/codex_memory/pipelines/v11_worker.py:366-405 | At any instant a running job can be settled by its owner or swept, never both. |
| `JobRuns.ExpiredWorkerIsPowerless` | src/codex_memory/pipelines/v11_worker.py:215-265 | The heartbeat, complete and fail of a worker whose lease has run out change nothing. |
| `JobRuns.SucceededStays` | src/codex_memory/api/http_api.py:354-589 | A succeeded job and its completed event never move again, under retry, cancel and both replays. |
| `JobRuns.LeaseFencing` | src/codex_memory/pipelines/v11_worker.py:168-292 | Between two claims of a job that was not cancelled, its first lease expired and was swept or the first worker failed it. |
| `JobRuns.LedgerExact` | src/codex_memory/api/http_api.py:411-420 | A step keeps "only the latest attempt is in progress, iff the job runs" unless it cancels a running job. |
| `JobRuns.LedgerKept` | src/codex_memory/pipelines/v11_worker.py:187-213 | That ledger over every run without such a cancel. |
| `JobRuns.TwoAttemptsInProgress` | src/codex_memory/api/http_api.py:460-473 | Cancel, replay and claim leave two attempts of any running job in progress. |
| `JobRuns.BudgetExact` | src/codex_memory/api/http_api.py:371-380 | A step keeps one job within "at most max_attempts, and a waiting job has one left" iff it does not put the job back with no attempt left. |
| `JobRuns.StepBudgets` | src/codex_memory/api/http_api.py:371-380 | A step keeps all jobs within it iff every job it puts back has an attempt left. |
| `JobRuns.ClaimsAreAttempts` | src/codex_memory/pipelines/v11_worker.py:187-213 | Over every run, whatever an administrator does, the claims made are the attempts made. |
| `JobRuns.ClaimsAreBounded` | src/codex_memory/pipelines/v11_worker.py:266-289 | As long as no job is put back without an attempt left, the claims of a whole run are at most the sum of max_attempts. |
| `JobRuns.BackoffRespected` | src/codex_memory/pipelines/v11_worker.py:266-270 | After a retryable failure the next claim is at least min(max_backoff, 2^(attempts-1)) seconds later. |
| `ClientOutbox.LocalOutbox.Replay` | src/codex_memory/local_outbox.py:59-102 | Record by record, in order: one whose time has not come stays as it is, whatever the reply; from then on it is delivered and gone, put off with one more attempt by the delay for that attempt, or dead-lettered as it is, as the reply says; the report counts each once. |
| `ClientOutbox.FateIsSealed` | src/codex_memory/local_outbox.py:81-96 | What becomes of one record does not depend on the others. |
| `ClientOutbox.RetryDelayShape` | src/codex_memory/local_outbox.py:31-32 | The delay doubles up to 2048 seconds; the cap of 3600 is never reached. |
| `MessageArchive.AppendSound` | src/codex_memory/api/v1_service.py:162-255 | At most one row per (project, key) and exactly one event per row; rows never change; the message is held iff the reply is stored or duplicate. |
| `MessageArchive.AppendExact` | src/codex_memory/api/v1_service.py:162-255 | A held message is found, another under its key is a conflict, and a new one is stored under the next id with one event, or nothing changes and its key is doomed. |
| `MessageArchive.NormalisedExact` | src/codex_memory/persistence/idempotency.py:12-17 | A key of lower-case letters, digits, `.`, `_`, `:` and `-` that begins with a letter or digit normalises to itself, and every other one to such a key or to none. |
| `MessageArchive.AppendIdempotent` | src/codex_memory/api/v1_service.py:168-181 | Appending a held message again changes nothing and returns its id. |
| `MessageArchive.FailsExactly` | src/codex_memory/persistence/idempotency.py:12-17 | A new key clashes iff it normalises to the text of another stored key of the project, and is refused iff it does not normalise. |
| `MessageArchive.DoomedStays` | src/codex_memory/api/v1_service.py:168-211 | No later append makes such a key storable. |
| `MessageArchive.DoomedKeys` | src/codex_memory/persistence/idempotency.py:12-17 | With `a-b` stored, `a b` and `A-B` are such keys; `-` is one in any archive. |
| `Delivery.RunInvariant` | src/codex_memory/local_outbox.py:72-102 | Over every run with crashes between any two writes, lost answers and repeated replays, every enqueued event is pending, dead-lettered, or archived as enqueued. |
| `Delivery.ExactlyOnce` | src/codex_memory/api/v1_service.py:165-229 | An event that has left both files is in exactly one row for its key, with its content, and that row has exactly one event. |
| `Delivery.StoredIsForever` | src/codex_memory/api/v1_service.py:168-181 | Stored rows, their events and the log of enqueued events are only ever added to. |
| `Delivery.DeadLettersConflict` | src/codex_memory/local_outbox.py:84-88 | Unless a request is rejected outright, a record is dead-lettered only because the archive holds a different message under its key. |
| `Delivery.StarvesFromIdle` | src/codex_memory/local_outbox.py:72-102 | A record pending under such a key, with no replay under way, starts to wait. |
| `Delivery.WaitsForEver` | src/codex_memory/local_outbox.py:72-102 | It then stays pending through every continuation of the run in which no request of the project is rejected outright. |
| `Delivery.SettlesUnlessDoomed` | src/codex_memory/api/http_api.py:99-130 | Only such a record does: an answered request settles every other one. |
| `Delivery.SendExact` | src/codex_memory/local_outbox.py:81-96 | One record of a replay whose request is answered: before its time it stays and the archive hears nothing; from then on the archive holds it, unless its key is doomed, so that it is put off, or the archive holds another message under it, so that it dies. |
| `Delivery.SendUnanswered` | src/codex_memory/local_outbox.py:84-94 | A lost answer or an unreachable server puts it off, with the archive as if answered or untouched; an outright rejection buries it. |
| `Delivery.ReplayReaches` | src/codex_memory/local_outbox.py:72-102 | A replay whose requests are answered reaches every record whose time has come: the archive then has it, or can never have it. |
| `Delivery.ReplayEnds` | src/codex_memory/local_outbox.py:95-100 | A replay that is not interrupted ends with what remains in one file, in order, and the dead added to the other. |
| `Delivery.StepExact` | src/codex_memory/local_outbox.py:39-57 | Enqueueing adds one record at the end, unless a replay is under way or the key is empty; a crash leaves both files as they are. |
| `CandidateGate.CandidatePolicyService.VerifyEvidence` | src/codex_memory/pipelines/v11_candidates.py:620-641 | There is evidence, and each quote is the exact slice of an unchanged message of the project and occurs in the candidate. |
| `CandidateGate.CandidatePolicyService.HasDuplicateCandidate` | src/codex_memory/pipelines/v11_candidates.py:685-702 | Another candidate of the same project, level, scope, type and content is validating, approved or published. |
| `CandidateGate.CandidatePolicyService.CreateCandidate` | src/codex_memory/pipelines/v11_candidates.py:483-534 | A candidate is created with one quote per range, or not at all. |
| `CandidateRuns.StepCases` | src/codex_memory/pipelines/v11_candidates.py:265-347 | Only a publication makes a memory, from verified evidence and without a twin; every other step leaves memories, evidence and earlier results as they were. |
| `CandidateAnswers.AcceptedExact` | src/codex_memory/pipelines/v11_candidates.py:205-263 | A decision is accepted iff the candidate is open, no memory or live candidate says the same, the model asks to publish with a confidence of at least the threshold, without abstaining, risk or failed validation, both are L1 and of the project, policy and both flags allow it, and the evidence of both stands. |
| `CandidateAnswers.DecisionExact` | src/codex_memory/pipelines/v11_candidates.py:185-263 | On an open candidate a decision rejects, asks for review, finds a twin, or accepts exactly what deserves it, with one accepted event; on any other it changes nothing. |
| `CandidateAnswers.ReleaseExact` | src/codex_memory/pipelines/v11_candidates.py:265-347 | A publication makes a memory iff the candidate has none, its project exists, its evidence stands and no live candidate says the same, and, by hand, publishing is on, or, automatically, it is an approved L1 candidate of the project, just approved, not abstained, of at least the threshold's confidence, and policy and both flags allow it; a refusal is recorded and sends an open candidate to review. |
| `CandidateAnswers.AutomaticWasFit` | src/codex_memory/pipelines/v11_candidates.py:279-304 | Every automatic memory of every reachable state was made when its candidate met all of this, its confidence at least the threshold of that moment. |
| `CandidateAnswers.CreateExact` | src/codex_memory/pipelines/v11_candidates.py:483-534 | A candidate is made iff its source and every range lie in messages of the project; it quotes the ranges one by one. |
| `CandidateAnswers.IngestExact` | src/codex_memory/pipelines/v11_handlers.py:109-157 | A message of a project that generates candidates gets one, which quotes all of it, unless it is empty or has one that is not rejected. |
| `CandidateAnswers.CorrectExact` | src/codex_memory/pipelines/v11_candidates.py:384-480 | Nothing published can be rejected; superseding deprecates exactly the candidate's memory; a replacement comes with a new candidate or not at all. |
| `CandidateRuns.TraceInvariant` | src/codex_memory/pipelines/v11_candidates.py:185-347 | In every reachable state: memories and candidates with one correspond one to one, at most one accepted event each, no two same-content candidates published together, and every automatic memory right after an approval with all checks passed. |
| `CandidateRuns.AutomaticMemory` | src/codex_memory/pipelines/v11_candidates.py:620-641 | An automatic memory is L1 of its project, and each evidence quote is still the exact slice of its message and occurs in the memory's text. |
| `CandidateRuns.RefusedUntilApproved` | src/codex_memory/pipelines/v11_candidates.py:279-314 | After a refused automatic publication none succeeds until a fresh approval is recorded. |
| `ContextPacker.BuildContext` | src/codex_memory/pipelines/v11_retrieval.py:185-237 | The nested loops compute the packed text, its ids, the capped token count and the flag. |
| `ContextPacker.Selection` | src/codex_memory/pipelines/v11_retrieval.py:205-225 | The ids are the L3, then L2, then L1 subsequences of the result, and the text is the prefix, their lines under their headings, and the closing section. |
| `ContextPacker.LevelExact` | src/codex_memory/pipelines/v11_retrieval.py:195-205 | The items of a level are those of the result, as often and in the same order. |
| `ContextPacker.EstimateExact` | src/codex_memory/pipelines/v11_retrieval.py:220-226 | The estimate is the least number of tokens of six characters that the text fits in, and at least one. |
| `ContextPacker.SizeBound` | src/codex_memory/pipelines/v11_retrieval.py:212-225 | Within budget when an L1 item is packed; otherwise over it by the later headings at most, or exactly the frame with both headings. |
| `ContextPacker.WithinBudgetExact` | src/codex_memory/pipelines/v11_retrieval.py:205-225 | The context is within its budget iff it was before any L1 item was offered. |
| `ContextPacker.FrameExceedsBudget` | src/codex_memory/pipelines/v11_retrieval.py:205-225 | With nothing retrieved and a budget of one token the frame exceeds it. |
| `ContextPacker.Maximal` | src/codex_memory/pipelines/v11_retrieval.py:219-224 | The line of any skipped item would push the final text over budget. |
| `ContextPacker.TruncationExact` | src/codex_memory/pipelines/v11_retrieval.py:227-228 | The flag is up iff an item of a known level was dropped; items are missing iff it is up or some have another level. |
| `ContextPacker.UnknownLevelVanishes` | src/codex_memory/pipelines/v11_retrieval.py:195-205 | One item of another level is dropped with the flag down. |
| `HybridRanking.Search` | src/codex_memory/pipelines/v11_retrieval.py:77-140 | The loops compute scores, ranks and the first `limit` ids in the right mode. |
| `HybridRanking.RankingPermutes` | src/codex_memory/pipelines/v11_retrieval.py:117-140 | In every mode the ranking is an ordered permutation of the participating rows. |
| `HybridRanking.RanksBijective` | src/codex_memory/pipelines/v11_retrieval.py:90-114 | Ranks are a bijection between ids and 1..n. |
| `HybridRanking.SearchRanks` | src/codex_memory/pipelines/v11_retrieval.py:108-123 | A row without a vector ranks after every row with one. |
| `RankingAnswers.LexicalOrder` | src/codex_memory/pipelines/v11_retrieval.py:77-90 | Without vectors the row that matches better comes first, of equals the lower layer, then the lower id. |
| `RankingAnswers.DenseScoreExact` | src/codex_memory/pipelines/v11_retrieval.py:101-103 | A memory's similarity is the best of its vectors, and at least -1. |
| `RankingAnswers.DenseRank` | src/codex_memory/pipelines/v11_retrieval.py:108-114 | The more similar of two memories has the better dense rank, and of equals the lower id. |
| `RankingAnswers.HybridOrder` | src/codex_memory/pipelines/v11_retrieval.py:117-127 | With vectors the row with the higher sum of 1 / (60 + rank) comes first, of equals the lower layer, then the lower id; a row without a rank counts as one behind all. |
| `RankingAnswers.ModeExact` | src/codex_memory/pipelines/v11_retrieval.py:69-117 | Search is hybrid iff it is asked to be, there is a profile, and a stored vector belongs to a row that takes part. |
| `RankingAnswers.ResultsExact` | src/codex_memory/pipelines/v11_retrieval.py:128-140 | Between 1 and 50 results are returned, as many as asked for as far as there are rows, and they are the first of the ranking. |
| `HybridRanking.Dominance` | src/codex_memory/pipelines/v11_retrieval.py:117-127 | A row at least as well ranked in both orders and better in one comes first. |
| `TokenLedger.GrantExact` | src/codex_memory/codex_cli_runner.py:353-368 | Granted iff at least one output token is left of the day, with all the input; less output than asked for only when the limit is then used up; what was held on another day counts for nothing, and without a limit nothing is held. |
| `TokenLedger.UsageWithinReservation` | src/codex_memory/codex_cli_runner.py:912-945 | The byte cap keeps actual usage within the reservation, so the clamp in finalize never bites. |
| `TokenLedger.SettlesExactly` | src/codex_memory/codex_cli_runner.py:370-387 | Within a day the `max(0, ...)` guards never bite. |
| `TokenLedger.DayBalances` | src/codex_memory/codex_cli_runner.py:353-393 | For every interleaving within a day, allocation equals open reservations plus settled usage, and never exceeds the limit. |
| `TokenLedger.RangeKept` | src/codex_memory/codex_cli_runner.py:389-393 | Across days the allocation stays between zero and the limit. |
| `TokenLedger.SettlementExact` | src/codex_memory/codex_cli_runner.py:370-393 | For every ledger and set of open reservations: a settlement keeps the allocation equal to what is open and settled of the day iff the reservation is of that day, or takes nothing off, or there is nothing to take it from. |
| `TokenLedger.MidnightLosesBalance` | src/codex_memory/codex_cli_runner.py:379-393 | A reservation released after midnight wipes out what today's reservation holds. |
| `OutputQuota.EveryInterleaving` | src/codex_memory/codex_cli_runner.py:536-584 | For every interleaving of two readers each buffer is a prefix of its stream, together they hold min(limit, offered), and the quota is exceeded iff more was offered. |
| `ReportProjection.TraceInvariant` | src/codex_memory/v14_service.py:182-212 | Sequence numbers are 1..n, revisions 1..current, at most one report per event and one memory per report, and a run is completed iff it has a final report. |
| `ReportProjection.TraceGrows` | src/codex_memory/v14_service.py:272-274 | Events, reports and memories stay, and a completed run stays completed. |
| `ReportProjection.DeliveredIsReportedOnce` | src/codex_memory/v14_service.py:244-298 | Under any order and repetition of deliveries an ending event has exactly one report and memory from its first delivery on, and later deliveries change nothing. |
| `ReportProjection.HandleIdempotent` | src/codex_memory/v14_service.py:244-261 | Delivering any event twice in a row is delivering it once. |
| `ReportAnswers.HandleExact` | src/codex_memory/v14_service.py:244-298 | In every reachable state: an ending event gets one report, with the next revision, its kind, completion, baseline and uncertainty, and a timeline of all events of the run in order; the first baseline event of a run that does not know of Git sets its baseline; other deliveries change nothing. |
| `ReportAnswers.AppendNew` | src/codex_memory/v14_service.py:167-212 | An event under a new key is the session's next, with an outbox row; a blank session or key is refused. |
| `ReportAnswers.AppendKnown` | src/codex_memory/v14_service.py:178-183 | An event under a known key changes nothing, and is a conflict iff its content differs. |
| `ReportAnswers.UncertainExact` | src/codex_memory/v14_service.py:301-315 | A run is uncertain of a baseline iff Git says it is not available, or says nothing at all, or its status is not blank, where an empty status gives way to the other key. |
| `ReportProjection.BaselineOrderExact` | src/codex_memory/v14_service.py:252-343 | The order in which a baseline event and an ending event are delivered shows in the report iff the run does not know whether Git is available and the event changes its baseline; the uncertain flag differs iff the two baselines do in that; nothing but the baseline and the flag differs. |
| `ReportProjection.FirstBaselineOrder` | src/codex_memory/v14_service.py:252-343 | On a run without any baseline: iff the event records anything at all. |
| `ReportProjection.CleanBaselineShows` | src/codex_memory/v14_service.py:300-343 | With a clean first baseline neither report is uncertain, and still they differ. |
| `Utf8Truncation.Truncate` | src/codex_memory/v14_service.py:77-89 | The byte-dropping loop drops at most three bytes and yields the fitting prefix with the ellipsis. |
| `Utf8Truncation.TruncatedFits` | src/codex_memory/v14_service.py:82-89 | The kept part is the longest prefix that leaves room for the ellipsis; the result is within the limit iff the limit is at least three. |
| `Utf8Truncation.BoundedFits` | src/codex_memory/hook_events.py:112-127 | Ignoring undecodable bytes keeps the longest prefix within the limit. |
| `Utf8Truncation.BothCutsAgree` | src/codex_memory/hook_events.py:121 | On the same byte prefix both ways of cutting keep the same text. |
| `Utf8Truncation.HeadRoundTrip` | src/codex_memory/v14_service.py:80-87 | Decoding undoes encoding, one character at a time, in front of anything. |

## Left out

- Libraries and plumbing: SQLAlchemy, FastAPI routing, migrations, HTTP clients, file locks and subprocesses; validation by `openapi-spec-validator`, pydantic and jsonschema; YAML and JSON decoding.
- Permissions, credential redaction and path checks, and the audit rows beside each change.
- Numbers: the textual difference between `1` and `1.0`, integers beyond the float range, and Python's `True == 1` in `dict.fromkeys`.
- Identity: YAML aliases shared inside a document, and so the alias-cycle check of `_walk`; documents are trees.
- Schemas: `$ref` with siblings, and the strict reading of `nullable` without a `type`; the reading taken is "also admits null", which is what the translation encodes.
- MeaningPreservation.MeaningPreserved: is about schemas that are not refused; which those are is `TranslationRefusals.SchemaRefusedExact`.
- JsonPointer.EvaluatePointer: digits outside ASCII, which `isdigit` admits, are not read as indices.
- OperationCatalogue.CollectOperations: summary, tags, deprecation and the hash of each operation are not kept.
- Revision creation: the retry loop after a lost race; the transaction is atomic here. Rendered documents, summaries and timestamps.
- The hash of a document and of a message is taken to be injective; a document's hash is a parameter.
- Queue.ClaimJobs: the order of the query and skipped locked rows; the picked rows are a parameter, distinct and eligible.
- Job rows' error texts and timestamps other than the lease and the next attempt; cancelling an import batch; `v131_import` is not part of this model.
- Idempotency keys: the hash of a key longer than 255 characters is taken to be injective; lower-casing is modelled where its result is in ASCII. For jobs the builder is taken to be injective on its parts, which are fixed texts and numbers there.
- Queue.DispatchOnce: the branch of `_job_spec` for an event whose project row is missing, which a foreign key rules out.
- DocumentMeaning.CarriedExact: in two cases the condition is that two translations have one canonical form, each of them read off the source: for a schema that stands for a map of schemas, and for a reference that goes on beyond an alternative of a wrapped schema, which can come to a schema of the same translation.
- DocumentMeaning.DocumentMeaningPreserved: the shared keywords are read without regard to key order inside their arguments.
- ContractPipeline.Parse: `_validate_version` beyond the version being a text, `_reject_structural_features` and `_validate_operation_id_constraints`.
- JsonPointer.StandardExact: the percent-encoding of section 6 of RFC 6901, which the code does not decode.
- A message's session, role and metadata; two messages with one key and one content are duplicates whatever these are.
- A candidate's title and model name; levels and scopes other than the named ones, which creation refuses. A replacement's fields are given in full.
- Candidate.Content: `content` is its text and the rest of it; equality of canonical JSON is equality.
- The tokeniser and the text scored by it, vectors and their similarity, and rows filtered out before scoring.
- HybridRanking.Dominance: over the reals, so it does not say what rounding does to near ties.
- `_changes_for`: it looks for keys that no stored payload has, so there are no file changes to report. Digests, and the parts of a report that repeat stored events; values in an event's `git` of other types than the columns of a run hold.
- Lone surrogates, which `encode` refuses; text here is Unicode scalar values.
- Authentication, onboarding, dashboards, embedding jobs, knowledge import, the decision run ledger and the keyword classifier.
