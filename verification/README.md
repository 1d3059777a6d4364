# Verification of the filtered APIExport virtual workspace

This project models the logic of the virtual workspace in Dafny and proves
properties of it. `dafny verify dfyconfig.toml` checks everything.

The virtual workspace serves, for each `FilteredAPIExportEndpointSlice`, the
resources of an APIExport and the resources the export claims, filtered by a
label selector. What is modelled:

- **The API reconciler** (`ExportOrder`, `ClaimResolution`, `Definitions`, `Lifecycle`,
  `Refinement`, `Reuse`, `Carryover`, `Controller`). A reconcile is specified as
  a function of the caches and of every iteration order it leaves open (sorted
  index answers, the schema map, the old set). `Controller.APIReconciler` is
  the object itself: methods that change `apiSets` in place, tied to those
  functions. A definition is a number, its position in the log of creations;
  `torn` is the log of TearDown calls; `dropped` holds definitions that no set
  refers to and that were never torn down. That set is not empty in general:
  removing a domain key (reconcile.go:77) and an error in the build loops
  (reconcile.go:246-266) both drop definitions.
- **Events and convergence** (`Events`, `WorkQueues`, `Queueing`,
  `Convergence`, `Rest`, `Stranding`, `ServedExample`). Informer caches change
  under the controller, notifications are handled later and in any order, the
  queue deduplicates, and the lookups of the handlers and of the single worker
  are spread over the time they take.
- **Admission** (`Labels`, `Bindings`, `Admission`) and its agreement with the
  read filter the reconciler installs (`FilteredView`).
- **The authorizer chain** (`Authorizers`, `Authorization`, `Monotonicity`). Access reviews are
  uninterpreted functions; outcomes are a decision and whether an error comes
  with it.
- **URL digest and domain keys** (`UrlDigest`, `DomainKeys`).
- **The shared informer factory** (`InformerFactory`), as an object and as a
  state machine with every interleaving of its callers and goroutines.
- **The endpoint-slice controller's index** (`EndpointIndex`).

## Where the code falls short of its intent

Each of these is kept as the code has it, with the exact condition proved; where
the condition alone does not show an input, a lemma gives one.

- A schema notification stops at the first slice of the cluster whose export
  cannot be found (controller.go:254). Slices after it are not queued, and the
  controller can come to rest with them out of date:
  `Events.SchemaEventReachesIff`, and a run from the start that ends so,
  `Stranding.StrandedExample`.
- The comparator that should make the choice among exports of one identity
  deterministic compares name and cluster with "and" (reconcile.go:185), which
  is a partial order and not always one a sort can work with:
  `ClaimResolution.SchemaPickIsDeterministicIff`, two exports whose order
  decides, `ClaimExamples.TwinsArePickedByChance`, and three where it does not
  although two are unordered, `ClaimExamples.TrioIsPickedAlike`.
- The reuse test looks at the schema UID and the export's identity only
  (reconcile.go:232). What it misses, on the inputs of the two reconciles:
  `Reuse.ReuseAgreesIff`, `Reuse.ServesScratchIff`; and an export that starts to
  list what it claimed, `ClaimExamples.StaleReuse`.
- A refused creation is logged and forgotten (reconcile.go:272-277); the set
  stays short until something else queues its key:
  `Convergence.QuiescentRunsAreCorrect`, and a run that ends so,
  `ServedExample.RefusedCreationStays`.
- The constant table files the endpoint slices' schema under
  `filteredapiexport.kcp.io` (schemas/file.go:10), while the claim, the code
  around it and the API registration use `filteredvw.kcp.io`:
  `Reuse.KeyedIffEntriesFit`, `Reuse.MisfiledEntryHidesSlices`,
  `ClaimExamples.MisfiledExample`.
- Teardown comes before publication, and the worker is not waited for at
  shutdown: `Carryover.MidReconcileIsLiveIff`,
  `Carryover.PublicationAfterStopIsCleanIff`. No set with a fallback escapes
  either, `Carryover.FallbacksAreNeverKept`.
- A URL that ends in `/clusters/` is accepted with an empty target, and its
  last slash is trimmed from the prefix: `UrlDigest.PrefixAndPathMakeUrl`.
- Two verb lists intersect literally, so `*` on one side and a verb on the
  other have nothing in common: `Authorizers.WildcardIntersectionIff`, and a
  request the chain denies for it, `VerbExample.WildcardClaimIsDenied`.
- With both failing and refusing providers the returned error, not the
  decision, depends on their order: `Authorizers.OrderIrrelevantIff`.

## Model

| member | source | states |
|---|---|---|
| ClaimResolution.ClaimLoopIsDeclarative | internal/virtual/filteredapiexport/controllers/apireconciler/apiexport_apireconciler_reconcile.go:86-211 | Exported resources keep their own schema and the export's identity and are never claimed; any other resource belongs to the first claim in list order that obtains a schema; the schema map's keys are the disjoint union of exported and claimed resources; the two fallback flags say whether the corresponding claim was granted |
| ClaimResolution.ClaimPrefixIsDeclarative | internal/virtual/filteredapiexport/controllers/apireconciler/apiexport_apireconciler_reconcile.go:101-211 | The same reading holds after every turn of the loop |
| ClaimResolution.SchemaPickIsDeterministicIff | internal/virtual/filteredapiexport/controllers/apireconciler/apiexport_apireconciler_reconcile.go:178-210 | With every listed export readable: when the comparator is a strict weak order on the exports of the identity, as a sort demands, the schema picked is the same whatever the sort returns if and only if the exports that may come last among those that have the resource have one schema for it; when it is not, a sort promises nothing, and this holds if and only if all that have the resource have one schema |
| ClaimExamples.TrioIsPickedAlike | internal/virtual/filteredapiexport/controllers/apireconciler/apiexport_apireconciler_reconcile.go:182-210 | Three exports, two of them unordered, with two schemas: every sort leads to the same schema |
| ClaimExamples.TwinsArePickedByChance | internal/virtual/filteredapiexport/controllers/apireconciler/apiexport_apireconciler_reconcile.go:182-210 | Two exports with one identity and one name in two clusters: the two orders of the index, sorted alike, lead to two different schemas |
| ClaimResolution.SchemaPickIsDeterministic | internal/virtual/filteredapiexport/controllers/apireconciler/apiexport_apireconciler_reconcile.go:178-210 | With an ordering comparator the schema written for a claim is the same for every index order |
| ExportOrder.ListingIsDeterministicIff | internal/virtual/filteredapiexport/controllers/apireconciler/apiexport_apireconciler_reconcile.go:182-186 | The sorted list is one only, whatever order the index returned, if and only if the comparator orders every two exports |
| ClaimResolution.LastMatchMeaning | internal/virtual/filteredapiexport/controllers/apireconciler/apiexport_apireconciler_reconcile.go:188-210 | The scan fails exactly when a listed export cannot be read; otherwise it picks the schema of the last listed export that has the resource, and none exactly when no listed export has it |
| ClaimResolution.ExportSchemasMeaning | internal/virtual/filteredapiexport/controllers/apireconciler/apiexport_apireconciler_reconcile.go:357-378 | Over the schema lookups alone: an error exactly when the lookup of a listed schema fails; otherwise a resource is in the map exactly when some listed schema that is found is one for it, with the last such schema |
| ClaimResolution.CandidateMeaning | internal/virtual/filteredapiexport/controllers/apireconciler/apiexport_apireconciler_reconcile.go:115-210 | What one claim obtains by itself, written out: the built-in schema moved to the export's cluster, the constant table's entry, nothing without an identity, or what the exports of the identity have |
| ClaimResolution.ResolveFailsIff | internal/virtual/filteredapiexport/controllers/apireconciler/apiexport_apireconciler_reconcile.go:85-211 | Resolution fails exactly when the export's own schemas cannot be read or some claim on a resource not granted before obtains an error |
| Reuse.IdentityOf | internal/virtual/filteredapiexport/controllers/apireconciler/apiexport_apireconciler_reconcile.go:90-208 | The identity a resource is created with follows from its claim and the export's hash: the export's own, the claim's, or none for internal APIs |
| Reuse.KeyedIffEntriesFit | internal/virtual/filteredapiexport/controllers/apireconciler/apiexport_apireconciler_reconcile.go:115-159 | The schema map files every schema under its own group and resource if and only if the constant-table entry of every granted claim does |
| Reuse.MisfiledEntryHidesSlices | internal/virtual/filteredapiexport/controllers/apireconciler/apiexport_apireconciler_reconcile.go:146-160 | With the slices' table entry under a group other than the claimed one, a claim on them leaves neither a table definition nor the fallback for the claimed group |
| ClaimExamples.MisfiledExample | internal/virtual/filteredapiexport/controllers/apireconciler/apiexport_apireconciler_reconcile.go:146-160 | That happens with the group the constant table has, for resolutions the claim loop computes; without the claim the fallback is there |
| Refinement.BuildCompletes | internal/virtual/filteredapiexport/controllers/apireconciler/apiexport_apireconciler_reconcile.go:213-322 | With unique GVRs a build fails exactly when some slot that cannot be reused has no parameters; otherwise it fills every table slot and fallback, nothing else, and drops nothing, whatever the order of the maps |
| Refinement.ReuseRefinesRebuildIff | internal/virtual/filteredapiexport/controllers/apireconciler/apiexport_apireconciler_reconcile.go:213-286 | A build that may reuse old definitions publishes the from-scratch view, less the creations refused now, if and only if every reused definition has the parameters a new one would get |
| Reuse.ReuseAgreesIff | internal/virtual/filteredapiexport/controllers/apireconciler/apiexport_apireconciler_reconcile.go:229-238 | That in turn holds if and only if nothing that passes the reuse test (GVR, schema UID, export identity) has got another schema, identity or label requirement since the inputs the set was published from |
| Reuse.ServesScratchIff | internal/virtual/filteredapiexport/controllers/apireconciler/apiexport_apireconciler_reconcile.go:213-286 | Together, on inputs known before the reconcile: it publishes the from-scratch view less what is refused now if and only if nothing is stale in that sense |
| Refinement.PublishesAllIff | internal/virtual/filteredapiexport/controllers/apireconciler/apiexport_apireconciler_reconcile.go:213-286 | It publishes the whole from-scratch view if and only if, besides, no creation is refused |
| ClaimExamples.StaleReuse | internal/virtual/filteredapiexport/controllers/apireconciler/apiexport_apireconciler_reconcile.go:229-238 | An export that lists a schema it claimed before keeps the definition with the provider's identity and the claim's label: two well-formed inputs the caches can hold, the second served with another view than from scratch |
| Reuse.StableInputsLeaveNothingStale | internal/virtual/filteredapiexport/controllers/apireconciler/apiexport_apireconciler_reconcile.go:229-283 | Constant selector, claims and schemas per UID leave nothing stale |
| Reuse.KeyedTablesAreUnique | internal/virtual/filteredapiexport/controllers/apireconciler/apiexport_apireconciler_reconcile.go:217-227 | Correctly filed tables with distinct version names produce no GVR twice and none that a fallback produces |
| Reuse.VaryingStepKeepsInvariant | internal/virtual/filteredapiexport/controllers/apireconciler/apiexport_apireconciler_reconcile.go:48-340 | One reconcile that finds nothing stale, whatever the creator refuses this time, keeps every published set equal to the from-scratch set of its last inputs less what was refused |
| Reuse.MatchingMeaning | internal/virtual/filteredapiexport/controllers/apireconciler/apiexport_apireconciler_reconcile.go:213-337 | Such a set holds, entry by entry, the parameters a new definition would get; its GVRs are all wanted ones but the refused; it is the whole set if and only if nothing was refused |
| Reuse.EveryStableRunServesScratch | internal/virtual/filteredapiexport/controllers/apireconciler/apiexport_apireconciler_reconcile.go:213-337 | In every state of every run whose reconciles find nothing stale, with creations refused at some and not at others, each published entry has exactly the schema, version, identity and label requirements of a from-scratch build, however many reconciles carried it; a set lacks exactly what its last serving reconcile was refused |
| Reuse.ServingDropsNothing | internal/virtual/filteredapiexport/controllers/apireconciler/apiexport_apireconciler_reconcile.go:213-337 | A reconcile that completes the serving path with unique GVRs drops no definition |
| Definitions.NewParamsMeaning | internal/virtual/filteredapiexport/controllers/apireconciler/apiexport_apireconciler_reconcile.go:240-272 | A new definition has the schema, version and identity it is asked for, and cannot be made exactly when the slice's selector is invalid or the claim's label cannot be computed |
| Definitions.NewParamsRequire | internal/virtual/filteredapiexport/controllers/apireconciler/apiexport_apireconciler_reconcile.go:244-268 | What a new definition requires of an object: the pairs and expressions of the slice's selector, and for a claimed resource the claim's label besides, or for APIBindings the reflexive one |
| Reuse.PublishedIdentity | internal/virtual/filteredapiexport/controllers/apireconciler/apiexport_apireconciler_reconcile.go:269-271 | The identity of a published definition: the export's for its own resources, none for internal APIs, else the claim's |
| Reuse.FallbacksAreServed | internal/virtual/filteredapiexport/controllers/apireconciler/apiexport_apireconciler_reconcile.go:288-322 | Unless a claim on them is granted, both versions of APIBindings and one of the endpoint slices are published, bound to the export |
| Carryover.CarriedOverIsBacked | internal/virtual/filteredapiexport/controllers/apireconciler/apiexport_apireconciler_reconcile.go:229-238 | A definition that survives a reconcile keeps its key and GVR, is schema-backed, and carries the export's present identity |
| Carryover.FallbacksAreReplaced | internal/virtual/filteredapiexport/controllers/apireconciler/apiexport_apireconciler_reconcile.go:279-331 | Every fallback of the old set is torn down by the next successful reconcile, whether its resource is claimed by then or not |
| Lifecycle.ReconcileKeepsInvariant | internal/virtual/filteredapiexport/controllers/apireconciler/apiexport_apireconciler_reconcile.go:48-340 | One reconcile, whatever it finds, fails at, or iterates in, keeps: published definitions alive with one place; created = published + torn down + dropped, disjointly; no double teardown; fallbacks exactly the entries without identity |
| Lifecycle.EveryRunKeepsInvariant | internal/virtual/filteredapiexport/controllers/apireconciler/apiexport_apireconciler_controller.go:307-384 | The same holds between any two reconciles of every run over all domain keys |
| Lifecycle.BuildKeeps | internal/virtual/filteredapiexport/controllers/apireconciler/apiexport_apireconciler_reconcile.go:213-322 | A finished or failed build accounts for every definition it created and keeps old entries only at their old GVR |
| Lifecycle.TornDownMeaning | internal/virtual/filteredapiexport/controllers/apireconciler/apiexport_apireconciler_reconcile.go:324-331 | The cleanup loop tears down exactly the old entries that were not carried over, each once |
| Lifecycle.RemovalKeepsInvariant | internal/virtual/filteredapiexport/controllers/apireconciler/apiexport_apireconciler_reconcile.go:63-79 | Removing a set turns its definitions from published into dropped and touches no other key |
| Lifecycle.FailureKeepsInvariant | internal/virtual/filteredapiexport/controllers/apireconciler/apiexport_apireconciler_reconcile.go:244-267 | An error inside the build loops drops exactly the definitions made so far, leaves every published set and tears nothing down |
| Carryover.CarriedOverIff | internal/virtual/filteredapiexport/controllers/apireconciler/apiexport_apireconciler_reconcile.go:229-238 | An old entry is carried over if and only if some slot of the new table has its GVR, its schema UID and the export's present identity |
| Carryover.MidReconcileIsLiveIff | internal/virtual/filteredapiexport/controllers/apireconciler/apiexport_apireconciler_reconcile.go:326-337 | Between cleanup and publication no torn-down definition is still published if and only if the new table reuses every old entry |
| Lifecycle.StopEndsEveryDefinition | internal/virtual/filteredapiexport/controllers/apireconciler/apiexport_apireconciler_controller.go:318-327 | Stopping between two reconciles leaves every definition ever created either torn down once or dropped |
| Carryover.PublicationAfterStopIsCleanIff | internal/virtual/filteredapiexport/controllers/apireconciler/apiexport_apireconciler_controller.go:316-327 | A reconcile that completes after the stop tears nothing down twice if and only if the new table reuses every old entry; and exactly the definitions it creates stay published and never torn down |
| Carryover.FallbacksAreNeverKept | internal/virtual/filteredapiexport/controllers/apireconciler/apiexport_apireconciler_reconcile.go:288-331 | An old set that holds a fallback is never reused as a whole, so both of these show for it |
| Carryover.EndedForEver | internal/virtual/filteredapiexport/controllers/apireconciler/apiexport_apireconciler_reconcile.go:63-337 | In every run a definition once torn down or dropped is never published again |
| Lifecycle.PlanMeaning | internal/virtual/filteredapiexport/controllers/apireconciler/apiexport_apireconciler_reconcile.go:56-91 | A set is removed exactly when the slice is gone, its cluster has no export of the name, or that has no identity; nothing is decided exactly when a lookup fails; else it is served from that slice, export and resolution |
| WorkQueues.AddAllIsConsistent | internal/virtual/filteredapiexport/controllers/apireconciler/apiexport_apireconciler_controller.go:187-217 | Adding keys keeps each queued once, exactly the dirty keys nobody works on |
| WorkQueues.TakeIsConsistent | internal/virtual/filteredapiexport/controllers/apireconciler/apiexport_apireconciler_controller.go:338-342 | Taking a key moves it from dirty to processing and keeps the queue consistent |
| WorkQueues.DoneIsConsistent | internal/virtual/filteredapiexport/controllers/apireconciler/apiexport_apireconciler_controller.go:350 | Done queues a key again exactly when it was added meanwhile |
| WorkQueues.FirstAddedFirstTaken | internal/virtual/filteredapiexport/controllers/apireconciler/apiexport_apireconciler_controller.go:336-342 | Keys are taken in the order they were added |
| Events.SchemaEventReachesIff | internal/virtual/filteredapiexport/controllers/apireconciler/apiexport_apireconciler_controller.go:224-266 | A schema notification reaches a key in every list order if and only if every slice of the cluster has its export and one that uses the schema leads to the key |
| Events.LocalConcernIsReached | internal/virtual/filteredapiexport/controllers/apireconciler/apiexport_apireconciler_controller.go:250-265 | A slice that refers to its own cluster is led to by the schemas it is served with |
| Events.SchemaEventCanReachNothing | internal/virtual/filteredapiexport/controllers/apireconciler/apiexport_apireconciler_controller.go:250-255 | One slice without its export can end the handler before anything is queued |
| Events.SliceAndExportEventsReachAll | internal/virtual/filteredapiexport/controllers/apireconciler/apiexport_apireconciler_controller.go:180-300 | The slice and export handlers reach every key whose reconcile reads the object |
| Events.SliceTargetsMeaning | internal/virtual/filteredapiexport/controllers/apireconciler/apiexport_apireconciler_controller.go:180-222 | A slice's targets, over the caches alone: its own key, and, if its export is found with an identity and the index answers, exactly the slices served from some export that claims that identity |
| Events.ExportTargetsMeaning | internal/virtual/filteredapiexport/controllers/apireconciler/apiexport_apireconciler_controller.go:268-300 | An export's targets are those of the slices in its cluster that name it |
| Convergence.CacheStepKeeps | internal/virtual/filteredapiexport/controllers/apireconciler/apiexport_apireconciler_controller.go:63-159 | Any cache change keeps the convergence invariant: a key is up to date, queued, waiting, covered by a pending notification, or being processed |
| Convergence.DeliverStepKeeps | internal/virtual/filteredapiexport/controllers/apireconciler/apiexport_apireconciler_controller.go:63-159 | A notification handed to its handler keeps it, although the handler's lookups come later |
| Convergence.QueueStepKeeps | internal/virtual/filteredapiexport/controllers/apireconciler/apiexport_apireconciler_controller.go:187-217 | A handler that queues a key keeps it, with anything happening in between |
| Convergence.EndStepKeeps | internal/virtual/filteredapiexport/controllers/apireconciler/apiexport_apireconciler_controller.go:180-300 | A handler that ends keeps it, each of its lookups answered by some cache state since it began; for a schema notification, if what it observed reaches what it concerns |
| Convergence.HandlingIsSteps | internal/virtual/filteredapiexport/controllers/apireconciler/apiexport_apireconciler_controller.go:180-300 | A handler run undisturbed, with the keys the controller's methods queue, is a sequence of these steps |
| Convergence.TakeStepKeeps | internal/virtual/filteredapiexport/controllers/apireconciler/apiexport_apireconciler_controller.go:336-350 | Taking a key keeps it, although the reads of its reconcile come later |
| Convergence.VaryingFinishKeeps | internal/virtual/filteredapiexport/controllers/apireconciler/apiexport_apireconciler_controller.go:352-383 | Finishing keeps it, with every lookup answered by some cache state since the key was taken, and whatever the creator refuses this time |
| Convergence.OtherKeysUnchanged | internal/virtual/filteredapiexport/controllers/apireconciler/apiexport_apireconciler_reconcile.go:335-337 | Publishing one key leaves what is shown under every other key, and what that was refused |
| Convergence.ProcessingIsTwoSteps | internal/virtual/filteredapiexport/controllers/apireconciler/apiexport_apireconciler_controller.go:336-384 | The worker's method run undisturbed is one take step and one finish step of the state machine |
| Convergence.EveryRunKeepsConverging | internal/virtual/filteredapiexport/controllers/apireconciler/apiexport_apireconciler_controller.go:180-384 | The invariant holds in every state of every run under the stated hypotheses |
| Convergence.QuiescentRunsAreCorrect | internal/virtual/filteredapiexport/controllers/apireconciler/apiexport_apireconciler_controller.go:180-384 | With no pending notification, no handler at work, an empty queue, an idle worker and nothing waiting, every key shows what a from-scratch reconcile of the present caches would publish, less what its last reconcile was refused; all of it if and only if that is nothing |
| Convergence.UnrefusedRunsAreCorrect | internal/virtual/filteredapiexport/controllers/apireconciler/apiexport_apireconciler_controller.go:180-384 | If no creation was refused on the way, every key then shows exactly the from-scratch set |
| Rest.UndisturbedStepIsCloser | internal/virtual/filteredapiexport/controllers/apireconciler/apiexport_apireconciler_controller.go:180-384 | Every step but a cache change, a resync, a repeated queueing or a newly failed reconcile decreases a measure of the work left |
| Rest.EndlessRunsAreDisturbed | internal/virtual/filteredapiexport/controllers/apireconciler/apiexport_apireconciler_controller.go:180-384 | A run without end is disturbed in one of these ways after every point: left alone, the controller takes finitely many steps |
| Rest.NotStuck | internal/virtual/filteredapiexport/controllers/apireconciler/apiexport_apireconciler_controller.go:180-384 | Until the controller is at rest some step is possible that disturbs nothing, if the key being processed succeeds and finds nothing stale |
| Rest.RestIsReached | internal/virtual/filteredapiexport/controllers/apireconciler/apiexport_apireconciler_controller.go:180-384 | From every state a run can be in, if the caches are settled, such steps lead to rest with every key up to date |
| ServedExample.CalmComesToRest | internal/virtual/filteredapiexport/controllers/apireconciler/apiexport_apireconciler_controller.go:180-384 | From the start on concrete settled caches the controller reaches rest |
| Stranding.AbortedDelivery | internal/virtual/filteredapiexport/controllers/apireconciler/apiexport_apireconciler_controller.go:250-255 | While some slice lacks its export, a schema notification can be handled without queueing anything |
| Stranding.StrandedExample | internal/virtual/filteredapiexport/controllers/apireconciler/apiexport_apireconciler_controller.go:250-255 | A run from the start of the controller that ends at rest with a key out of date: two slices are reconciled, a schema is added, and its notification queues nothing |
| Queueing.WorkQueue.Add | internal/virtual/filteredapiexport/controllers/apireconciler/apiexport_apireconciler_controller.go:187 | The queue afterwards is the old queue with the key added, deduplicated |
| Queueing.WorkQueue.Take | internal/virtual/filteredapiexport/controllers/apireconciler/apiexport_apireconciler_controller.go:338 | Takes the oldest queued key into processing |
| Queueing.WorkQueue.Done | internal/virtual/filteredapiexport/controllers/apireconciler/apiexport_apireconciler_controller.go:350 | Ends processing and queues the key again if it is dirty |
| Controller.APIReconciler.GetSchemasFromAPIExport | internal/virtual/filteredapiexport/controllers/apireconciler/apiexport_apireconciler_reconcile.go:357-378 | Computes the export's schemas, skipping missing ones and failing on any other lookup error |
| ExportOrder.SortOrders | internal/virtual/filteredapiexport/controllers/apireconciler/apiexport_apireconciler_reconcile.go:182-186 | An insertion sort by the comparator, which is only a partial order, permutes the exports and puts none behind one it is before; so it is one of the sorts allowed for |
| Controller.APIReconciler.ScanExports | internal/virtual/filteredapiexport/controllers/apireconciler/apiexport_apireconciler_reconcile.go:188-210 | The scan over sorted exports grants the last match |
| Controller.APIReconciler.EvaluateClaim | internal/virtual/filteredapiexport/controllers/apireconciler/apiexport_apireconciler_reconcile.go:101-211 | One claim's turn is the specified turn, for some legal sorted answer of the identity index |
| Controller.APIReconciler.ResolveClaims | internal/virtual/filteredapiexport/controllers/apireconciler/apiexport_apireconciler_reconcile.go:85-211 | The whole loop computes the resolution whose declarative reading is proved |
| Controller.APIReconciler.AddVersion | internal/virtual/filteredapiexport/controllers/apireconciler/apiexport_apireconciler_reconcile.go:218-284 | One version is skipped, reused, created, refused by the creator, or ends the build, as specified |
| Controller.APIReconciler.BuildSet | internal/virtual/filteredapiexport/controllers/apireconciler/apiexport_apireconciler_reconcile.go:213-286 | Both build loops, in any map order, yield the specified set, creation log and error |
| Controller.APIReconciler.AddFallbacks | internal/virtual/filteredapiexport/controllers/apireconciler/apiexport_apireconciler_reconcile.go:288-322 | Adds the fallbacks of unclaimed resources |
| Controller.APIReconciler.Cleanup | internal/virtual/filteredapiexport/controllers/apireconciler/apiexport_apireconciler_reconcile.go:324-331 | Makes exactly the TearDown calls of the specification, for the order it iterated in |
| Controller.APIReconciler.Reconcile | internal/virtual/filteredapiexport/controllers/apireconciler/apiexport_apireconciler_reconcile.go:48-340 | The state and error after a reconcile are those of the specification for some legal iteration orders |
| Controller.APIReconciler.Process | internal/virtual/filteredapiexport/controllers/apireconciler/apiexport_apireconciler_controller.go:362-384 | Looks the slice up, gives up silently on an odd error, otherwise reconciles under cluster/name |
| Controller.APIReconciler.ProcessNextWorkItem | internal/virtual/filteredapiexport/controllers/apireconciler/apiexport_apireconciler_controller.go:336-360 | Takes the oldest key, processes it, remembers it for retry exactly on error, and is done with it; an odd lookup error changes nothing and is not retried |
| Controller.APIReconciler.EnqueueSlice | internal/virtual/filteredapiexport/controllers/apireconciler/apiexport_apireconciler_controller.go:180-222 | Queues the slice and every slice served from an export that claims the identity of its export |
| Controller.APIReconciler.EnqueueSchema | internal/virtual/filteredapiexport/controllers/apireconciler/apiexport_apireconciler_controller.go:224-266 | Queues the targets of the slices before the first one without its export, in list order |
| Controller.APIReconciler.EnqueueExport | internal/virtual/filteredapiexport/controllers/apireconciler/apiexport_apireconciler_controller.go:268-300 | Queues the targets of the cluster's slices that name the export |
| Controller.APIReconciler.StopAll | internal/virtual/filteredapiexport/controllers/apireconciler/apiexport_apireconciler_controller.go:318-327 | Tears every published definition down once and leaves the sets as they are |
| Labels.SelectorMeaning | deploy/crd/filteredvw.kcp.io/filteredvw.kcp.io_filteredapiexportendpointslices.yaml:77-117 | A selector matches exactly when its pairs are carried and its expressions hold |
| Labels.ExpressionMeaning | deploy/crd/filteredvw.kcp.io/filteredvw.kcp.io_filteredapiexportendpointslices.yaml:77-117 | Which expressions are valid and what each of the four operators demands, as the API spells and documents them |
| Bindings.FindBinding | internal/virtual/filteredapiexport/admission/selector.go:58-75 | Finds the first listed binding that refers to the export by name and cluster, or none |
| Bindings.FirstBindingMeaning | internal/virtual/filteredapiexport/admission/selector.go:58-75 | The binding found is the first listed one that refers to the export by name and by cluster |
| Bindings.SliceOfMeaning | internal/virtual/filteredapiexport/admission/selector.go:96-103 | The slice is looked up under the first two parts of the domain key; a key without a slash is an error |
| Admission.MergeLabels | internal/virtual/filteredapiexport/admission/selector.go:148-158 | Merges two label maps in any order; fails exactly when a key has two values |
| Admission.ApplyLabels | internal/virtual/filteredapiexport/admission/selector.go:172-183 | Adds the missing pairs in any order; fails exactly when a present key has another value |
| Admission.FindStanding | internal/virtual/filteredapiexport/admission/selector.go:117-143 | Bound resources win over claims, and among claims the first accepted one on the resource |
| Admission.FirstAcceptedMeaning | internal/virtual/filteredapiexport/admission/selector.go:127-142 | The chosen claim is accepted, on the resource, and no earlier claim is both |
| Admission.Admit | internal/virtual/filteredapiexport/admission/selector.go:79-191 | Refuses, leaves alone or relabels the object exactly as specified; a refusal leaves the object as it was |
| Admission.Validate | internal/virtual/filteredapiexport/admission/selector.go:193-296 | Accepts exactly the specified requests, reading the old object when there is no new one |
| Admission.ExtendedIsLeast | internal/virtual/filteredapiexport/admission/selector.go:148-183 | Labelling succeeds exactly when some superset of the labels carries both sets of pairs, and its result is the smallest such superset |
| Admission.AdmitIsIdempotent | internal/virtual/filteredapiexport/admission/selector.go:148-188 | Admitting an admitted object changes nothing |
| Admission.ScopeMeaning | internal/virtual/filteredapiexport/admission/selector.go:80-116 | A request is governed by a slice and a binding exactly when it names one cluster and a resource, the slice is found, and the binding is the first to the slice's export; skipped for wildcards and non-resources; else refused |
| Admission.AdmitLabelsBound | internal/virtual/filteredapiexport/admission/selector.go:118-190 | For CREATE and UPDATE of a bound resource: the object is labelled exactly when some superset of its labels carries the slice's matchLabels, with the least such superset |
| Admission.AdmitLabelsClaimed | internal/virtual/filteredapiexport/admission/selector.go:118-190 | For a resource only claimed: the same with the first accepted claim's matchLabels besides, unless it matches all |
| Admission.AdmitLeavesOthers | internal/virtual/filteredapiexport/admission/selector.go:80-140 | Other operations, skipped requests and resources neither bound nor claimed leave the object as it is; a refused scope refuses |
| Admission.ValidateMeaning | internal/virtual/filteredapiexport/admission/selector.go:193-296 | CREATE, UPDATE and DELETE are accepted exactly when the labels satisfy the slice's selector and, for a resource only claimed, that of the first accepted claim unless it matches all; CONNECT always |
| Admission.ValidateAgreesWithAdmit | internal/virtual/filteredapiexport/admission/selector.go:116-295 | What Admit produced is accepted exactly when the matchExpressions of the slice, and of the claim unless it matches all, hold on it |
| FilteredView.VisibleIffSelectorAccepts | internal/virtual/filteredapiexport/controllers/apireconciler/apiexport_apireconciler_reconcile.go:240-272 | For an exported resource the served definition, reused or new, shows exactly what the slice's selector accepts; with no requirements there is no filter |
| FilteredView.PublishedMeaning | internal/virtual/filteredapiexport/controllers/apireconciler/apiexport_apireconciler_reconcile.go:240-283 | A published schema-backed definition, exported or claimed, reused or new: its GVR's schema and version, and it shows exactly the objects that satisfy the slice's selector and, if claimed, carry the claim's label |
| FilteredView.AcceptedObjectsStayInView | internal/virtual/filteredapiexport/admission/selector.go:243-251 | Over any stable run an object in the view that changes only by accepted writes stays in the view of every published definition |
| ServedExample.SomeStableRunServes | internal/virtual/filteredapiexport/controllers/apireconciler/apiexport_apireconciler_reconcile.go:213-337 | A stable run that serves an exported resource exists |
| ServedExample.RefusedCreationStays | internal/virtual/filteredapiexport/controllers/apireconciler/apiexport_apireconciler_reconcile.go:272-277 | A run within the hypotheses of the convergence theorem comes to rest with a wanted resource shown exactly if its creation was not refused |
| Authorizers.GetClaimedIdentity | internal/virtual/filteredapiexport/authorizer/maximal_permission_policy.go:162-170 | The identity of the first claim on the resource, and whether there is one |
| Authorizers.PrefixAttributes | internal/virtual/filteredapiexport/authorizer/maximal_permission_policy.go:172-196 | Prefixes the user name and every group and keeps all else |
| Authorizers.PrefixedIsInjective | internal/virtual/filteredapiexport/authorizer/maximal_permission_policy.go:172-196 | Prefixed requests are equal only for equal requests, and every name in them carries the prefix |
| Authorizers.AuthorizeMaximal | internal/virtual/filteredapiexport/authorizer/maximal_permission_policy.go:76-160 | Answers decision and error as specified |
| Authorizers.AuthorizeContent | internal/virtual/filteredapiexport/authorizer/content.go:54-91 | Asks for the content subresource of the slice and delegates exactly on Allow |
| Authorizers.CheckVerbs | internal/virtual/filteredapiexport/authorizer/binding.go:143-156 | Intersects the binding's verbs with those of the first equal export claim only |
| Authorizers.AuthorizeBound | internal/virtual/filteredapiexport/authorizer/binding.go:88-178 | The first link over the other two answers as the specified chain |
| Authorizers.ChainAllowsIff | internal/virtual/filteredapiexport/authorizer/binding.go:88-178 | Allow exactly when the request is wildcard, non-resource, bound, claimed with a shared verb or a read of apibindings, and the content review allows, and the resource is unclaimed, internal, or has providers that all grant; Allow never comes with an error |
| Authorizers.ProvidersGrantIff | internal/virtual/filteredapiexport/authorizer/maximal_permission_policy.go:131-159 | The provider loop allows exactly when every provider grants |
| Authorizers.DecisionIgnoresProviderOrder | internal/virtual/filteredapiexport/authorizer/maximal_permission_policy.go:129-159 | The decision is the same for every order of the providers |
| Authorizers.OrderIrrelevantIff | internal/virtual/filteredapiexport/authorizer/maximal_permission_policy.go:129-159 | Decision and error together are independent of the order if and only if failing and refusing providers are not mixed |
| Authorizers.WildcardIntersectionIff | internal/virtual/filteredapiexport/authorizer/binding.go:143-156 | Intersecting verb lists agrees with reading "*" as every verb except when one side has only "*" and the other only the verb |
| Authorization.ContentMeaning | internal/virtual/filteredapiexport/authorizer/content.go:54-91 | The review asked: in the cluster of the domain key, the same user and verb on the content subresource of the named slice; Allow delegates, another decision is returned, no decision is an error |
| Authorization.BoundMeaning | internal/virtual/filteredapiexport/authorizer/binding.go:88-178 | The first link over the objects looked up: what it delegates, and what it answers otherwise |
| Authorization.ExportVerbsMeaning | internal/virtual/filteredapiexport/authorizer/binding.go:143-150 | The export's verbs are those of its first claim with the group, resource and identity of the binding's claim |
| Authorization.PrefixedMeaning | internal/virtual/filteredapiexport/authorizer/maximal_permission_policy.go:172-196 | What a policy review is asked, field by field |
| Authorization.ProvidersDecide | internal/virtual/filteredapiexport/authorizer/maximal_permission_policy.go:118-160 | With an identity that has a say: an index error is an error, no providers deny, the first provider that objects settles the answer, and if none does it is Allow |
| Authorization.ChainMeaning | internal/virtual/filteredapiexport/authorizer/binding.go:88-178 | The first link a request does not pass settles the answer |
| Authorization.ChainAllowsWrittenOut | internal/virtual/filteredapiexport/authorizer/binding.go:88-178 | Allow, over the domain key, the objects and the reviews alone: exactly when the request is let in, its user may use its verb on the content of the slice, and no policy objects |
| Authorization.NamelessKeyIsAnError | internal/virtual/filteredapiexport/admission/selector.go:96-101 | A domain key without a slash is an error |
| VerbExample.WildcardClaimIsDenied | internal/virtual/filteredapiexport/authorizer/binding.go:135-178 | A request to get a claimed resource, with a binding that accepts "*" and an export that claims "get": the chain denies it whatever the reviews say, and leaves it to them if the binding accepts "get" |
| Monotonicity.ChainIsMonotone | internal/virtual/filteredapiexport/authorizer/binding.go:128-177 | Fewer verbs, fewer accepted claims or fewer bound resources never turn a refusal into Allow |
| UrlDigest.DigestUrl | internal/virtual/filteredapiexport/builder/build.go:253-316 | The step-by-step parser computes the specified digest |
| UrlDigest.DigestInvertsFormat | internal/virtual/filteredapiexport/builder/build.go:259-315 | Digesting a formatted URL returns its cluster, its domain key and everything up to the target |
| UrlDigest.DigestMeaning | internal/virtual/filteredapiexport/builder/build.go:253-316 | With the literal URL: a target of "*" is the wildcard cluster, any other colon-free target that cluster; the domain key and the prefix up to the target are read off it |
| UrlDigest.PathTargetsAreRefused | internal/virtual/filteredapiexport/builder/build.go:296-312 | A target with a colon is refused |
| UrlDigest.AcceptedUrlIsFormatted | internal/virtual/filteredapiexport/builder/build.go:259-315 | Every accepted URL is the format of a well-formed request |
| UrlDigest.AcceptedIff | internal/virtual/filteredapiexport/builder/build.go:259-312 | The accepted URLs are exactly the formatted ones |
| UrlDigest.PrefixAndPathMakeUrl | internal/virtual/filteredapiexport/builder/build.go:295-315 | The stripped prefix followed by the remaining path is the URL if and only if there is a slash after the target or the target is not empty |
| UrlDigest.DomainKeyAgrees | internal/virtual/filteredapiexport/builder/build.go:314-315 | The domain key splits into the two URL components and equals the key published under for that slice and for no other |
| DomainKeys.SplitFormat | internal/virtual/filteredapiexport/admission/selector.go:96-101 | A reader that splits a domain key gets the cluster and the name |
| DomainKeys.SplitNames | internal/virtual/filteredapiexport/admission/selector.go:96-101 | The first two parts of a key are a cluster and a name, whatever follows |
| DomainKeys.FormatIsInjective | internal/virtual/filteredapiexport/controllers/apireconciler/apiexport_apireconciler_controller.go:368 | Two slices never share a domain key |
| InformerFactory.SharedInformerFactory.InformerFor | sdk/client/informers/externalversions/factory.go:184-203 | Answers the registered informer, or makes one with the custom or default resync period |
| InformerFactory.SharedInformerFactory.Start | sdk/client/informers/externalversions/factory.go:128-150 | Launches each registered, not yet started informer once, in any order, unless shutting down |
| InformerFactory.SharedInformerFactory.Shutdown | sdk/client/informers/externalversions/factory.go:152-159 | Sets the flag and returns when every goroutine launched has finished and the count is zero |
| InformerFactory.SharedInformerFactory.StartedSnapshot | sdk/client/informers/externalversions/factory.go:163-174 | Collects exactly the informers that are registered and started |
| InformerFactory.StepKeepsInvariant | sdk/client/informers/externalversions/factory.go:128-203 | Every step of every interleaving keeps: distinct informers, one goroutine for each started type, an exact wait group, no launch under shutdown |
| InformerFactory.CallsAgree | sdk/client/informers/externalversions/factory.go:184-203 | Any two calls answer the same informer if and only if they ask for the same type |
| InformerFactory.PeriodIsConfigured | sdk/client/informers/externalversions/factory.go:184-203 | In every state of every run a registered informer has its type's custom period, or the default one if it has none |
| InformerFactory.OneInformerForEver | sdk/client/informers/externalversions/factory.go:184-203 | A type's informer is never replaced |
| InformerFactory.StartedAtMostOnce | sdk/client/informers/externalversions/factory.go:136-149 | No informer is launched twice, and the wait group equals launched minus finished, which is the number running |
| InformerFactory.StartStartsAll | sdk/client/informers/externalversions/factory.go:136-149 | When Start returns, every informer registered by then is started |
| InformerFactory.ShutdownIsFinal | sdk/client/informers/externalversions/factory.go:152-159 | Once some Shutdown has returned, no informer runs, then or ever after |
| InformerFactory.ReturnIsEnabledIff | sdk/client/informers/externalversions/factory.go:157-158 | A waiting Shutdown can return exactly when nothing runs, and while something runs it can finish |
| InformerFactory.StartIsSteps | sdk/client/informers/externalversions/factory.go:128-150 | An uninterrupted Start is one run of the fine-grained machine |
| EndpointIndex.IndexByAPIExport | internal/indexers/indexers.go:31-48 | Up to two index values, for the remote and the own path |
| EndpointIndex.EndpointSliceController.IndexKeys | internal/reconciler/endpointslice/endpointslice_controller.go:143-151 | The keys of the slices indexed under a value |
| EndpointIndex.EndpointSliceController.EnqueueForAPIExport | internal/reconciler/endpointslice/endpointslice_controller.go:139-168 | Queues each target of the export once, unless it leaves the cache between the two lookups |
| EndpointIndex.IndexLookupIsFullScan | internal/reconciler/endpointslice/endpointslice_controller.go:139-168 | For colon-free names the two lookups find exactly the slices that name the export and whose remote or own path is the export's cluster or annotated path |
| EndpointIndex.LookupsAreQueued | internal/reconciler/endpointslice/endpointslice_reconcile.go:46-50 | Every slice whose reconcile looks the export up is queued |
| EndpointIndex.QueuedInVainIff | internal/reconciler/endpointslice/endpointslice_reconcile.go:46-50 | A slice is queued without looking the export up exactly when it refers elsewhere but lives where the export is found |
| EndpointIndex.ColonsCollide | internal/indexers/indexers.go:38-44 | With a colon in a name two references share an index value |

## Left out

- Convergence.EveryRunKeepsConverging: its runs assume that lookups fail only with NotFound, served exports claim built-in, `apis.kcp.io` and `filteredvw.kcp.io` APIs only, schemas are added and deleted but not updated, and each serving reconcile has well-formed inputs and finds nothing stale (`Reuse.ServesScratchIff`). What the handler of a schema notification observes must reach, in every list order, the keys it concerns; `Stranding.StrandedExample` is a run where it does not. Claims by identity are left out because the export handler stops when the export's cluster has no slices (controller.go:289), so claimants elsewhere are not always queued.
- Convergence.EndStepKeeps: the same condition on schema notifications. A handler or the worker that makes one lookup twice is answered the same both times.
- Convergence.QuiescentRunsAreCorrect: under the same hypotheses; refused creations are not retried, and what they leave out is part of the statement.
- Convergence.VaryingFinishKeeps: reconciles that find something stale; `ClaimExamples.StaleReuse` is one.
- Rest.RestIsReached: settled means that every key's reconcile on the present caches succeeds and finds nothing stale, and that schema notifications reach what they concern; a key whose reconcile fails is retried for ever.
- Reuse.EveryStableRunServesScratch: reconciles that find something stale. Within one reconcile the creator answers equal requests alike.
- FilteredView.AcceptedObjectsStayInView: the slice the writes are validated against has the selector the set was published with; claimed resources carry the claim's own label, which admission does not set.
- Controller.APIReconciler.AddFallbacks: creating a fallback definition is taken to succeed; the code logs an error and stores a nil definition (reconcile.go:291-317).
- Lifecycle.EveryRunKeepsInvariant: the same assumption on fallbacks.
- Controller.APIReconciler.EnqueueSlice: queue keys are pairs of cluster and name; encoding and decoding them, and failures of doing so, belong to a library.
- Controller.APIReconciler.Reconcile: reads one cache state; interleaving with cache changes is in `Convergence`, where each lookup may see a different state.
- EndpointIndex.EndpointSliceController.EnqueueForAPIExport: the sorted order in which the keys are queued, and a missing indexer.
- InformerFactory.SharedInformerFactory.Shutdown: other callers of the factory while it waits; they are in the state machine (`InformerFactory.ShutdownIsFinal`).
- UrlDigest.DigestUrl: a target names a logical cluster when it has no colon, the empty one included; that is `Path.Name` of a library which is not part of this model, and the finding about `/clusters/` depends on it.
- Definitions as heap objects: they are numbers, so equality of interfaces and the context cancelled by TearDown (build.go:331-340) are one log entry each.
- The shared annotation map that a shallow copy of a built-in schema writes to (reconcile.go:120-124); the copy is modelled as a value.
- A selector without requirements that is not selectable (reconcile.go:249); no label selector of this API produces it.
- Syntax checks of label keys and values, and failing to compute a claim's label beyond "it fails".
- Libraries not part of the repository: logical clusters and paths, index functions of kcp, sorting, work-queue implementation, access reviews. Sorting promises a permutation, and an ordered one when the comparator is a strict weak order on the elements, which is what `sort.Slice` asks for; what a particular implementation does otherwise is left open.
- Rate limiting, delays, resync periods as time, tombstones, logging, audit and reason decorators, error texts.
- REST storage, impersonation, dynamic clients, CRD decoding, commands and flags, generated clients and listers, the scoped informer factory.
- Status conditions and commits of the endpoint-slice controller.
