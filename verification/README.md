# Zelt verification models

Dafny models of the parts of Zelt whose correctness depends on whole runs or on several functions agreeing, with
proofs about them.

| component | files |
|---|---|
| Lifecycle hooks: batches of startup, rollback, shutdown, with every `await` a point where others may step | `Lifecycle*.dfy` |
| Runtime shutdown: bootstrap, callbacks in two phases, feature registry | `Runtime*.dfy`, `FeatureRegistry.dfy` |
| Creating a runtime, and cleaning up when that fails | `Creation*.dfy` |
| GraphQL model line: descriptors, manifest parser, renderer, value checks, batching and caching resolver | `Graphql*.dfy`, `DataLoader.dfy` |
| TypeScript types to JSON Schema | `JsonSchema*.dfy`, `JsonData.dfy` |
| TypeScript types to GraphQL definitions | `TypeToGraphql*.dfy` |
| Code generation manifest: cross-process lock and atomic replacement | `CodegenManifest*.dfy` |
| Ledger of generated files over sequences of builds | `OutputsLedger.dfy` |
| Canonical writer of prebuilt contributions, and evaluating what it writes | `Prebuilt*.dfy` |
| Fixed-window rate limiter over an atomic store | `RateLimit.dfy` |
| Studio: graph, scope, layout, state machine, presentation, address bar | `Studio*.dfy` |
| Shared: options and results, sequences, ordering | `Wrappers.dfy`, `Sequences.dfy`, `Ordering.dfy` |

Concurrent code is a state machine whose steps are the stretches of code between two awaits; what a hook, a
callback, a provider or another process does is free. A class beside each machine has the source's fields, and each
of its methods takes exactly one step of the machine. Loops of the source are loops, proved against a specification
function; the theorems are about that function.

Some properties turn out not to hold everywhere. There the model keeps the code as it is and a lemma gives the exact
condition: `ShutdownSoundIff`, `SettledIff`, `KeptStoppedIff`, `RemovalBreaksExclusionIff`, `UnionFaithfulIff`,
`ProtoPropertyFaithfulIff`, `BatchedFieldRefinesAlone`, `PrintedOnceIff`, `EveryContributionReadIff` and `UrlTracksIff`.
The bound of `IntervalBound` is one lower than twice the limit, and `BoundReached` shows that it is reached.

`dafny verify dfyconfig.toml` checks the project.

## Model

| member | source | states |
|---|---|---|
| `LifecycleProofs.HookOrder` | packages/core/src/kernel/lifecycle.lib.ts:84-144 | In every run in which shutdown does not begin while a hook is in flight: start calls are 0, 1, 2, … in registration order without repeats; stop calls are a prefix of the reversed starts that returned, all of them once shutdown or a failed startup has settled; the hooks started and not called to stop are exactly those below `startedIndex` |
| `LifecycleProofs.OneActiveBatch` | packages/core/src/kernel/lifecycle.lib.ts:57-68 | At most one startup batch is unsettled, and it is the one `startupPromise` and `activeStartup` name |
| `LifecycleProofs.ReturnMeansStarted` | packages/core/src/kernel/lifecycle.lib.ts:51-74 | When a call from outside the batch returns normally, the manager is not disposed, no hook is in flight, every registered hook has started and none has stopped |
| `LifecycleProofs.DisposedStartsNothing` | packages/core/src/kernel/lifecycle.lib.ts:76-81 | Once disposed the manager stays disposed and no later step starts a hook |
| `LifecycleProofs.NoDeadlock` | packages/core/src/kernel/lifecycle.lib.ts:51-103 | While a call, a batch or a shutdown is unfinished, some step owed by a hook or the event loop can be taken |
| `LifecycleProofs.OwedStepIsCloser` | packages/core/src/kernel/lifecycle.lib.ts:51-144 | Each owed step lowers a well-founded measure, whatever it is |
| `LifecycleProofs.Scheduled` | packages/core/src/kernel/lifecycle.lib.ts:51-144 | Under every scheduler the owed steps end in a state with nothing unfinished |
| `LifecycleProofs.EveryCallerFinishes` | packages/core/src/kernel/lifecycle.lib.ts:51-74 | Once registrations and calls cease, every call of `startupPending` made in a run returns or rejects, under every scheduler |
| `LifecycleProofs.RaceLeaksFirstHook` | packages/core/src/kernel/lifecycle.lib.ts:168-183 | Shutdown beginning while the first hook is in flight leaves that hook running after shutdown has settled |
| `LifecycleProofs.RaceStartsTwice` | packages/core/src/kernel/lifecycle.lib.ts:168-183 | Shutdown beginning while a later hook is in flight makes the batch start that hook a second time |
| `LifecycleProofs.ShutdownSoundIff` | packages/core/src/kernel/lifecycle.lib.ts:168-183 | In a reachable state, beginning shutdown keeps order and exactly-once for every continuation if and only if no hook is in flight |
| `LifecycleProofs.StepKeepsInv` | packages/core/src/kernel/lifecycle.lib.ts:37-183 | Every step of every interleaving keeps the invariant the results above rest on |
| `LifecycleManagers.LifecycleManager.Register` | packages/core/src/kernel/lifecycle.lib.ts:37-43 | `register` appends one pending entry: the protocol step Register |
| `LifecycleManagers.LifecycleManager.StartupPending` | packages/core/src/kernel/lifecycle.lib.ts:51-74 | A call up to its first await or its return: the protocol step Call |
| `LifecycleManagers.LifecycleManager.Resume` | packages/core/src/kernel/lifecycle.lib.ts:69-73 | A waiter woken by the batch: the protocol step Resume |
| `LifecycleManagers.LifecycleManager.StartPendingLifecycles` | packages/core/src/kernel/lifecycle.lib.ts:84-103 | The head of the start loop, up to awaiting the next hook or settling |
| `LifecycleManagers.LifecycleManager.StartSettles` | packages/core/src/kernel/lifecycle.lib.ts:88-100 | A hook settles: counted as started before its value is sealed, a throw or a failed seal begins the rollback |
| `LifecycleManagers.LifecycleManager.FailStartup` | packages/core/src/kernel/lifecycle.lib.ts:106-117 | Disposes the manager and enters the rollback |
| `LifecycleManagers.LifecycleManager.RollBack` | packages/core/src/kernel/lifecycle.lib.ts:123-144 | The head of the stop loop as a failed startup reaches it |
| `LifecycleManagers.LifecycleManager.RollbackSettles` | packages/core/src/kernel/lifecycle.lib.ts:123-144 | A stop hook settles during rollback: the next lower hook is stopped, or the batch settles |
| `LifecycleManagers.LifecycleManager.FinallyRuns` | packages/core/src/kernel/lifecycle.lib.ts:64-67 | The batch clears `activeStartup` and `startupPromise` |
| `LifecycleManagers.LifecycleManager.DisposeReadyValues` | packages/core/src/kernel/lifecycle.lib.ts:146-157 | The loop releases the value of every entry |
| `LifecycleManagers.LifecycleManager.AssertCanShutdown` | packages/core/src/kernel/lifecycle.lib.ts:160-165 | The loop passes exactly when the manager is disposed or no guard below `startedIndex` refuses |
| `LifecycleManagers.LifecycleManager.Shutdown` | packages/core/src/kernel/lifecycle.lib.ts:168-183 | The first accepted call disposes the manager and begins stopping; a refused one changes nothing; later ones change nothing |
| `LifecycleManagers.LifecycleManager.StopSettles` | packages/core/src/kernel/lifecycle.lib.ts:123-144 | A stop hook settles during shutdown |
| `RuntimeProofs.ShutdownOrder` | packages/core/src/app/runtime-shutdown.service.ts:40-74 | In every run: no callback body runs twice; when shutdown calls the manager, and when any hook has been stopped while no startup batch had failed, every before callback it ran has settled; after callbacks run only once disposed and once the stopping has settled; on completion every registered callback has run exactly once, the registry is disposed and no hook is left started; and if no shutdown overtook a rollback, no hook is starting or stopping when an after callback begins or shutdown completes |
| `RuntimeConditions.SettledIff` | packages/core/src/app/app-bootstrap.lib.ts:116-131 | In a reachable state, a step that reaches the manager leaves no hook starting or stopping once an after callback begins or shutdown completes, for every continuation, if and only if no startup batch is waiting for a hook to start or stop at that moment |
| `RuntimeConditions.RollbackOutlivesShutdown` | packages/core/src/kernel/lifecycle.lib.ts:123-183 | A run in which an after callback runs, and shutdown completes, while the stop hook called by a rollback is still executing |
| `RuntimeConditions.RollbackStopsBeforeCallbacks` | packages/core/src/app/runtime-shutdown.service.ts:51-63 | A run in which a rollback has called a stop hook while a before callback of a shutdown is still running |
| `RuntimeProofs.FailuresSkipNothing` | packages/core/src/app/runtime-shutdown.service.ts:51-74 | Unless a guard refuses, throwing bodies and hooks never cut a shutdown short: it ends disposed |
| `RuntimeConditions.KeptStoppedIff` | packages/core/src/app/app-bootstrap.lib.ts:116-131 | In a reachable state, the step that turns to the manager has the stopping settled and no hook left started when shutdown completes, for every continuation, if and only if the guards do not pass the first question and refuse the second with a hook still to stop, and no hook is starting as they let it through |
| `RuntimeConditions.GapNeverStops` | packages/core/src/app/app-bootstrap.lib.ts:116-131 | If the guards pass the first question and refuse the second, no continuation ever calls the manager again: a later call of shutdown changes nothing, the promise is kept, and unless a startup batch fails every hook that started is still running |
| `RuntimeConditions.ReachesGap` | packages/core/src/app/runtime-shutdown.service.ts:40-63 | A run from the start that comes to such a step |
| `RuntimeProofs.NoDeadlock` | packages/core/src/app/runtime-shutdown.service.ts:40-74 | While a shutdown is unfinished, some owed and disciplined step can be taken |
| `RuntimeProofs.OwedStepIsCloser` | packages/core/src/app/runtime-shutdown.service.ts:40-74 | Each owed step lowers a well-founded measure over phases, callbacks, bodies and hooks |
| `RuntimeProofs.Scheduled` | packages/core/src/app/runtime-shutdown.service.ts:40-74 | Under every scheduler each shutdown settles: refused and retryable, or complete |
| `RuntimeProofs.StepKeepsInv` | packages/core/src/app/runtime-shutdown.service.ts:20-74 | Every step keeps the runtime invariant, with lifecycle steps interleaved |
| `RuntimeServices.AppBootstrap.Ready` | packages/core/src/app/app-bootstrap.lib.ts:30-41 | `ready` up to its await, tied to the protocol step |
| `RuntimeServices.AppBootstrap.StartupReturns` | packages/core/src/app/app-bootstrap.lib.ts:44-54 | `doReady` after startup has returned |
| `RuntimeServices.AppBootstrap.Get` | packages/core/src/app/app-bootstrap.lib.ts:97-104 | `get` starts pending hooks exactly when ready and rejects exactly when disposed |
| `RuntimeServices.AppBootstrap.Stop` | packages/core/src/app/app-bootstrap.lib.ts:116-131 | `shutdown` after its await: refused by a guard, or disposed with the lifecycles stopping |
| `RuntimeServices.RuntimeShutdownService.RegisterShutdown` | packages/core/src/app/runtime-shutdown.service.ts:26-37 | Accepted exactly while the state is ready; the callback joins its phase |
| `RuntimeServices.RuntimeShutdownService.CallHandle` | packages/core/src/app/runtime-shutdown.lib.ts:29-39 | The first call of a handle takes it out of its set and runs the body; later calls do nothing |
| `RuntimeServices.RuntimeShutdownService.Shutdown` | packages/core/src/app/runtime-shutdown.service.ts:40-48 | The promise is created once and shared until it is cleared |
| `RuntimeServices.RuntimeShutdownService.RunShutdown` | packages/core/src/app/runtime-shutdown.service.ts:51-58 | The first guard check and the start of the before phase |
| `RuntimeServices.RuntimeShutdownService.InvokeNext` | packages/core/src/app/runtime-shutdown.lib.ts:16-19 | The next callback of a phase is called |
| `RuntimeServices.RuntimeShutdownService.AnyRejected` | packages/core/src/app/runtime-shutdown.lib.ts:20-26 | The loop over the results reports a failure exactly when an awaited body threw |
| `RuntimeServices.RuntimeShutdownService.CallbacksSettled` | packages/core/src/app/runtime-shutdown.service.ts:54-63 | A phase has settled: on to the bootstrap, its ready promise, or the end |
| `RuntimeServices.RuntimeShutdownService.FinallyRuns` | packages/core/src/app/runtime-shutdown.service.ts:43-46 | Disposed: the registry is disposed and the promise kept; refused: the promise is cleared |
| `FeatureRegistry.FeatureRegistryService.Prepare` | packages/core/src/app/feature-registry.service.ts:31-38 | The loop gives every feature an empty slot |
| `FeatureRegistry.FeatureRegistryService.GetCapabilities` | packages/core/src/app/feature-registry.service.ts:41-49 | Succeeds exactly when the registry is active and the feature is published, with the published value; otherwise the error says disposed or not ready |
| `FeatureRegistry.FeatureRegistryService.Publish` | packages/core/src/app/feature-registry.service.ts:73-77 | Sets the slot of a prepared feature and refuses an unprepared one |
| `FeatureRegistry.FeatureRegistryService.PublishAll` | packages/core/src/app/create-app.lib.ts:132-144 | The loop publishes in order up to the first unusable value |
| `FeatureRegistry.PublishedHolds` | packages/core/src/app/create-app.lib.ts:132-144 | After publishing, each feature holds the value it realized, later features notwithstanding |
| `FeatureRegistry.AssertUniqueFeatureKeys` | packages/core/src/app/create-app.lib.ts:68-85 | Passes exactly when no key is reserved or repeated, and otherwise names an offending key and the reason |
| `CreationProofs.FailedCreationLeavesNothing` | packages/core/src/app/create-app.lib.ts:147-174 | Wherever creation rejects: all hooks that started have been stopped in reverse order, the stopping has settled and every startup batch is closed, so no hook is starting or stopping; manager, bootstrap and registry are disposed, every registered callback has run exactly once, and no handle works again |
| `CreationProofs.CapabilitiesAllOrNothing` | packages/core/src/app/create-app.lib.ts:158-165 | In every run all feature handles work or none does, and only after every feature is published and before shutdown completes |
| `CreationProofs.NoDeadlock` | packages/core/src/app/create-app.lib.ts:147-174 | While a creation that has begun has not ended, some owed step can be taken |
| `CreationProofs.OwedStepIsCloser` | packages/core/src/app/create-app.lib.ts:147-174 | Each owed step lowers a well-founded measure over stages, features and the runtime below |
| `CreationProofs.EveryCreationEnds` | packages/core/src/app/create-app.lib.ts:147-174 | Under every scheduler a creation that has begun ends, with a runtime or rejected with nothing left behind |
| `CreationProofs.StepKeepsInv` | packages/core/src/app/create-app.lib.ts:147-174 | Every step of creation, of the runtime below it and of its cleanup keeps the creation invariant |
| `GraphqlShape.PrintInjective` | packages/graphql/src/graphql-model-schema.lib.ts:38-81 | Well-formed GraphQL types that print alike are the same type (section 2.11 of the GraphQL specification, October 2021) |
| `GraphqlShape.RenderValuePrints` | packages/graphql/src/graphql-model-shape.lib.ts:14-29 | Rendering a descriptor succeeds exactly when it is public and prints the type the descriptor denotes |
| `GraphqlShape.RenderedPropertyDeterminesType` | packages/graphql/src/graphql-model-schema.lib.ts:38-58 | A schema type prints as the rendered property exactly when it is that property's type |
| `GraphqlShape.RenderedResultDeterminesType` | packages/graphql/src/graphql-model-schema.lib.ts:63-81 | A schema type prints as the rendered relation exactly when it is that relation's type |
| `GraphqlManifest.ParsePropertiesLoop` | packages/graphql/src/graphql-model-manifest.lib.ts:61-72 | The loop that collects properties and rejects repeats computes the specification |
| `GraphqlManifest.ParseDependenciesLoop` | packages/graphql/src/graphql-model-manifest.lib.ts:102-110 | The loop that collects dependencies and rejects repeats computes the specification |
| `GraphqlManifestProofs.ParseValueExact` | packages/graphql/src/graphql-model-manifest.lib.ts:25-48 | A value parses to a descriptor exactly when the JSON denotes it and its nesting stays within the depth limit |
| `GraphqlManifestProofs.ParseManifestExact` | packages/graphql/src/graphql-model-manifest.lib.ts:160-214 | The parser answers with a manifest exactly when the JSON denotes it and it is well formed: distinct properties and dependencies, required string id, known targets, existing dependencies, batch fields depending on id |
| `GraphqlManifestProofs.RoundTrip` | packages/graphql/src/graphql-model-manifest.lib.ts:206-214 | Parsing the serialised form of a manifest returns it unchanged if and only if it is well formed, depth limit included |
| `GraphqlSoundness.MatchedValueCompletes` | packages/graphql/src/graphql-model-runtime.lib.ts:65-77 | A value a public descriptor matches completes under the rendered type to its own data, without error (section 6.4.3 of the GraphQL specification, October 2021) |
| `GraphqlSoundness.SourcesComplete` | packages/graphql/src/graphql-model-runtime.lib.ts:137-160 | Under a parsed manifest and an agreeing schema, every accepted source completes each public property without error, loss, or null in a non-null position |
| `GraphqlSoundness.ModelFieldsCovered` | packages/graphql/src/graphql-model-schema.lib.ts:38-99 | Under a parsed manifest, every field a checked schema gives a model is a public property or a bound field of the manifest, and has exactly the type its descriptor or its target and shape denote |
| `DataLoaders.AskedAtMostOnce` | packages/graphql/src/graphql-model-runtime.lib.ts:176-203 | The loader contract: without failures no key is asked for twice, within a batch or across batches |
| `GraphqlExecution.CompleteMapExact` | packages/graphql/src/graphql-model-runtime.lib.ts:96-107 | A batch reply is accepted exactly when its keys are the requested ids and no entry is a promise: size plus membership force equality |
| `GraphqlExecutionProofs.BatchedRefinesAlone` | packages/graphql/src/graphql-model-runtime.lib.ts:176-203 | For every order, grouping and failure of loads, a loaded id holds what resolving it alone gives |
| `GraphqlExecutionProofs.EachIdOnce` | packages/graphql/src/graphql-model-runtime.lib.ts:176-203 | While batches succeed a provider is asked for each id at most once in a whole operation |
| `GraphqlExecutionProofs.QueuedParentsRecorded` | packages/graphql/src/graphql-model-runtime.lib.ts:264-330 | In every run every id queued for a batch field has its parent recorded |
| `GraphqlExecutionProofs.BatchedFieldRefinesAlone` | packages/graphql/src/graphql-model-runtime.lib.ts:264-330 | Whatever arguments its calls pass, a batch field loads for each parent what calling it with the arguments of the first call for that parent alone gives; so a call gets what it would get alone, for every batch method that fits the run, if and only if its arguments are those of the first call |
| `GraphqlExecutionProofs.HydratedFieldRefinesAlone` | packages/graphql/src/graphql-model-runtime.lib.ts:223-330 | For parents the operation has hydrated itself, under any order of model and field batches, a batch field holds what its method gives alone for the source the provider gives alone, with the arguments of the first call |
| `GraphqlExecutionProofs.FirstArgumentsStay` | packages/graphql/src/graphql-model-runtime.lib.ts:264-289 | The arguments of the first call of a batch field stay those of every later batch of the operation |
| `GraphqlExecutionProofs.HydrationRefinesAlone` | packages/graphql/src/graphql-model-runtime.lib.ts:208-235 | References hydrate from the loaded batches exactly as from loading each id alone |
| `GraphqlExecutionProofs.HydratedCompletes` | packages/graphql/src/graphql-model-runtime.lib.ts:223-235 | A hydrated result completes under the rendered relation type; null, or a null item, only where the relation allows it |
| `GraphqlOperations.ModelOperation.Provider` | packages/graphql/src/graphql-model-runtime.lib.ts:176-203 | Creates the loader of a model once |
| `GraphqlOperations.ModelOperation.ValidateBatch` | packages/graphql/src/graphql-model-runtime.lib.ts:186-200 | The loop over a reply validates every source, in the order of the ids, or fails the batch |
| `GraphqlOperations.ModelOperation.SettleModel` | packages/graphql/src/graphql-model-runtime.lib.ts:176-203 | A provider reply settles a flight as the state machine says |
| `GraphqlOperations.ModelOperation.BatchField` | packages/graphql/src/graphql-model-runtime.lib.ts:264-289 | Creates the loader of a batch field once, with the arguments of that call |
| `GraphqlOperations.ModelOperation.LoadBatchField` | packages/graphql/src/graphql-model-runtime.lib.ts:318-330 | Records the projected parent before queuing its id |
| `GraphqlOperations.ModelOperation.Inputs` | packages/graphql/src/graphql-model-runtime.lib.ts:274-283 | The loop finds the parent of every queued id |
| `JsonSchemaProofs.ConvertFaithful` | packages/openapi/src/type-to-schema.lib.ts:25-125 | A JSON value inhabits a compilable type exactly when it validates against the emitted schema, through nullable folding, nested unions, brand properties and typed responses |
| `JsonSchemaProofs.NullableValidates` | packages/openapi/src/type-to-schema.lib.ts:66-76 | The nullable form of a schema accepts null and exactly what the schema accepts |
| `JsonSchemaProofs.FoldedFaithful` | packages/openapi/src/type-to-schema.lib.ts:78-94 | A union folded to a nullable base means the union |
| `JsonSchemaProofs.UnionFaithfulIff` | packages/openapi/src/type-to-schema.lib.ts:78-94 | A union compiles faithfully if and only if some alternative is not undefined |
| `JsonSchemaProofs.ProtoPropertyFaithfulIff` | packages/openapi/src/type-to-schema.lib.ts:25-41 | A property named `__proto__`, optional or required and whatever stands beside it, loses its type: the schema of the object is faithful if and only if that type accepts everything or another required property has a type nothing inhabits |
| `JsonSchemaProofs.DroppingKeepsNames` | packages/openapi/src/type-to-schema.lib.ts:78-94 | Dropping undefined and null alternatives drops no definition |
| `JsonSchemaCompiler.SchemaContext.ConvertTypeInfo` | packages/openapi/src/type-to-schema.lib.ts:96-125 | Emits the specified schema and adds exactly the type's names to the definitions |
| `JsonSchemaCompiler.SchemaContext.ConvertPropertiesLoop` | packages/openapi/src/type-to-schema.lib.ts:25-41 | The loop emits the specified properties and required names |
| `JsonSchemaCompiler.SchemaContext.FindTypedResponseDataType` | packages/openapi/src/type-to-schema.lib.ts:48-56 | The loop finds the data type exactly when only the typed-response keys are visible |
| `JsonSchemaCompiler.SchemaContext.ConvertUnionType` | packages/openapi/src/type-to-schema.lib.ts:78-94 | Folds, unwraps or emits anyOf as specified, keeping every definition |
| `TypeToGraphqlProofs.TypeNameIdempotent` | packages/graphql/src/type-to-graphql.lib.ts:127-136 | Normalising a type name twice is normalising it once, and gives a GraphQL name |
| `TypeToGraphqlProofs.ConvertSteps` | packages/graphql/src/type-to-graphql.lib.ts:372-404 | A successful conversion only adds definitions, keeps every field's base type known, and returns the type that the TypeScript type alone calls for |
| `TypeToGraphqlProofs.ConvertedIsSupported` | packages/graphql/src/type-to-graphql.lib.ts:372-404 | Only types the converter can express, told from the type alone, are ever converted; a type that registers no definition is converted exactly when it can be expressed |
| `TypeToGraphqlProofs.ObjectHoldsItsFields` | packages/graphql/src/type-to-graphql.lib.ts:267-291 | The object a conversion returns holds a field of the right type for each of its properties |
| `TypeToGraphqlProofs.FieldsNeverChange` | packages/graphql/src/type-to-graphql.lib.ts:221-231 | Over any sequence of uses no field once added ever changes its type and no definition is lost |
| `TypeToGraphqlProofs.PrintedNamesExist` | packages/graphql/src/type-to-graphql.lib.ts:448-460 | After any successful uses, if printing is not refused, every type a printed field or union names is built in or printed |
| `TypeToGraphqlProofs.ReturnedNamesExist` | packages/graphql/src/type-to-graphql.lib.ts:448-460 | So is the type every converted operation was given |
| `TypeToGraphqlNames.RunAdds` | packages/graphql/src/type-to-graphql.lib.ts:172-218 | After any successful uses exactly the names their types define are defined, each in the kind the type defines it in |
| `TypeToGraphqlNames.PrintedOnceIff` | packages/graphql/src/type-to-graphql.lib.ts:448-460 | Every printed name has exactly one definition, the built-in ones included, if and only if no use defines a built-in name and no two uses define one name in different kinds |
| `TypeToGraphqlNames.ObjectAndEnumShareName` | packages/graphql/src/type-to-graphql.lib.ts:172-199 | An object and an enum of one normalised name are both accepted and both printed |
| `TypeToGraphqlContext.GraphqlTypeContext.EnsureEnum` | packages/graphql/src/type-to-graphql.lib.ts:172-190 | Adds the enum or throws on incompatible values |
| `TypeToGraphqlContext.GraphqlTypeContext.EnsureObject` | packages/graphql/src/type-to-graphql.lib.ts:192-199 | Finds or creates the object under its normalised name |
| `TypeToGraphqlContext.GraphqlTypeContext.EnsureScalar` | packages/graphql/src/type-to-graphql.lib.ts:202-218 | Adds the scalar or throws on an incompatible reference |
| `TypeToGraphqlContext.GraphqlTypeContext.AddFieldDefinition` | packages/graphql/src/type-to-graphql.lib.ts:221-231 | Adds the field or throws on an incompatible type |
| `TypeToGraphqlContext.GraphqlTypeContext.Convert` | packages/graphql/src/type-to-graphql.lib.ts:372-404 | The recursive converter over the context's maps throws exactly when the specification does and otherwise leaves the specified context |
| `TypeToGraphqlContext.GraphqlTypeContext.ConvertObject` | packages/graphql/src/type-to-graphql.lib.ts:267-291 | The property loop, likewise |
| `TypeToGraphqlContext.GraphqlTypeContext.ConvertUnion` | packages/graphql/src/type-to-graphql.lib.ts:294-317 | Nullable values and string enums, likewise |
| `TypeToGraphqlContext.GraphqlTypeContext.EnsureNamedUnion` | packages/graphql/src/type-to-graphql.lib.ts:320-353 | The member loop and the union definition, likewise |
| `TypeToGraphqlContext.GraphqlTypeContext.AddGraphqlField` | packages/graphql/src/type-to-graphql.lib.ts:409-430 | One field of an object, likewise |
| `CodegenManifestProofs.ManifestGuarantees` | packages/graphql/src/graphql-codegen-manifest.lib.ts:92-154 | For every interleaving of processes and crashes that removes no held lock: at most one process is between acquire and release, the manifest is the first one or completely written, and it reads as the committed upserts applied one by one |
| `CodegenManifestProofs.LastUpsertStays` | packages/graphql/src/graphql-codegen-manifest.lib.ts:140-154 | No update is lost: each committed helper path has exactly its last entry and every other entry stays |
| `CodegenManifestProofs.UpsertSorts` | packages/graphql/src/graphql-codegen-manifest.lib.ts:146-153 | An upsert leaves the manifest sorted by helper path |
| `CodegenManifestProofs.RemovalBreaksExclusionIff` | packages/graphql/src/graphql-codegen-manifest.lib.ts:92-114 | In any state a disciplined run reaches, removing a lock judged stale keeps processes apart in every disciplined continuation if and only if no process is between acquire and release at that moment |
| `CodegenManifestProofs.HeldLockLooksStale` | packages/graphql/src/graphql-codegen-manifest.lib.ts:92-114 | A run from the start in which a process is about to remove a lock that another one holds |
| `CodegenManifestFiles.Directory.MakeDirectory` | packages/graphql/src/graphql-codegen-manifest.lib.ts:92-96 | Creating the lock directory succeeds exactly when it is absent |
| `CodegenManifestFiles.Upserter.TryAcquire` | packages/graphql/src/graphql-codegen-manifest.lib.ts:92-114 | One turn of the acquire loop: lock made, judged stale, timed out or retried |
| `CodegenManifestFiles.Upserter.Read` | packages/graphql/src/graphql-codegen-manifest.lib.ts:49-69 | Reads the complete manifest, or fails on a truncated one |
| `CodegenManifestFiles.Upserter.Rename` | packages/graphql/src/graphql-codegen-manifest.lib.ts:133-137 | The written temporary file replaces the manifest in one step |
| `CodegenManifestFiles.Upserter.Release` | packages/graphql/src/graphql-codegen-manifest.lib.ts:116-118 | The lock is removed on success and on failure |
| `OutputsLedgerProofs.OnlyGeneratedFilesDeleted` | packages/cli/src/outputs-ledger.lib.ts:65-99 | From an empty ledger, over any builds, crashes and edits: a build deletes only files an earlier completed build registered, never its own outputs, and outside the directory only marked files |
| `OutputsLedgerProofs.SweepAccountsForLedger` | packages/cli/src/outputs-ledger.lib.ts:65-99 | After a completed sweep each path of the previous ledger is current, protected, gone or reported as skipped, and those kept are untouched |
| `OutputsLedgerProofs.CrashedSweepResumes` | packages/cli/src/outputs-ledger.lib.ts:65-99 | Wherever a sweep stops, running it again ends exactly as if it had not stopped |
| `OutputsLedgerProofs.UnregisteredSurvives` | packages/cli/src/outputs-ledger.lib.ts:65-99 | A file no completed build registered survives every build |
| `OutputsLedgerProofs.VanishedIsDeleted` | packages/cli/src/outputs-ledger.lib.ts:65-99 | Nothing vanishes in a build without being recorded as deleted |
| `OutputsLedger.Workspace.Sweep` | packages/cli/src/outputs-ledger.lib.ts:65-99 | The loop deletes, skips and rewrites the ledger as specified, and changes nothing when the ledger does not parse |
| `OutputsLedger.Registered` | packages/cli/src/outputs-ledger.lib.ts:69-74 | The registered paths are the outputs without the protected ones |
| `PrebuiltWriter.IdInjective` | packages/cli/src/prebuilt-writer.lib.ts:62-83 | The joined id names feature and key without ambiguity, because an identifier holds no colon |
| `PrebuiltWriter.DedupeContributions` | packages/cli/src/prebuilt-writer.lib.ts:62-83 | A conflict is raised exactly when two contributions share feature and key but differ; otherwise the first occurrences remain |
| `PrebuiltWriter.GroupByFeature` | packages/cli/src/prebuilt-writer.lib.ts:110-123 | The loop computes the groups |
| `PrebuiltWriter.FindControlCharacter` | packages/cli/src/prebuilt-writer.lib.ts:16-21 | The loop finds a control character exactly when there is one |
| `PrebuiltWriter.WritePrebuiltModule` | packages/cli/src/prebuilt-writer.lib.ts:172-185 | Which inputs are rejected and why, the content written, and whether the file changed |
| `PrebuiltWriterProofs.ModuleIsCanonical` | packages/cli/src/prebuilt-writer.lib.ts:125-156 | Inputs with the same contributions, in any order and with any repetition, conflict alike and otherwise give the same module |
| `PrebuiltWriterProofs.GroupsPartition` | packages/cli/src/prebuilt-writer.lib.ts:110-123 | The groups split the sorted entries in order, one group a feature |
| `PrebuiltWriterProofs.ModuleGroups` | packages/cli/src/prebuilt-writer.lib.ts:104-123 | Each feature of the input forms exactly one group of the written module |
| `PrebuiltWriterProofs.QuotedTextReadsBack` | packages/cli/src/prebuilt-writer.lib.ts:85-86 | A quoted text reads back as itself wherever it stands if and only if it holds no line break, so every validated one does |
| `PrebuiltReader.ModuleReadsBack` | packages/cli/src/prebuilt-writer.lib.ts:125-159 | Evaluating the written module gives, under each feature and key, the import of the contribution made for it and nothing else, except that `__proto__` makes no entry |
| `PrebuiltReader.EveryContributionReadIff` | packages/cli/src/prebuilt-writer.lib.ts:12-59 | Every contribution is found in the evaluated module if and only if none has `__proto__` for its feature or its key, which validation lets through |
| `KeyValueStore.AtomicStore.Incr` | packages/kv/src/kv.types.ts:38-42 | The increment contract: a fresh or expired key starts at zero with the given time to live, a live key keeps its expiry, a non-positive time to live is refused without change |
| `RateLimiting.RateLimitService.Hit` | packages/rate-limit/src/rate-limit.service.ts:23-36 | One hit: the store after it and the verdict, or the failure mode's answer when the store fails |
| `RateLimiting.StoreCountsWindow` | packages/kv/src/adaptor-memory/memory-kv.adaptor.ts:118-130 | For every timed sequence of hits the store counts each hit's place within its window |
| `RateLimiting.WindowAdmitsExactly` | packages/rate-limit/src/rate-limit.service.ts:23-62 | Each window admits exactly the smaller of its hits and the limit |
| `RateLimiting.IntervalBound` | packages/rate-limit/src/rate-limit.service.ts:23-62 | Any half-open interval one window long admits at most 2 * limit - 1 hits |
| `RateLimiting.BoundReached` | packages/rate-limit/src/rate-limit.service.ts:23-62 | For every positive limit a sequence of hits reaches that bound |
| `StudioGraph.FillUnique` | packages/studio-ui/src/graph.lib.ts:27-35 | The loop fills the lookup or throws on a repeated identity |
| `StudioGraph.UniqueIff` | packages/studio-ui/src/graph.lib.ts:27-35 | The lookup exists exactly when no identity repeats, and finds each item by its own |
| `StudioGraph.ReadIff` | packages/studio-ui/src/graph.lib.ts:38-83 | A source is read exactly when owner, relation and column identities are distinct and every column, relation, setup and enclosing reference has a target |
| `StudioGraph.ValidIsLinked` | packages/studio-ui/src/graph.lib.ts:38-93 | Every lookup a reader of a read graph makes finds what it should |
| `StudioScope.Trace` | packages/studio-ui/src/scope.lib.ts:6-22 | Iterating a set while growing it terminates and returns exactly the edges whose source end is reachable from the seeds |
| `StudioScope.ComputeScopeRelations` | packages/studio-ui/src/scope.lib.ts:28-39 | The scope computed with two traces is the specified one |
| `StudioScope.ScopesNest` | packages/studio-ui/src/scope.lib.ts:28-39 | The near scope is the part of the flow scope touching the focus, the flow scope is part of all relations, and both keep graph order |
| `StudioRelations.CollectAttachments` | packages/studio-ui/src/relations.lib.ts:44-94 | The loop over the relations computes the tags |
| `StudioRelations.TagsGather` | packages/studio-ui/src/relations.lib.ts:44-94 | A tag exists exactly when relations belong to it, and holds exactly those, in graph order, at the earliest of their positions |
| `StudioRelations.TagsDistinct` | packages/studio-ui/src/relations.lib.ts:44-72 | No two tags have the same key |
| `StudioRelations.TagsKnown` | packages/studio-ui/src/relations.lib.ts:44-94 | In a read graph every relation can be placed, and every tag sits on a group and leads to something the graph has |
| `StudioLayout.ComputeMemberBoxes` | packages/studio-ui/src/layout.lib.ts:42-49 | The accumulating loop computes the rows |
| `StudioLayout.ComputeLayout` | packages/studio-ui/src/layout.lib.ts:66-96 | The nested loops over x, y and bottom compute the layout |
| `StudioLayoutProofs.RowsSorted` | packages/studio-ui/src/layout.lib.ts:36-49 | The summed row height is the same in listed and in sorted order |
| `StudioLayoutProofs.MembersFit` | packages/studio-ui/src/layout.lib.ts:42-49 | Rows start below the header, follow each other a margin apart and end within the height reserved |
| `StudioLayoutProofs.BoxIs` | packages/studio-ui/src/layout.lib.ts:66-96 | Every group of a read graph gets the box its column and its place in source order call for |
| `StudioLayoutProofs.BoxesApart` | packages/studio-ui/src/layout.lib.ts:66-96 | With columns at least 28 wide, visible boxes of one column are the gap apart and boxes of different columns are side by side |
| `StudioLayoutProofs.SourceOrderDescends` | packages/studio-ui/src/layout.lib.ts:56-63 | In one column a group earlier in the source stands above a later one |
| `StudioLayoutProofs.BoxInside` | packages/studio-ui/src/layout.lib.ts:66-96 | Every visible box lies inside its column and inside the map's width and height |
| `StudioLayoutProofs.MembersInsideBox` | packages/studio-ui/src/layout.lib.ts:78-89 | Every row of an expanded group ends within the group's box |
| `StudioLayoutProofs.MemberHasRow` | packages/studio-ui/src/layout.lib.ts:42-49 | Every member has a row |
| `StudioLayoutProofs.AnchorInside` | packages/studio-ui/src/layout.lib.ts:99-105 | Every identity has an anchor, inside its group's box: in its own row when drawn, in the header otherwise |
| `StudioEdges.CollectBundles` | packages/studio-ui/src/edges.lib.ts:26-39 | The loop computes the bundles |
| `StudioEdges.LinesHold` | packages/studio-ui/src/edges.lib.ts:26-39 | A line stands for exactly the relations drawn by it, in order; relations inside one closed group are drawn by none |
| `StudioEdges.LinesDistinct` | packages/studio-ui/src/edges.lib.ts:26-39 | No two lines have the same ends and kind |
| `StudioEdges.ParallelLinesApart` | packages/studio-ui/src/edges.lib.ts:66-72 | Different lines between the same ends get different offsets, each within fourteen of the middle |
| `StudioMediatorProofs.TransitionKeepsInv` | packages/studio-ui/src/mediator.lib.ts:73-90 | Only raw drawing events throw; every other transition keeps node, anchor, expanded groups, hidden columns, locate target and history naming existing things |
| `StudioMediatorProofs.ReachableKnown` | packages/studio-ui/src/mediator.lib.ts:22-90 | So does every run, from any state that has the invariant |
| `StudioMediatorProofs.RefusedIff` | packages/studio-ui/src/mediator.lib.ts:73-90 | An event is refused exactly when what it asks for is not there, and then changes only the notice and writes no URL |
| `StudioMediatorProofs.SelectKnown` | packages/studio-ui/src/state.lib.ts:50-55 | Selecting is accepted exactly for identities the graph has |
| `StudioMediatorProofs.LocateKnown` | packages/studio-ui/src/state.lib.ts:58-64 | Locating likewise |
| `StudioMediatorProofs.StartScopeKnown` | packages/studio-ui/src/state.lib.ts:67-73 | Starting a scope likewise |
| `StudioMediatorProofs.ToggleKnown` | packages/studio-ui/src/state.lib.ts:76-82 | Toggling is accepted exactly for columns the graph has |
| `StudioMediatorProofs.RestoreUrlKnown` | packages/studio-ui/src/state.lib.ts:94-106 | A URL is accepted exactly when its node and root are known |
| `StudioMediatorProofs.TagKnownLeads` | packages/studio-ui/src/navigation.lib.ts:58-66 | Activating a tag is accepted exactly when some visible relation belongs to it, and jumps to its target |
| `StudioMediatorProofs.PreferencesKnown` | packages/studio-ui/src/preferences.lib.ts:8-25 | Preferences are accepted exactly when their column exists |
| `StudioMediatorProofs.PresentationKnown` | packages/studio-ui/src/preferences.lib.ts:28-52 | Folding and resetting are accepted exactly when their group exists |
| `StudioJourneys.ReachedIsDrawn` | packages/studio-ui/src/state.lib.ts:36-73 | Whichever way a subject is reached, its column is shown and its group open afterwards; what selecting, locating and starting a scope each change of the view, and that none touches the history |
| `StudioJourneys.RestoredUrlIsShown` | packages/studio-ui/src/state.lib.ts:94-106 | A restored URL is the URL of what is then shown |
| `StudioJourneys.UrlRoundTrip` | packages/studio-ui/src/state.lib.ts:84-106 | The URL of any state a run reaches is accepted in any state another run reaches on the same graph, and what is then shown has that URL |
| `StudioRuntime.Runtime.Dispatch` | packages/studio-ui/src/runtime.lib.ts:24-30 | Runs the transition and performs the write it asks for; with Write, exactly the step Send |
| `StudioRuntime.Runtime.Write` | packages/studio-ui/src/runtime.lib.ts:31-37 | A write changes the bar, or fails and comes back as one more event that only sets the notice |
| `StudioRuntime.Runtime.Restore` | packages/studio-ui/src/runtime.lib.ts:39-45 | A new address is restored, or reported when it cannot be decoded: exactly the step Visit |
| `StudioRuntime.UrlTracksIff` | packages/studio-ui/src/runtime.lib.ts:24-56 | From the first address on, over any events, addresses and failing writes, the bar says what is shown if and only if the last step that gave it an address or was due to write one left no refused address, no unreadable one and no failed write of another address; otherwise it says the refused address, nothing readable, or what it said before the failed write |
| `StudioRuntime.FailedWriteLeavesBar` | packages/studio-ui/src/runtime.lib.ts:31-37 | Selecting another subject while writing fails: the subject and a notice are shown, the bar keeps the old address |
| `StudioRuntime.UnreadableAddressStays` | packages/studio-ui/src/runtime.lib.ts:39-45 | Going to an address that cannot be decoded: what was shown stays with a notice, and the bar cannot be read |
| `StudioMediatorProofs.GraphStays` | packages/studio-ui/src/mediator.lib.ts:47-69 | Once a graph is shown it stays shown, whatever snapshots arrive late |
| `StudioJourneys.CommandsOnce` | packages/studio-ui/src/state.lib.ts:58-64 | Over any events the number of the viewport command never falls, and a command that differs from an earlier one has a higher number |
| `StudioJourneys.TogglesAddUp` | packages/studio-ui/src/preferences.lib.ts:28-38 | Over any column and group toggles each column is as its last toggle left it, and each group is open by the parity of its own folds |
| `StudioDisplayProofs.SelectionShown` | packages/studio-ui/src/map-presenter.lib.ts:62-95 | Of the boxes and rows of a group exactly the display unit of the selected subject is marked: its row when open, its box otherwise |
| `StudioJourneys.TripReturns` | packages/studio-ui/src/navigation.lib.ts:36-66 | Over any events in which each jump has its own return, nested at will, the history ends as it began and each return restores the view and viewport of its jump |
| `StudioJourneys.LockedScopeStays` | packages/studio-ui/src/scope.lib.ts:24-39 | While the scope is locked, no browsing changes which relations are in scope |
| `StudioPresenter.ComputeHeadings` | packages/studio-ui/src/map-presenter.lib.ts:120-127 | The second accumulation of x computes the headings |
| `StudioPresenterProofs.PresentNeverThrows` | packages/studio-ui/src/presenter.lib.ts:76-91 | In every state a run reaches from loading, presentation succeeds |
| `StudioPresenterProofs.MapKnown` | packages/studio-ui/src/map-presenter.lib.ts:114-140 | The map can be presented for every known view of a read graph |
| `StudioPresenterProofs.InspectorKnown` | packages/studio-ui/src/inspector-presenter.lib.ts:27-59 | The inspector can be presented for every identity of a read graph |
| `StudioDisplayProofs.OfferedNeverRefused` | packages/studio-ui/src/mediator.lib.ts:22-44 | In every state a run reaches, no event that the presented controls can send is refused |
| `StudioDisplayProofs.MapShowsVisible` | packages/studio-ui/src/map-presenter.lib.ts:114-140 | The map shows exactly the groups of visible columns, in graph order, in the boxes of the layout |
| `StudioDisplayProofs.LinesJoinDrawn` | packages/studio-ui/src/edges.lib.ts:60-92 | Every line runs from anchor to anchor between two things the map draws |
| `StudioDisplayProofs.HeadingsAlign` | packages/studio-ui/src/map-presenter.lib.ts:120-127 | Each heading stands where the layout starts its column |
| `StudioDisplayProofs.TagsInOrder` | packages/studio-ui/src/map-presenter.lib.ts:54-60 | Tags stand in the order of their positions and none is dropped; tags of one rank keep the order they came in; a tag without a position counts as MAX_SAFE_INTEGER, so only tags positioned there or beyond may follow it |

## Left out

- Shutdown racing a startup batch: order and exactly-once are claimed for runs in which lifecycle shutdown does not begin while a hook is in flight; `ShutdownSoundIff` shows that this is exactly where they hold.
- Guards that change their answer: the runtime asks the guards several times in one shutdown; its runs assume that a guard which passes the bootstrap's question passes the manager's too, and `KeptStoppedIff` shows that this is exactly where its hooks are stopped, and `GapNeverStops` what happens otherwise.
- Shutdown overtaking a rollback: that nothing is in progress when an after callback begins is claimed for runs in which no rollback is going on when shutdown reaches the manager; `SettledIff` shows that this is exactly where it holds.
- Reclaiming a stale manifest lock: exclusion is claimed for runs in which no held lock is removed; `RemovalBreaksExclusionIff` gives the condition. Clocks are a free choice of when a lock looks stale or a wait times out.
- RuntimeServices.RuntimeShutdownService.InvokeNext: calls the callbacks of a phase one at a time with other steps between, where the source maps over them in one go; every run of the source is one of these runs.
- GraphqlExecutionProofs.BatchedFieldRefinesAlone: assumes that a parent id always comes with the same projected input, which `HydratedFieldRefinesAlone` derives for parents the operation hydrates. The documentation gives relations no arguments (website/docs/graphql.md:343), but the schema check does not enforce it, so the lemma says what calls with other arguments get.
- GraphqlExecutionProofs.BatchedRefinesAlone: is about ids that have loaded; one bad entry fails its whole batch, by design.
- JsonSchemaProofs.ConvertFaithful: leaves out unions of nothing but undefined and objects with a property named `__proto__`, for which `UnionFaithfulIff` and `ProtoPropertyFaithfulIff` give the exact conditions, and `undefined` outside a union, which no JSON value inhabits and whose schema accepts everything.
- TypeToGraphqlContext.GraphqlTypeContext.Convert: leaves open what the context holds after a throw, which no caller looks at.
- Enum value spelling, `enumFields` and `unionFields` in type-to-graphql.lib.ts: the spelling is a parameter, and nothing is claimed about value sets.
- `FeatureRegistryService.get`, `findDefinition` and the proxy handles, the dependency container, async-context storage and the internals of ready values: abstract, a value being pending, sealed or released.
- Error texts, aggregate error contents and the error objects handed to callers.
- DataLoader is modelled by its contract: one entry a key, batches of the queued distinct keys, results aligned by index.
- JSON key order, exotic JavaScript values beyond a few classes, and prototype tricks other than the `__proto__` property.
- Sort order of the sweep report, directory creation and the file system beyond whole files.
- The text form of the studio's addresses: one either decodes to a URL state or cannot be read, and an address written reads back.
- PrebuiltReader.ModuleReadsBack: reads the module line by line; two properties `__proto__` in one literal, an error in JavaScript, cannot arise because slots are distinct.
- The limiter's behaviour when the store fails in the middle of a sequence, `reset` inside a window, and distributed stores other than through the increment contract.
- Studio display texts, curve paths, test tables and endpoint tables of the inspector, raw pan and zoom, React views, and reading the snapshot schema; lengths are exact reals, not floating point.
- Everything driven by the TypeScript checker, HTTP, IPC and Lambda adapters, dev server, JWT and session cryptography, Redis, the website and the example apps: foreign calls, input and output, or easy members only.
