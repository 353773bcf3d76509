# Verified model of the Cheshire Cat core

A Dafny model of the stateful cores of the Cheshire Cat agent framework and of the plugins that ship with
it, with proofs of what they promise over every input, every run and every interleaving;
`dafny verify dfyconfig.toml` checks all of it.

| modules | what they model |
|---|---|
| `PluginWorld`, `PluginCaches`, `PluginManager`, `StableSort` | the plugin manager: plugins, active ids, hook/tool/form/endpoint caches, live routes, hook execution |
| `ProcedureIndex` | the procedural vector memory, reconciled with the active procedures at every sync |
| `StatusDocument`, `StatusProtocol`, `FlockProtocol` | `user_status.json`: its mutators, and the locked read-merge-write on both lock branches |
| `WorkingMemory`, `SessionProtocol` | a user's conversation window, shared by HTTP requests and websocket sessions through the cache |
| `MetadataFilter`, `TagRecall` | the metadata filter compiler, and tag-based upload and recall on top of it |
| `CatForm` | the conversational form and the agents that step it |
| `Caches` | the in-memory cache with eviction and the file cache |
| `ChunkAggregator`, `CostLedger`, `PromptVariables` | the chunk aggregator, the project cost ledger, the prompt/variable matcher |

Code that changes state is modelled by classes and loops; each such method is proved to compute a
specification function on values, and the properties are proved about that function. Protocols are state
machines whose events are the atomic actions of any number of participants. The language model, the
embedder, clocks, the validator, plugin code and file contents are arbitrary parameters.

## Where the code does not keep a promise

Each of these is stated as a condition that is proved necessary and sufficient, or as a run that shows why
a precondition is there.

- A session history is right throughout exactly in the runs where no close and no HTTP turn is made by a
  session that lost the cached object after something had been said (`HistoryRightIffSafe`). HTTP turns do
  not reload the working memory either, so teardown is not the only risky step.
- On the file-lock branch the user/tag synchronisation takes only the thread lock, and a grant can be on a
  file that is no longer under the path. The file is right throughout exactly in the runs where no dump goes
  into the file itself and every rename replaces the file its owner read, by what its owner dumped
  (`FlockRightIffSafe`). Fresh grants alone do not ensure that: a synchronisation that overlaps an update
  overwrites it (`OverlappingSyncLosesUpdate`), since both also share one temporary path. Fresh grants and no
  overlap do (`FreshRunsSerialize`).
- On the thread-lock branch nothing is lost exactly if the file exists at the start; otherwise it is created
  outside the lock and can wipe out a committed update (`NothingLostIffFileExists`).
- A rediscovery raises with the plugins forgotten and the caches untouched if it meets the unloadable folder
  of an active plugin, or one whose activation raises and whose deactivation raises as well; the error handler
  of a raising hook can then fail. `OwnersLoadedIff` says when.
- Installing over an active plugin switches it off, and its routes stay live exactly if it had endpoints
  (`ReinstallRoutesIff`). A rediscovery in which nothing raises never removes a route, so it keeps them right
  exactly if the folders still serve all of them (`RediscoverRoutesIff`).
- A filter matches points that do not contain it exactly if it has an empty nested dictionary
  (`ConverseIffInhabited`, list-free case); lists of dictionaries may be matched piecewise
  (`ListOfDictsMatchesPiecewise`).
- Validation raises exactly if a present field has two errors other than absent sub-fields (`PurgeRaises`).
  A nested value that lacks a sub-field is reported as missing and stays in the model, so after an update all
  fields are valid exactly if there was no such value (`UpdatedFieldsValidIff`).
- A sync leaves exactly one point per active trigger and no other exactly if the store has at most 10000
  points (`SyncExactIff`); two triggers share a hash exactly if a dotted name goes on with the other's type
  (`CollideIff`).
- A ledger row's total stays unit cost times quantity exactly if the total is not set alone
  (`ModifiedCostedIff`), and a user can hand a row to another user (`OthersTouchedIff`).
- Cutting missing placeholders out of a template works in every visiting order exactly if no doubled-brace
  literal spells a missing name once the other missing placeholders are gone (`EveryOrderMatchesIff`); the
  order alone can decide (`OrderDecides`).

## Model

| member | source | states |
|---|---|---|
| `PluginManager.App.Include` | core/cat/mad_hatter/decorators/endpoint.py:31-67 | a route is appended exactly if none with the same path and methods is live |
| `PluginManager.App.Exclude` | core/cat/mad_hatter/decorators/endpoint.py:69-85 | the first route with that path and methods is removed, the order of the rest is kept |
| `PluginManager.Plugin.Activate` | core/cat/mad_hatter/plugin.py:69-91 | kind by kind and in folder order every item is loaded with the plugin as its owner; failing requirements load nothing, a failing callback leaves the items loaded |
| `PluginManager.Plugin.Deactivate` | core/cat/mad_hatter/plugin.py:93-113 | everything is unloaded and its endpoints leave the route list, or the callback raised and nothing changed |
| `PluginManager.MadHatter.Collect` | core/cat/mad_hatter/mad_hatter.py:137-158 | the caches hold the active plugins' items in plugin order, hooks grouped by name |
| `PluginManager.MadHatter.SortHooks` | core/cat/mad_hatter/mad_hatter.py:160-162 | every hook list becomes its stable sort by descending priority |
| `PluginManager.MadHatter.Synchronize` | core/cat/mad_hatter/mad_hatter.py:137-165 | caches and routes are the ones derived from plugins and active ids |
| `PluginManager.MadHatter.ActivateEndpoints` | core/cat/looking_glass/cheshire_cat.py:336-343 | the endpoints of active plugins are live afterwards, none twice |
| `PluginManager.MadHatter.Toggle` | core/cat/mad_hatter/mad_hatter.py:191-223 | computes the specified toggle: it returns, the plugin raises, or the sync callback raises after everything has changed; the active list stays duplicate-free |
| `PluginManager.MadHatter.Install` | core/cat/mad_hatter/mad_hatter.py:56-71 | computes the specified install: load the folder if it is valid, then toggle |
| `PluginManager.MadHatter.Uninstall` | core/cat/mad_hatter/mad_hatter.py:73-84 | computes the specified uninstall: the core plugin stays, active plugins are switched off first |
| `PluginManager.MadHatter.FindPlugins` | core/cat/mad_hatter/mad_hatter.py:87-134 | computes the specified rediscovery, folder by folder, including where it raises and how a failed activation is undone |
| `PluginManager.MadHatter.LoadActive` | core/cat/mad_hatter/mad_hatter.py:171-183 | the active list is the persisted one plus the core plugin, without duplicates |
| `PluginManager.MadHatter.ExecuteHook` | core/cat/mad_hatter/mad_hatter.py:226-272 | the result is the last answer of a hook, an object or the scribbled copy, or the argument if none answers; None and exceptions count for nothing; the caller's object is untouched; the error handler fails exactly if a raising hook's plugin is not loaded, never while the caches agree |
| `PluginManager.MadHatter.ExecuteHookPlain` | core/cat/mad_hatter/mad_hatter.py:231-244 | without arguments every hook is called in order; the handler fails exactly if a raising hook's plugin is not loaded, and the hooks after it are then not called |
| `PluginManager.PipeAppend` | core/cat/mad_hatter/mad_hatter.py:226-272 | hooks compose in list order |
| `PluginManager.PipeIff` | core/cat/mad_hatter/mad_hatter.py:256-268 | a value comes out if and only if it is what the last answering hook made of what reached it, or nobody answers and it is what went in |
| `PluginManager.SkippedHookIsIdentity` | core/cat/mad_hatter/mad_hatter.py:226-272 | a hook that answers nothing or raises can be left out without changing the result |
| `StableSort.SortByProps` | core/cat/mad_hatter/mad_hatter.py:160-162 | the sort is ordered, a permutation, and keeps equal keys in order |
| `StableSort.StableSortUnique` | core/cat/mad_hatter/mad_hatter.py:160-162 | an ordered and stable sequence is unique |
| `PluginWorld.HooksAreStableSort` | core/cat/mad_hatter/mad_hatter.py:144-162 | a name is cached exactly if an active plugin hooks it; its list has descending priority, ties in plugin order, and nothing else |
| `PluginWorld.HookOwnersLoaded` | core/cat/mad_hatter/plugin.py:353-357 | every cached hook belongs to a loaded, active plugin |
| `PluginCaches.HooksFollowFolders` | core/cat/mad_hatter/mad_hatter.py:144-162 | under a name the cache holds exactly the hooks of that name in the active plugins' folders, each stamped with its plugin, by priority, then plugin order, then folder order |
| `PluginCaches.ToolsFollowFolders` | core/cat/mad_hatter/plugin.py:331-335 | the cached tools are exactly the tools in the active plugins' folders, each stamped with its plugin, in plugin order and within a plugin in folder order, each once |
| `PluginCaches.FormsFollowFolders` | core/cat/mad_hatter/plugin.py:331-335 | the same for the forms |
| `PluginCaches.EndpointsFollowFolders` | core/cat/mad_hatter/plugin.py:331-335 | the same for the endpoints |
| `PluginCaches.HookCachedIff` | core/cat/mad_hatter/plugin.py:353-357 | a hook is cached, under its own name, if and only if the folder of an active plugin defines it, stamped with that plugin |
| `PluginCaches.ToolCachedIff` | core/cat/mad_hatter/plugin.py:359-363 | a tool likewise |
| `PluginCaches.FormCachedIff` | core/cat/mad_hatter/plugin.py:331-335 | a form likewise |
| `PluginCaches.EndpointCachedIff` | core/cat/mad_hatter/plugin.py:331-335 | an endpoint likewise |
| `PluginWorld.ToggleKeepsInv` | core/cat/mad_hatter/mad_hatter.py:191-223 | a toggle flips one id, persists the active set and rebuilds agreeing caches, also when its sync callback raises; if the plugin is unknown or raises itself, active ids, caches and routes stay; the agreement is kept in every case |
| `PluginWorld.TogglePlugins` | core/cat/mad_hatter/mad_hatter.py:191-223 | a toggle leaves the other plugins alone; off means no items, on means the items of the folder, also when a callback then raises |
| `PluginWorld.InstallKeepsInv` | core/cat/mad_hatter/mad_hatter.py:56-71 | an install keeps the agreement; over an active id it switches the plugin off |
| `PluginWorld.InstallEffect` | core/cat/mad_hatter/mad_hatter.py:56-71 | exactly when an install returns and what is active and persisted after it, in every outcome |
| `PluginWorld.InstallLoads` | core/cat/mad_hatter/mad_hatter.py:56-71 | installing a plugin that is not active loads the items of its folder, kind by kind and in order, activates it and leaves all others alone |
| `PluginWorld.UninstallKeepsInv` | core/cat/mad_hatter/mad_hatter.py:73-84 | an uninstall keeps the agreement and forgets the plugin |
| `PluginWorld.UninstallForgets` | core/cat/mad_hatter/mad_hatter.py:73-84 | an uninstall that returns takes out exactly that plugin and its active id |
| `PluginWorld.UninstallReturnsIff` | core/cat/mad_hatter/mad_hatter.py:73-84 | an uninstall returns unless switching the plugin off or the sync raises; for the core plugin and unknown ids it does nothing |
| `PluginWorld.DiscoveredAll` | core/cat/mad_hatter/mad_hatter.py:107-134 | a discovery that is not blocked and in which no activation raises loads exactly the valid folders and keeps active and persisted ids |
| `PluginWorld.FindPluginsKeepsInv` | core/cat/mad_hatter/mad_hatter.py:87-121 | a rediscovery keeps the agreement, also when it raises, unless an active plugin's folder is unloadable or its failed activation cannot be undone |
| `PluginWorld.BlockedDiscovery` | core/cat/mad_hatter/mad_hatter.py:107-134 | a blocked rediscovery raises with caches, active ids and routes untouched and only the earlier folders loaded |
| `PluginWorld.OwnersLoadedIff` | core/cat/mad_hatter/mad_hatter.py:87-134 | after a rediscovery all cached hooks' owners are loaded if and only if it was not blocked in one of these two ways or they precede the block |
| `PluginWorld.UnloadableFolderLeavesStaleHooks` | core/cat/mad_hatter/mad_hatter.py:107-134 | a concrete blocked rediscovery that leaves hooks of a plugin that is gone |
| `PluginWorld.RaisingRecoveryLeavesStaleHooks` | core/cat/mad_hatter/mad_hatter.py:112-119 | the same for a plugin whose activation and then deactivation raise |
| `PluginWorld.CachesAgreeInEveryRun` | core/cat/mad_hatter/mad_hatter.py:56-165 | in every run of toggles, installs, uninstalls and unblocked rediscoveries, raising or not, caches and plugins agree |
| `PluginWorld.BornInv` | core/cat/mad_hatter/mad_hatter.py:37-54 | the fields before the first discovery agree |
| `PluginWorld.CachesAgreeFromTheStart` | core/cat/mad_hatter/mad_hatter.py:37-165 | caches and plugins agree in every such run of the program from its start |
| `PluginWorld.ToggleTwiceRestores` | core/cat/mad_hatter/mad_hatter.py:191-223 | toggling twice restores every cache, order included |
| `PluginWorld.ActivatedProps` | core/cat/mad_hatter/decorators/endpoint.py:31-67 | activation adds exactly the missing routes, without duplicates |
| `PluginWorld.DeactivatedProps` | core/cat/mad_hatter/plugin.py:347-351 | deactivation removes exactly the plugin's routes |
| `PluginWorld.RoutesAgreeInEveryRun` | core/cat/looking_glass/cheshire_cat.py:336-343 | every run of toggles, uninstalls and installs of not-active plugins with distinct routes keeps live routes = core routes + active endpoints, no duplicates |
| `PluginWorld.RediscoverRoutesIff` | core/cat/mad_hatter/mad_hatter.py:87-121 | a rediscovery in which nothing raises keeps the routes right if and only if every endpoint cached before is in the core or in the last valid folder of an active id |
| `PluginWorld.ReinstallRoutesIff` | core/cat/mad_hatter/mad_hatter.py:56-71 | installing over an active plugin keeps the routes right if and only if it had no endpoints |
| `PluginWorld.ReinstallLeavesRoute` | core/cat/mad_hatter/mad_hatter.py:56-71 | a concrete reinstall that leaves a dead route live |
| `ProcedureIndex.VectorStore.AddPoint` | core/cat/memory/vector_memory_collection.py:160-200 | one point with a fresh id is appended |
| `ProcedureIndex.VectorStore.DeletePoints` | core/cat/memory/vector_memory_collection.py:209-215 | exactly the points with the given ids are removed |
| `ProcedureIndex.VectorStore.BuildEmbedded` | core/cat/looking_glass/cheshire_cat.py:307-319 | every seen hash is mapped to the id of its last point |
| `ProcedureIndex.BuildActive` | core/cat/looking_glass/cheshire_cat.py:321-334 | every trigger of every active procedure is mapped under its hash |
| `ProcedureIndex.TriggersIff` | core/cat/looking_glass/cheshire_cat.py:321-334 | the triggers are exactly the contents under every trigger type of every procedure |
| `ProcedureIndex.VectorStore.EmbedProcedures` | core/cat/looking_glass/cheshire_cat.py:345-394 | deletes one point per stale seen hash and adds one per missing active hash; afterwards every trigger of every procedure has a point and, from a dot-free store within the page that repeats no hash, there is no other and none twice |
| `ProcedureIndex.SyncCounts` | core/cat/looking_glass/cheshire_cat.py:358-394 | hash by hash: an active hash keeps its points or gets one, a stale hash loses exactly one |
| `ProcedureIndex.SyncKeepsIff` | core/cat/looking_glass/cheshire_cat.py:307-319 | a sync deletes, of every stale hash on the page, the last point, and no other point |
| `ProcedureIndex.SyncExact` | core/cat/looking_glass/cheshire_cat.py:345-394 | without repeated hashes a sync ends with exactly one point per active hash, the same points where they existed |
| `ProcedureIndex.SyncExactIff` | core/cat/memory/vector_memory_collection.py:268-283 | without repeated hashes a sync ends with exactly one point per active hash and no other if and only if the store fits the page of 10000 points |
| `ProcedureIndex.SyncedStoreIsActiveTriggers` | core/cat/looking_glass/cheshire_cat.py:345-394 | for a dot-free store and dot-free active triggers the store is then exactly the active triggers, legacy points gone |
| `ProcedureIndex.EveryTriggerHasPoint` | core/cat/looking_glass/cheshire_cat.py:345-394 | after a sync every trigger of every procedure has a point under its hash, however large the store |
| `ProcedureIndex.StoreHoldsTriggers` | core/cat/looking_glass/cheshire_cat.py:345-394 | with dot-free names that point carries the very trigger |
| `ProcedureIndex.StoreIsTriggers` | core/cat/looking_glass/cheshire_cat.py:345-394 | within the page and without repeated hashes the store then holds exactly the procedures' triggers, each once |
| `ProcedureIndex.SyncIdempotent` | core/cat/looking_glass/cheshire_cat.py:345-394 | a second sync does nothing |
| `ProcedureIndex.StaleDecreases` | core/cat/looking_glass/cheshire_cat.py:358-371 | while stale points remain each sync leaves strictly fewer |
| `ProcedureIndex.StaleAfter` | core/cat/looking_glass/cheshire_cat.py:307-319 | after k syncs a stale hash has lost exactly k points, down to none |
| `ProcedureIndex.SyncsConverge` | core/cat/looking_glass/cheshire_cat.py:358-371 | after as many syncs as the largest multiplicity no stale point is left |
| `ProcedureIndex.BeyondLimitRepeats` | core/cat/memory/vector_memory_collection.py:268-283 | an active point beyond the first 10000 is embedded a second time |
| `ProcedureIndex.HashInjective` | core/cat/looking_glass/cheshire_cat.py:321-334 | for dot-free names and types the hash determines name, type and content |
| `ProcedureIndex.CollideIff` | core/cat/looking_glass/cheshire_cat.py:307-334 | two triggers with dot-free types share a hash if and only if they are equal or the name of one goes on with the other's name and type |
| `ProcedureIndex.DottedNamesCollide` | core/cat/looking_glass/cheshire_cat.py:307-334 | for any name there is a dotted one with the usual trigger types that shares its hash |
| `StatusDocument.AddSourcesKeeps` | core/cat/plugins/CAT_doc_front_end_manager/filter_and_upload.py:204-219 | appending sources keeps, adds and invents exactly what it should, without duplicates |
| `StatusDocument.AddSourcesAppends` | core/cat/plugins/CAT_doc_front_end_manager/filter_and_upload.py:207-214 | what was listed stays in front, in order |
| `StatusDocument.MergeHas` | core/cat/plugins/CAT_doc_front_end_manager/filter_and_upload.py:195-219 | after a merge the document lists what it listed before, every source under every active tag, and nothing else |
| `StatusDocument.MergeKeeps` | core/cat/plugins/CAT_doc_front_end_manager/filter_and_upload.py:204-219 | a merge changes nothing but documents lists: other users' maps, other tags' objects and every other field of a merged tag are equal; a new tag has the default fields |
| `StatusDocument.MergeKeepsActive` | core/cat/plugins/CAT_doc_front_end_manager/filter_and_upload.py:204-219 | a merge activates and deactivates no tag of anybody |
| `StatusDocument.FillTagIs` | core/cat/plugins/CAT_doc_front_end_manager/filter_and_upload.py:94-114 | completing a tag object changes no field it has and adds the others with their defaults |
| `StatusDocument.SyncHas` | core/cat/plugins/CAT_doc_front_end_manager/filter_and_upload.py:158-192 | the user/tag synchronisation neither forgets nor invents a recorded source |
| `StatusDocument.SyncFills` | core/cat/plugins/CAT_doc_front_end_manager/filter_and_upload.py:158-192 | after the synchronisation every listed tag of every listed user has all its fields, old values kept; what is not listed stays |
| `StatusDocument.SyncKeepsActive` | core/cat/plugins/CAT_doc_front_end_manager/filter_and_upload.py:158-192 | it activates and deactivates no tag of anybody |
| `StatusDocument.SchemaKeepsActiveTags` | core/cat/plugins/CAT_doc_front_end_manager/filter_and_upload.py:94-123 | completing the schema on a read changes neither the active tags nor their order |
| `StatusDocument.ActiveIff` | core/cat/plugins/CAT_doc_front_end_manager/filter_and_upload.py:284-291 | a tag is active exactly if its object has a status that is set |
| `StatusDocument.ActiveInOrder` | core/cat/plugins/CAT_doc_front_end_manager/filter_and_upload.py:284-291 | active tags are listed in the order of the dictionary, none twice |
| `StatusProtocol.StepKeepsInv` | core/cat/plugins/CAT_doc_front_end_manager/filter_and_upload.py:44-73 | every atomic action of every updater keeps the protocol invariant |
| `StatusProtocol.NoLostUpdate` | core/cat/plugins/CAT_doc_front_end_manager/filter_and_upload.py:44-73 | from any existing file, at every moment of every interleaving it reads as the committed mutators composed in lock order, and a complete one stays complete |
| `StatusProtocol.MutualExclusion` | core/cat/plugins/CAT_doc_front_end_manager/filter_and_upload.py:69-73 | at most one updater is in its critical section, the last one granted |
| `StatusProtocol.FileListsMergedSources` | core/cat/plugins/CAT_doc_front_end_manager/filter_and_upload.py:158-219 | at every moment, with synchronisations interleaved, the file lists exactly the sources listed at the start and those of the committed merges |
| `StatusProtocol.FileKeepsTags` | core/cat/plugins/CAT_doc_front_end_manager/filter_and_upload.py:158-219 | at every moment, with synchronisations interleaved, every user has the active tags of the start, in order, and every other field of a tag object its value |
| `StatusProtocol.RunAlone` | core/cat/plugins/CAT_doc_front_end_manager/filter_and_upload.py:44-73 | an updater that runs alone commits its mutator |
| `StatusProtocol.FailureReleases` | core/cat/plugins/CAT_doc_front_end_manager/filter_and_upload.py:69-73 | a failing mutator or serialisation gives the lock back and leaves the file alone |
| `StatusProtocol.CreatesEmpty` | core/cat/plugins/CAT_doc_front_end_manager/filter_and_upload.py:50-51 | an updater that finds no file creates an empty one before it wants the lock |
| `StatusProtocol.MissingFileLosesUpdate` | core/cat/plugins/CAT_doc_front_end_manager/filter_and_upload.py:44-53 | started without a file, a run after which the file is not the committed mutators composed |
| `StatusProtocol.NothingLostIffFileExists` | core/cat/plugins/CAT_doc_front_end_manager/filter_and_upload.py:44-53 | for updaters that check for the file and change an empty one, nothing is lost in any interleaving if and only if the file exists at the start |
| `FlockProtocol.SafeKeepsGood` | core/cat/plugins/CAT_doc_front_end_manager/filter_and_upload.py:54-68 | a safe action of an updater or a synchronisation, or a failing serialisation, keeps the file equal to the committed mutators in order |
| `FlockProtocol.SafeRunsSerialize` | core/cat/plugins/CAT_doc_front_end_manager/filter_and_upload.py:54-68 | in every run of safe actions, whatever the mutators, the file is complete and is the committed mutators in order |
| `FlockProtocol.UnsafeBreaks` | core/cat/plugins/CAT_doc_front_end_manager/filter_and_upload.py:170-192 | every unsafe action makes the file wrong at once |
| `FlockProtocol.FlockRightIffSafe` | core/cat/plugins/CAT_doc_front_end_manager/filter_and_upload.py:54-68 | over every interleaving of signing updaters and synchronisations the file is right throughout if and only if every action is safe |
| `FlockProtocol.FreshRunsSerialize` | core/cat/plugins/CAT_doc_front_end_manager/filter_and_upload.py:54-68 | if every lock is granted on the file still under the path and no synchronisation overlaps an update, the file is right throughout |
| `FlockProtocol.AloneCommits` | core/cat/plugins/CAT_doc_front_end_manager/filter_and_upload.py:54-68 | a participant that finds its lock free and runs alone commits its mutator and gives the lock back |
| `FlockProtocol.FailureReleases` | core/cat/plugins/CAT_doc_front_end_manager/filter_and_upload.py:54-68 | a failing mutator or serialisation gives the lock back and touches nothing on disk |
| `FlockProtocol.LateOpenHarmless` | core/cat/plugins/CAT_doc_front_end_manager/filter_and_upload.py:63-67 | opening the shared temporary file before another's dump does not disturb that commit |
| `FlockProtocol.StaleGrantLosesUpdate` | core/cat/plugins/CAT_doc_front_end_manager/filter_and_upload.py:54-68 | from any state of such a run with a stale grant, going on alone leaves fewer updates in the file than were committed |
| `FlockProtocol.OverlappingSyncLosesUpdate` | core/cat/plugins/CAT_doc_front_end_manager/filter_and_upload.py:170-192 | a synchronisation that has computed its document overwrites an update committed under a fresh grant |
| `WorkingMemory.Memory.UpdateHistory` | core/cat/memory/working_memory.py:89-99 | the history becomes the last 20 messages |
| `WorkingMemory.WindowAt` | core/cat/memory/working_memory.py:89-99 | counted from the end, the window agrees with the whole conversation |
| `WorkingMemory.ExtendedIsWindow` | core/cat/memory/working_memory.py:89-99 | cutting after every message equals cutting once |
| `WorkingMemory.TurnSays` | core/cat/looking_glass/stray_cat.py:554-575 | a turn puts the user's message before the cat's, both after everything else, in the window |
| `WorkingMemory.StrayCat.Run` | core/cat/looking_glass/stray_cat.py:554-575 | a returning turn appends what was said, the user's message first, and writes back |
| `WorkingMemory.StrayCat.Receive` | core/cat/routes/websocket/websocket.py:12-23 | a websocket message extends the cached history whatever the session held |
| `SessionProtocol.SafeKeepsInv` | core/cat/auth/connection.py:55-65 | safe actions keep the history right and stray objects empty |
| `SessionProtocol.UnsafeBreaks` | core/cat/auth/connection.py:55-65 | every unsafe action makes the cached history wrong |
| `SessionProtocol.HistoryRightIffSafe` | core/cat/looking_glass/stray_cat.py:122-132 | over every interleaving the cached history is the last 20 messages of all turns if and only if every action is safe |
| `SessionProtocol.RequestExtends` | core/cat/auth/connection.py:55-65 | a request of its own adds its turn to the cached conversation, whatever other sessions hold |
| `SessionProtocol.MessageExtends` | core/cat/routes/websocket/websocket.py:12-23 | so does a websocket message |
| `SessionProtocol.DisciplineKeepsHistory` | core/cat/routes/websocket/websocket.py:12-48 | if only sessions that ran a turn or opened after the first write-back act, the history is right |
| `SessionProtocol.IdleSessionErasesHistory` | core/cat/routes/websocket/websocket.py:47-48 | a session opened first and closed last without a message empties the history |
| `SessionProtocol.FileRightIffSafe` | core/cat/auth/connection.py:55-65 | with the file cache one action keeps the history right if and only if its copy is current |
| `SessionProtocol.FileRequestExtends` | core/cat/auth/connection.py:55-65 | with the file cache a request of its own adds its turn as well |
| `SessionProtocol.FileMessageExtends` | core/cat/routes/websocket/websocket.py:12-23 | and so does a websocket message |
| `SessionProtocol.FileHistoryRightIffSafe` | core/cat/cache/file_system_cache.py:24-62 | the same over every interleaving, for distinct messages |
| `MetadataFilter.ContainmentMatches` | core/cat/memory/vector_memory_collection.py:125-158 | any point that deeply contains the filter satisfies every emitted condition, read back from its key string |
| `MetadataFilter.MatchesIffContains` | core/cat/memory/vector_memory_collection.py:125-158 | list-free filters without empty nested dictionaries match exactly the points that contain them |
| `MetadataFilter.MatchesIffContainsPruned` | core/cat/memory/vector_memory_collection.py:138-158 | every list-free filter matches exactly the points that contain it without its empty nested dictionaries |
| `MetadataFilter.ConverseIffInhabited` | core/cat/memory/vector_memory_collection.py:138-158 | matching is containment for all points if and only if the filter has no empty nested dictionary |
| `MetadataFilter.EmptyDictMatchesAnything` | core/cat/memory/vector_memory_collection.py:138-158 | the smallest filter for which it is not |
| `MetadataFilter.ListOfDictsMatchesPiecewise` | core/cat/memory/vector_memory_collection.py:146-152 | a list of dictionaries may be matched by different elements |
| `MetadataFilter.OneConditionPerLeaf` | core/cat/memory/vector_memory_collection.py:138-158 | exactly one condition per leaf |
| `MetadataFilter.MergeIsConjunction` | core/cat/memory/vector_memory_collection.py:125-136 | merging key-disjoint filters is conjunction |
| `TagRecall.FlagsAre` | core/cat/plugins/CAT_doc_front_end_manager/filter_and_upload.py:250-273 | the recall metadata is exactly the active tags and the user, all true |
| `TagRecall.UploadHook` | core/cat/plugins/CAT_doc_front_end_manager/filter_and_upload.py:278-302 | every document gets the uploader's flags; the status document then lists exactly what it listed and every document's source under every active tag, and nobody's active tags or other tag fields change; recording never raises |
| `TagRecall.StoreDocuments` | core/cat/rabbit_hole.py:351-385 | the stored points are the layered documents that have content |
| `TagRecall.LayeredIs` | core/cat/rabbit_hole.py:363-368 | custom metadata win over source and time, and these over what the document had |
| `TagRecall.StoredFrom` | core/cat/rabbit_hole.py:363-380 | every stored point is such a document |
| `TagRecall.StoredHas` | core/cat/rabbit_hole.py:363-380 | every such document is stored |
| `TagRecall.StoredTexts` | core/cat/rabbit_hole.py:351-385 | storing loses and reorders no content |
| `TagRecall.UploadRecall` | core/cat/plugins/CAT_doc_front_end_manager/filter_and_upload.py:250-301 | a document of u with tags A passes v's filter with tags B if and only if u = v and B is a subset of A |
| `TagRecall.UploadThenRecall` | core/cat/plugins/CAT_doc_front_end_manager/filter_and_upload.py:278-302 | the same for a whole upload, end to end from the status documents at upload and recall, with all contents stored in order |
| `CatForm.PassesMeans` | core/cat/experimental/form/cat_form.py:262-286 | data passes exactly if required fields are present and present fields valid |
| `CatForm.PurgeRaises` | core/cat/experimental/form/cat_form.py:262-286 | a failed validation raises exactly if a present field has two or more errors that are not absent sub-fields |
| `CatForm.PurgeIs` | core/cat/experimental/form/cat_form.py:262-286 | it changes no value, removes only fields in which something is wrong and, if it returns, all of these |
| `CatForm.StepKeepsFormInv` | core/cat/experimental/form/cat_form.py:108-140 | a step keeps: one submission at most, only of validated data, no null-like values, never ending in COMPLETE |
| `CatForm.EveryRunSafe` | core/cat/experimental/form/cat_form.py:108-140 | that holds in every dialogue with every oracle |
| `CatForm.ClosedAbsorbs` | core/cat/experimental/form/cat_form.py:108-140 | CLOSED is absorbing |
| `CatForm.SubmitOnlyWhenAllowed` | core/cat/experimental/form/cat_form.py:108-140 | submission needs confirmation when the form asks for it, and submits exactly the validated model |
| `CatForm.SubmitsIff` | core/cat/experimental/form/cat_form.py:108-140 | a step submits exactly the model it ends with, if and only if a waiting form is confirmed or a form that asks for no confirmation is filled |
| `CatForm.ClosesIff` | core/cat/experimental/form/cat_form.py:108-140 | a step ends closed if and only if the form was closed, the user leaves or something is submitted |
| `CatForm.WaitsIff` | core/cat/experimental/form/cat_form.py:108-140 | a step ends waiting if and only if the form asks for confirmation and was just filled, or was waiting and no answer came |
| `CatForm.RaisesIff` | core/cat/experimental/form/cat_form.py:108-153 | exactly which failing answers, extractions, validations and submissions make a step raise |
| `CatForm.AcceptedFieldsSurvive` | core/cat/experimental/form/cat_form.py:144-153 | an accepted field survives until a non-null value replaces it, and values come only from extraction |
| `CatForm.UpdatedFieldsValidIff` | core/cat/experimental/form/cat_form.py:144-153 | after an update that returned every remaining field is valid if and only if no validated field fails by absent sub-fields alone |
| `CatForm.AbsentSubfieldStays` | core/cat/experimental/form/cat_form.py:277-283 | such a field stays in the model as given, also in a raising step |
| `CatForm.AddressWithoutStreet` | core/cat/experimental/form/cat_form.py:277-283 | the smallest form that keeps an invalid field |
| `CatForm.OneErrorPerFieldValidIff` | core/cat/experimental/form/cat_form.py:262-286 | with at most one other error per field, every reachable model has only valid fields if and only if no value can fail by absent sub-fields alone |
| `CatForm.Form.Validate` | core/cat/experimental/form/cat_form.py:262-286 | state and model after validation in each outcome; a field is listed as missing exactly if it or a sub-field is absent, among the errors exactly if something is wrong in it |
| `CatForm.Form.Update` | core/cat/experimental/form/cat_form.py:144-153 | extraction, sanitising, merging and validation compute the specified merge |
| `CatForm.Form.Next` | core/cat/experimental/form/cat_form.py:108-140 | one call computes the specified dialogue step |
| `CatForm.FormAgent` | core/cat/agents/form_agent.py:7-33 | a closed form is dropped, an open one stepped, a raising one left in place |
| `CatForm.ProceduresAgent` | core/cat/agents/procedures_agent.py:26-62 | an open form is replaced only in a turn where its own step raised; which form is active after the turn and whether it answers directly |
| `Caches.EvictProps` | core/cat/cache/in_memory_cache.py:32-45 | an eviction removes exactly n entries, none newer than any kept one |
| `Caches.LastStaysLast` | core/cat/cache/in_memory_cache.py:35-39 | the last of the newest entries sorts last, ties included |
| `Caches.InsertItemProps` | core/cat/cache/in_memory_cache.py:19-45 | below the bound after every insert; drops a tenth of the bound or nothing; the new entry survives if it is not older than the rest |
| `Caches.InMemoryCache.Insert` | core/cat/cache/in_memory_cache.py:19-45 | computes the specified insert and keeps the bound |
| `Caches.InMemoryCache.GetItem` | core/cat/cache/in_memory_cache.py:48-68 | the unexpired entry, or none; an expired one is dropped |
| `Caches.InMemoryCache.Delete` | core/cat/cache/in_memory_cache.py:91-101 | removes the key and keeps the order |
| `Caches.FileSystemCache.GetItem` | core/cat/cache/file_system_cache.py:37-62 | the unexpired entry, or none; an expired file is removed |
| `Caches.FileAnswers` | core/cat/cache/file_system_cache.py:24-95 | in every timed run a get answers the latest unexpired undeleted insert |
| `Caches.FilePutThenGet` | core/cat/cache/cache_item.py:12-16 | a put is served up to and including its last moment, or forever without a lifetime |
| `Caches.MemHolds` | core/cat/cache/in_memory_cache.py:19-101 | in every run the dictionary is below its bound, has unique keys and holds only latest inserts |
| `Caches.MemHitIsLatest` | core/cat/cache/in_memory_cache.py:19-101 | whatever was evicted, a hit is the latest value |
| `Caches.MemPutThenGet` | core/cat/cache/in_memory_cache.py:19-68 | in a timed run the bounded cache does the same, whatever it evicts |
| `Caches.BackendsAgree` | core/cat/cache/in_memory_cache.py:19-101 | over fewer keys than the bound both backends hold the same items |
| `Caches.BackendsAnswerAlike` | core/cat/cache/cache_item.py:12-16 | and answer every get alike, with the latest unexpired undeleted insert |
| `ChunkAggregator.Aggregate` | core/cat/plugins/CAT_aggregated_chunks/aggregated_chunk.py:27-39 | the chunks stay a prefix and the aggregates follow; size zero fails, a negative size appends nothing |
| `ChunkAggregator.FullGroupIs` | core/cat/plugins/CAT_aggregated_chunks/aggregated_chunk.py:32-37 | the j-th full group is the concatenation of its own n chunks |
| `ChunkAggregator.AggregatesAre` | core/cat/plugins/CAT_aggregated_chunks/aggregated_chunk.py:32-37 | ceil(L/n) aggregates; a short last one joins the leftover with the first min(n - r, q) aggregates |
| `ChunkAggregator.AggregatesJoin` | core/cat/plugins/CAT_aggregated_chunks/aggregated_chunk.py:27-39 | together they are the whole text, plus only what the last one absorbed |
| `CostLedger.Appended` | core/cat/plugins/CAT_new_project_cost_manager/meow_todo_list.py:228-274 | rows with consecutive ids above the largest for all components, or failure if any is unacceptable |
| `CostLedger.AddsIff` | core/cat/plugins/CAT_new_project_cost_manager/meow_todo_list.py:228-255 | an add succeeds if and only if every component is acceptable |
| `CostLedger.AddedRow` | core/cat/plugins/CAT_new_project_cost_manager/meow_todo_list.py:228-274 | column by column what is stored for each component, behind the old rows, ids counting up from the largest |
| `CostLedger.Removed` | core/cat/plugins/CAT_new_project_cost_manager/meow_todo_list.py:378-384 | the loop removes the caller's first match of each id in turn, and reports ids exactly if the table changed |
| `CostLedger.DropEachIsKept` | core/cat/plugins/CAT_new_project_cost_manager/meow_todo_list.py:378-384 | with unique ids that leaves exactly the rows that are not the caller's or not listed, in order |
| `CostLedger.Ledger.AddComponents` | core/cat/plugins/CAT_new_project_cost_manager/meow_todo_list.py:203-277 | all components are stored or the table is unchanged |
| `CostLedger.Ledger.DeleteByIds` | core/cat/plugins/CAT_new_project_cost_manager/meow_todo_list.py:372-391 | only the caller's listed rows go, in every run all of them; reports whether there were any |
| `CostLedger.Ledger.ModifyById` | core/cat/plugins/CAT_new_project_cost_manager/meow_todo_list.py:429-457 | one row of the caller is rewritten and repriced, or the table is unchanged |
| `CostLedger.ModifyFailsIff` | core/cat/plugins/CAT_new_project_cost_manager/meow_todo_list.py:429-454 | a modification fails if and only if it sets the id, the caller has no such row, or a factor needed for repricing is not a number |
| `CostLedger.Ledger.Load` | core/cat/plugins/CAT_new_project_cost_manager/todo.py:54-75 | an absent file reads as an empty table and is created |
| `CostLedger.Ledger.Save` | core/cat/plugins/CAT_new_project_cost_manager/todo.py:78-82 | the table read next is the one saved; an empty one removes the file |
| `CostLedger.IdsUniqueInEveryRun` | core/cat/plugins/CAT_new_project_cost_manager/meow_todo_list.py:228-274 | ids are unique in every run |
| `CostLedger.PutAllIs` | core/cat/plugins/CAT_new_project_cost_manager/meow_todo_list.py:442-445 | every column ends with its last update, or as it was |
| `CostLedger.ModifiedCostedIff` | core/cat/plugins/CAT_new_project_cost_manager/meow_todo_list.py:442-454 | total = unit cost × quantity survives a modification if and only if the total is not set alone to another value |
| `CostLedger.TotalMovesByRows` | core/cat/plugins/CAT_new_project_cost_manager/meow_todo_list.py:315-323 | every call moves every project total by exactly the rows it puts in and takes out |
| `CostLedger.LedgerBalances` | core/cat/plugins/CAT_new_project_cost_manager/meow_todo_list.py:203-277 | in every run a project total is the balance of the rows moved and, unless a total was set alone, the sum of unit cost × quantity |
| `CostLedger.OthersTouchedIff` | core/cat/plugins/CAT_new_project_cost_manager/meow_todo_list.py:429-457 | a call changes another user's rows if and only if it rewrites the user column of an own row to that user |
| `CostLedger.SummaryIsPriced` | core/cat/plugins/CAT_new_project_cost_manager/meow_todo_list.py:304-324 | a summary then reports the number of rows and that sum, and does not fail on its numbers |
| `CostLedger.SummaryFailsIff` | core/cat/plugins/CAT_new_project_cost_manager/meow_todo_list.py:304-324 | a summary fails if and only if the name is blank or unknown, the caller has no row there, or a total is not a number |
| `PromptVariables.Match` | core/cat/utils.py:194-217 | visiting the mismatches in any order deletes the unused variables and cuts out the missing placeholders; names and rendering are right whenever no literal spells a missing name |
| `PromptVariables.ParseSource` | core/cat/utils.py:200-202 | the formatter reads back exactly the characters and placeholders a template text is made of, doubled braces included |
| `PromptVariables.SourceParse` | core/cat/utils.py:200-202 | every template that parses is the text of what was read |
| `PromptVariables.CutSource` | core/cat/utils.py:212-214 | replacing the text of one placeholder removes that placeholder and turns every literal that spells it into an empty-named placeholder |
| `PromptVariables.RenderAppend` | core/cat/utils.py:194-217 | formatting puts the pieces together in order and fails exactly if a piece does |
| `PromptVariables.RenderPiece` | core/cat/utils.py:194-217 | a placeholder becomes its variable's text, empty where a missing variable is read as empty |
| `PromptVariables.OrderMatchesIffClean` | core/cat/utils.py:204-217 | for one visiting order, variables and placeholders end with the same names and formatting equals formatting the original with missing variables empty if and only if no cut meets a literal that spells its name |
| `PromptVariables.EveryOrderMatchesIff` | core/cat/utils.py:194-217 | that holds for every order if and only if no literal spells a missing name after all other missing placeholders are removed |
| `PromptVariables.BraceFreeMatches` | core/cat/utils.py:194-217 | it always holds for templates without literal opening braces |
| `PromptVariables.OrderDecides` | core/cat/utils.py:208-214 | for any two missing names a template that one order breaks and the other does not |

## Left out

- Language model and embedder calls, prompts, token counting, Qdrant search ranking and collections, HTTP
  routes and pages, authentication, the scheduler, file parsers, text splitting, JSON repair and archive
  extraction: wrappers over foreign libraries.
- Module import, requirement installation and settings of a plugin: activation loads a fixed set of items
  and may raise before or after doing so; of the plugin overrides only the raising of the two callbacks is
  modelled.
- The further arguments of a hook, and what a hook does besides answering.
- The first discovery, made by the constructor, runs before the sync callback is set; its endpoints go live
  when the callback is first called, while the model activates them with every sync.
- The order in which the active ids are persisted (a set turned into a list) is arbitrary.
- Failures of `include_router`, and the guard that skips deactivating an endpoint that was never activated:
  a sync activates the endpoints of every active plugin.
- The procedural index is synchronised by a callback of the plugin sync; the two are separate modules, joined
  by the list of active procedures.
- Raising turns and cache eviction in the session protocol: turns are atomic and return normally, and entries
  do not expire.
- The `/user-status` and `/tags` writers, which take no lock.
- Base names of source paths are an arbitrary function. `UploadHook` runs alone on the status document;
  interleaved updates are in `StatusProtocol` and `FlockProtocol`.
- Other plugins' hooks around storing documents, taken as identity.
- Null and floating-point leaves in filters, which the vector store's client rejects.
- CSV type coercion, missing cells, floating-point rounding and project registration in the ledger: rows are
  full, numbers are reals, and the known project names are a parameter. Parsing the request text, and the
  request to delete a whole project, are not modelled.
- PromptVariables.Match: conversions, format specifications and attribute lookups in placeholders are not
  modelled, and the variables are a value, while the original updates the caller's dictionary.
- The optional classification of chunks before aggregation; the aggregator starts from the filtered list.
