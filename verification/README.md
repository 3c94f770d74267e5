# Hyperledger Composer: verified models of its stateful parts

This project models the parts of Hyperledger Composer that keep state, run concurrently or undo
one another, and proves what they promise. `dafny verify dfyconfig.toml` checks everything.

- **Chaincode pool.** `PoolModel` is a transition system: any number of goroutines, one program
  counter each, a writer-preferring read-write lock (an announced writer keeps new readers out, as
  in Go), the bounded channel of the pool, and the one-slot callback channel of each call.
  `PoolSafety` proves the invariant of every step, `PoolTheorems` the results, and
  `ChaincodeRuntime` runs the statements on shared fields, proved against the transition system.
- **JavaScript machine.** `VirtualMachine` is the value stack with the primitives the Go wrappers
  use; `VmWrappers` and `VmCalls` are the wrappers instruction by instruction.
- **World state.** `CompositeKeys` is the NUL-delimited key scheme, `WorldState` the stub with its live
  range iterators, `DataService` the operations with their loops against `DataServiceSpec`, and
  `Ledger` the refinement of the two-level view. `StoreLaws` says what callers can count on by replies
  alone, `JsonText` is the text of records, and `LoggingService` keeps its level in the same store.
- **Model registry.** `ModelRegistry` says what adding, updating, deleting and validating do,
  `ModelManager` is the manager with its rollback, `RegistryTheorems` and `BatchTheorems` hold the
  results. `ModelUtil` is the algebra of dotted names.
- **Archives and cards.** `ZipFiles` is a zip as an ordered list of files. `BusinessNetworkArchive`,
  its theorems and `BusinessNetworkDefinition` write and read networks; `DirectoryWalk` finds their
  files below a directory; `IdCards` and `IdCardFiles` migrate, write and read identity cards.
- **Commit protocol.** `CommitProtocol`, `CommitTheorems` and `HlfConnection`: endorse, order, wait for
  every event hub or its timer.
- **Remote sessions.** `Sessions`, `SessionTheorems` and `ConnectorServer`: session tables, event routing
  and the client at the other end of the socket.
- **Profile stores.** `ProfileStores`, `ProfileStoreTheorems` and `ComboConnectionProfileStore`: stores
  looked through in order, nested in any way.
- **Release scripts and samples.** `PackageVersions` and `PackageScripts` stamp and check versions;
  `Samples` selects and orders sample networks.

Code that changes state in place is a class or a method with loops, proved equal to a function of
the old state; the theorems are about those functions. `Wrappers`, `Collections`, `Strings`,
`Sorting` and `FilePaths` are shared vocabulary.

Where the code differs from what it says about itself, the model follows the code:

- Put is documented to discard a Composer when the pool is full; it would block. It never has to
  (`PoolTheorems.PutNeverBlocks`).
- addModelFile is documented to replace a file of the same namespace; it refuses a second one.
- addModelFiles is documented as adding files irrespective of dependencies; it also fails when a file
  registered before has lost an import, where addModelFile would not
  (`BatchTheorems.BrokenRegistryRefusesBatch`).
- isLocalType takes a short name that begins with the text of its namespace for a full one and does
  not find it (`BatchTheorems.DeclaredTypeFound`, `BatchTheorems.ShortNameMissed`).
- The stamping script computes the version without its earlier stamp and throws it away, so that
  stamps pile up (`PackageVersions.StampReplacesIff`, `PackageVersions.StampsPileUp`).
- loadAll shows a profile of null, false, 0 or an empty string that load passes over
  (`ProfileStoreTheorems.LoadAllAgreesWithLoad`, `ProfileStoreTheorems.NullShownButNotLoaded`).
- `acceptsDir` tests the directories above a directory, not its own name, so a `node_modules` directory
  itself is still listed and only what lies deeper is pruned; no accepted file is gained or lost.

## Model

| member | source | states |
|---|---|---|
| `PoolTheorems.PoolIsSafe` | packages/composer-runtime-hlfv1/composerpool.go:43-82 | In every reachable state of any number of goroutines: PoolCount is at most PoolMax, no Composer is in two hands or both in a hand and queued, queued plus held Composers are all Composers, the indices are exactly 0 to n-1, and whoever is at the channel receive sees a full pool. |
| `PoolTheorems.DeadlockFreeIffPoolHasASlot` | packages/composer-runtime-hlfv1/composerpool.go:49-70 | No reachable state with an unfinished goroutine is without an enabled step, although a goroutine that fails the re-check waits with the write lock held: exactly when PoolMax is at least 1. |
| `PoolTheorems.EmptyPoolDeadlocks` | packages/composer-runtime-hlfv1/composerpool.go:28-39 | With PoolMax 0 the first call reaches a deadlock. |
| `PoolTheorems.EveryScheduleFinishes` | packages/composer-runtime-hlfv1/chaincode.go:83-97 | Once no call arrives, every schedule ends after at most 18 steps per goroutine; when no step is left, every call has returned what its own script reported and the pool holds every Composer. |
| `PoolTheorems.PutNeverBlocks` | packages/composer-runtime-hlfv1/composerpool.go:75-82 | A goroutine that returns its Composer always finds room in the channel. |
| `PoolTheorems.ReportNeverBlocks` | packages/composer-runtime-hlfv1/engine.go:67-92 | The one-slot callback channel always accepts the report of a running script, and the error of one that throws while it is called. |
| `PoolTheorems.WriterExcludes` | packages/composer-runtime-hlfv1/composerpool.go:49-63 | Whoever holds the write lock is alone: no other writer and no reader. |
| `PoolTheorems.CallIsIsolated` | packages/composer-runtime-hlfv1/composer.go:132-157 | From setStub until its channel receive a call's Composer carries that call's stub and, once made, its context; its script saw that context; the call returns what its own script reported. |
| `PoolTheorems.ReportIsReturned` | packages/composer-runtime-hlfv1/engine.go:121-124 | In every run, once a script has reported a result or an error, or has thrown, that and nothing else is what its call returns, however the rest is scheduled. |
| `PoolTheorems.RepliesAreReported` | packages/composer-runtime-hlfv1/composer.go:151-157 | Nothing is returned that the call's own script did not report or throw. |
| `PoolTheorems.ReportedStep` | packages/composer-runtime-hlfv1/engine.go:67-92 | No step changes a report once made, and only the call's own report or throw makes one. |
| `PoolTheorems.StepsDoNotInterfere` | packages/composer-runtime-hlfv1/chaincode.go:83-97 | A step of one goroutine changes neither the progress of another nor the Composer the other holds. |
| `PoolTheorems.GetFetches` | packages/composer-runtime-hlfv1/composerpool.go:49-70 | A Composer that Get hands over is new while PoolCount is below PoolMax, and otherwise the one queued longest. |
| `PoolTheorems.GetBlocked` | packages/composer-runtime-hlfv1/composerpool.go:49-68 | Get waits exactly at a lock that others hold, or at the channel when it is empty and the pool full. |
| `PoolTheorems.HolderBlocked` | packages/composer-runtime-hlfv1/composer.go:132-157 | A goroutine with a Composer waits exactly when its own script has not reported yet. |
| `PoolTheorems.HolderSteps` | packages/composer-runtime-hlfv1/composer.go:132-157 | A goroutine with a Composer changes no other Composer, and keeps its own until it queues it. |
| `PoolSafety.StepPreserves` | packages/composer-runtime-hlfv1/composerpool.go:43-82 | Every step of every goroutine preserves the lock, pool, hand, index and call invariants. |
| `PoolSafety.ReachableInvariant` | packages/composer-runtime-hlfv1/composerpool.go:28-82 | Those invariants hold in every reachable state. |
| `ChaincodeRuntime.Runtime.constructor` | packages/composer-runtime-hlfv1/composerpool.go:28-39 | A new pool is the initial state: nothing created, an empty channel of capacity max. |
| `ChaincodeRuntime.Runtime.Step` | packages/composer-runtime-hlfv1/chaincode.go:70-98 | One statement of one goroutine, on the shared fields, does what the transition relation says and keeps the invariant, or does nothing when it is blocked; a reported result or error, and a thrown error, is then the one thing in its call's channel. |
| `ChaincodeRuntime.Runtime.Get` | packages/composer-runtime-hlfv1/composerpool.go:43-71 | Every statement of Get keeps the invariant; the Composer Get ends with is this goroutine's alone, new or the one queued longest; Get waits only for locks that others hold or with all PoolMax Composers in use. |
| `ChaincodeRuntime.Runtime.Hold` | packages/composer-runtime-hlfv1/composer.go:124-158 | Every statement on a held Composer keeps the invariant, leaves all other Composers as they are and the held one in these hands alone until it is queued again with the script's own report returned; it waits for nothing but that report. |
| `ChaincodeRuntime.Runtime.HandleCallback` | packages/composer-runtime-hlfv1/engine.go:67-92 | A running script's report is always taken, and is then the one thing in its own call's channel; no other goroutine is affected. |
| `VmCalls.NewContext` | packages/composer-runtime-hlfv1/context.go:32-78 | From any value stack: the stack comes back as found; the stash holds a new context made from the engine with its four methods, and four new services with all their methods and this call's stub; nothing else that existed changed. |
| `VmCalls.StartCall` | packages/composer-runtime-hlfv1/composer.go:141-147 | Whatever an earlier call left in the stash, the engine is called with a context that was made for this call, complete with services that have this call's stub, and with exactly this call's function, channel, and arguments in their order. |
| `VmCalls.CallEngine` | packages/composer-runtime-hlfv1/engine.go:133-169 | The engine in the stash is called with its method name, the context in the stash, the function name, an array with exactly the arguments under 0, 1, 2 and so on, and a callback to this call's channel; the stack comes back as found. Init is the same with another name. |
| `VmCalls.PushArguments` | packages/composer-runtime-hlfv1/engine.go:150-154 | The array on the stack has exactly the indices from 0 below the number of arguments, and each argument under its own. |
| `VmWrappers.NewContainer` | packages/composer-runtime-hlfv1/container.go:30-64 | Stack as found; the stash holds a new container and a new logging service, each with all its methods. |
| `VmWrappers.NewLoggingService` | packages/composer-runtime-hlfv1/loggingservice.go:66-112 | Stack as found; the stash holds a new logging service with its eight methods. |
| `VmWrappers.NewEngine` | packages/composer-runtime-hlfv1/engine.go:35-64 | Stack as found; the stash holds a new engine made from the container in the stash. |
| `VmWrappers.NewDataService` | packages/composer-runtime-hlfv1/dataservice.go:37-76 | Stack as found; the stash holds a new data service with its five methods. |
| `VmWrappers.NewDataCollection` | packages/composer-runtime-hlfv1/datacollection.go:33-78 | Stack as found; the stash holds a new data collection made from the data service in the stash, with its six methods. |
| `VmWrappers.NewEventService` | packages/composer-runtime-hlfv1/eventservice.go:30-64 | Stack as found; the new event service in the stash has the commit method bound to itself, bound before it is attached. |
| `VmWrappers.NewHTTPService` | packages/composer-runtime-hlfv1/httpservice.go:41-75 | Stack as found; the new HTTP service in the stash has the post method bound to itself. |
| `VmWrappers.NewIdentityService` | packages/composer-runtime-hlfv1/identityservice.go:43-86 | Stack as found; the stash holds a new identity service with its four methods. |
| `VmWrappers.MethodsAdded` | packages/composer-runtime-hlfv1/dataservice.go:62-72 | Whatever methods are attached one after another, the object has every one of them, belonging to its own Go wrapper, and nothing else changes. |
| `Ledger.StoreRefinesLedger` | packages/composer-runtime-hlfv1/dataservice.go:79-214 | Over every sequence of admissible collection, object and log-level operations, the flat composite-key store and a set of collections with a map from (collection, object) to value give the same replies and stay in correspondence. |
| `Ledger.StepRefines` | packages/composer-runtime-hlfv1/datacollection.go:81-498 | One admissible operation, with any IDs, valid or not: same reply, same correspondence. |
| `Ledger.StepRefinesIff` | packages/composer-runtime-hlfv1/dataservice.go:27-28 | Exactly the admissible operations refine in every store: all but deleting or listing the reserved ID and object operations under it with an object ID that makes a key; each of these fails in a store that one createCollection makes. |
| `Ledger.FreshStoreRefinesLedger` | packages/composer-runtime-hlfv1/dataservice.go:79-214 | From the empty store on, no sequence of admissible operations tells the two views apart. |
| `Ledger.GetAllRefines` | packages/composer-runtime-hlfv1/datacollection.go:81-148 | A scan of one collection yields exactly its objects, once each, in order of their IDs, even when one collection ID is a prefix of another. |
| `Ledger.DeleteRefines` | packages/composer-runtime-hlfv1/dataservice.go:161-214 | Deleting a collection removes its record and exactly its objects. |
| `Ledger.ReservedIdCreatesCollections` | packages/composer-runtime-hlfv1/dataservice.go:27-28 | The excluded collection ID really breaks the refinement: an object added to it creates a collection of that name. |
| `Ledger.ReservedIdDeletesCollections` | packages/composer-runtime-hlfv1/dataservice.go:414-454 | Deleting the reserved ID as a collection removes the record of every collection there is. |
| `StoreLaws.AddThenGet` | packages/composer-runtime-hlfv1/datacollection.go:268-345 | An add is refused exactly without force for an object that exists; otherwise the object reads as written and every other object as before. |
| `StoreLaws.UpdateThenGet` | packages/composer-runtime-hlfv1/datacollection.go:348-424 | An update is refused exactly for an object that does not exist; otherwise the object reads as written and every other as before. |
| `StoreLaws.RemoveThenGet` | packages/composer-runtime-hlfv1/datacollection.go:427-498 | A remove is refused exactly for an object that does not exist; otherwise the object is gone and can be added again, and every other reads as before. |
| `StoreLaws.CreateThenExists` | packages/composer-runtime-hlfv1/dataservice.go:79-158 | A collection is created exactly with force or if there is none; its record is JSON text that names it, and no object and no other collection changes. |
| `StoreLaws.DeleteThenExists` | packages/composer-runtime-hlfv1/dataservice.go:161-214 | After a delete neither the collection nor any of its objects is found; every other is found as before. |
| `StoreLaws.ReservedCharactersRefused` | packages/composer-runtime-hlfv1/dataservice.go:92-102 | With an ID that no key can be made from, every operation is refused and changes nothing. |
| `JsonText.QuoteBack` | packages/composer-runtime-hlfv1/dataservice.go:124-134 | The JSON string written for any text reads back as that text. |
| `CompositeKeys.JoinInjective` | packages/composer-runtime-hlfv1/datacollection.go:151-180 | Different (collection, object) pairs have different keys, for IDs free of the separator. |
| `CompositeKeys.PartialDecides` | packages/composer-runtime-hlfv1/dataservice.go:414-430 | The key prefix of one collection is the prefix of another collection's key only if they are the same collection. |
| `CompositeKeys.ScanRange` | packages/composer-runtime-hlfv1/dataservice.go:414-430 | The key range that is scanned holds exactly the keys that begin with the collection's prefix. |
| `DataService.DataService.CreateCollection` | packages/composer-runtime-hlfv1/dataservice.go:79-158 | Without force an existing collection is refused; otherwise the record is written and a handle returned. |
| `DataService.DataService.DeleteCollection` | packages/composer-runtime-hlfv1/dataservice.go:161-214 | Objects are cleared and the record is deleted, whether or not the collection existed. |
| `DataService.DataService.GetCollection` | packages/composer-runtime-hlfv1/dataservice.go:217-282 | A handle if the record exists, an error otherwise. |
| `DataService.DataService.ExistsCollection` | packages/composer-runtime-hlfv1/dataservice.go:285-337 | Whether the record exists. |
| `DataService.DataService.ClearCollection` | packages/composer-runtime-hlfv1/dataservice.go:414-454 | The loop that deletes while it iterates a live range deletes exactly the scanned keys. |
| `DataService.DataCollection.GetAll` | packages/composer-runtime-hlfv1/datacollection.go:81-148 | All values of the scan, in key order. |
| `DataService.DataCollection.ReadAll` | packages/composer-runtime-hlfv1/datacollection.go:109-136 | The iterator loop fills the array with the remaining values, in key order. |
| `DataService.DataCollection.Get` | packages/composer-runtime-hlfv1/datacollection.go:151-212 | The stored value, or an error if there is none. |
| `DataService.DataCollection.Exists` | packages/composer-runtime-hlfv1/datacollection.go:215-265 | Whether the key is there. |
| `DataService.DataCollection.Add` | packages/composer-runtime-hlfv1/datacollection.go:268-345 | Without force an existing object is refused; otherwise the value is written. |
| `DataService.DataCollection.Update` | packages/composer-runtime-hlfv1/datacollection.go:348-424 | Only an existing object is overwritten. |
| `DataService.DataCollection.Remove` | packages/composer-runtime-hlfv1/datacollection.go:427-498 | Only an existing object is deleted. |
| `WorldState.StateIterator.Next` | packages/composer-runtime-hlfv1/dataservice.go:432-447 | The next key is the least that is left of the range as the store now is. |
| `LoggingService.LoggingService.GetLevel` | packages/composer-runtime-hlfv1/loggingservice.go:32-46 | The stored level, else the environment's, else INFO. |
| `LoggingService.LoggingService.SetLevel` | packages/composer-runtime-hlfv1/loggingservice.go:49-57 | The level is in force from then on, the same up to case and without lower-case letters, and every collection and object the store represents is unchanged. |
| `Strings.UpperIff` | packages/composer-runtime-hlfv1/loggingservice.go:52-53 | Upper case is the one spelling without lower-case letters that is the same up to case. |
| `BatchTheorems.BatchMatchesSequence` | packages/composer-common/lib/modelmanager.js:214-272 | If adding files one by one succeeds, the batch in any order reaches the same registry exactly when the files registered before are valid there, and is refused otherwise. |
| `BatchTheorems.BatchMatchesSequenceWhenValid` | packages/composer-common/lib/modelmanager.js:127-152 | With a valid registry the batch, in any order, always succeeds with the same registry. |
| `BatchTheorems.BrokenRegistryRefusesBatch` | packages/composer-common/lib/modelmanager.js:258-261 | From the system model alone, adding a, adding b that imports a type of a, and deleting a leave b stranded; then a file that adding alone accepts is refused as a batch of one. |
| `BatchTheorems.RegisterIff` | packages/composer-common/lib/modelmanager.js:223-251 | The first loop succeeds exactly when no namespace is the system's, taken, or repeated. |
| `BatchTheorems.RegisterAnyOrder` | packages/composer-common/lib/modelmanager.js:223-251 | The registry reached does not depend on the order of the files. |
| `BatchTheorems.DependencyOrderIffAcyclic` | packages/composer-common/lib/modelmanager.js:214-272 | An accepted batch can be added one by one in some order exactly when its files do not import each other in a circle. |
| `BatchTheorems.DeclaredTypeFound` | packages/composer-common/lib/introspect/modelfile.js:231-236 | A declared type is found by its full name; by its short name exactly when that does not begin with the namespace's text. |
| `BatchTheorems.ShortNameMissed` | packages/composer-common/lib/introspect/modelfile.js:373-385 | Namespace a with a type ab: the type is declared, not found by its short name, and a file that refers to it is refused. |
| `RegistryTheorems.RegistrySound` | packages/composer-common/lib/modelmanager.js:64-81 | Over every run of add, batch add, update, delete and clear: every key is its file's namespace, and the system model is there, unchanged. |
| `RegistryTheorems.StaysValid` | packages/composer-common/lib/introspect/modelfile.js:161-199 | A valid file stays valid when the namespaces it imports stay and keep the types it refers to: those it imports by name and those its references stand for through a wildcard. Other types may go. |
| `RegistryTheorems.RunKeepsValid` | packages/composer-common/lib/modelmanager.js:164-204 | A file whose references resolve stays resolvable over every run in which no update, delete or clear takes away a namespace it imports or a type it refers to. |
| `RegistryTheorems.LastWriterWins` | packages/composer-common/lib/modelmanager.js:127-272 | Over every run, a namespace holds what the last successful add, batch, update, delete or clear that concerned it decided, or else what it held at the start. |
| `RegistryTheorems.AddRegisters` | packages/composer-common/lib/modelmanager.js:127-152 | An add succeeds exactly for a valid file of a new namespace, and registers that file and nothing else. |
| `RegistryTheorems.UpdateReplaces` | packages/composer-common/lib/modelmanager.js:164-189 | An update succeeds exactly for a valid file of a registered namespace other than the system's, puts it in the old one's place and changes nothing else. |
| `RegistryTheorems.DeleteRemoves` | packages/composer-common/lib/modelmanager.js:196-204 | A delete succeeds exactly for a registered namespace other than the system's, and removes it alone. |
| `RegistryTheorems.RefusedBecause` | packages/composer-common/lib/modelmanager.js:127-204 | Which error each refused operation gives. |
| `RegistryTheorems.ImportOkIff` | packages/composer-common/lib/introspect/modelfile.js:161-199 | An import is good exactly if its namespace is registered and it is a wildcard or names a type found there. |
| `RegistryTheorems.ReferenceOkIff` | packages/composer-common/lib/introspect/modelfile.js:204-229 | With good imports a reference is good exactly if it is to a primitive type, to a type that an import brings in, or to one the file declares. |
| `RegistryTheorems.RegisterExtends` | packages/composer-common/lib/modelmanager.js:223-251 | A batch keeps everything registered before and adds its files under their namespaces and nothing else. |
| `RegistryTheorems.ImportedResolves` | packages/composer-common/lib/introspect/modelfile.js:267-291 | A short name that a valid import brings in resolves in the registry. |
| `ModelManager.ModelManager.constructor` | packages/composer-common/lib/modelmanager.js:53-81 | A new manager holds the system model alone. |
| `ModelManager.ModelManager.AddModelFile` | packages/composer-common/lib/modelmanager.js:127-152 | Adds a valid file under a new namespace; refuses the system namespace, a taken one, an invalid file, leaving the registry as it was. |
| `ModelManager.ModelManager.UpdateModelFile` | packages/composer-common/lib/modelmanager.js:164-189 | On success the new file stands in the place of a registered one of its namespace, and nothing else has changed; otherwise nothing has. |
| `ModelManager.ModelManager.DeleteModelFile` | packages/composer-common/lib/modelmanager.js:196-204 | Removes exactly the namespace; never the system's. |
| `ModelManager.ModelManager.AddModelFiles` | packages/composer-common/lib/modelmanager.js:214-272 | All files or none: the loops register, then validate every registered file, and put the registry back on any failure. |
| `ModelManager.ModelManager.ClearModelFiles` | packages/composer-common/lib/modelmanager.js:334-337 | Only the system model is left. |
| `ModelUtil.SplitThenJoin` | packages/composer-common/lib/modelutil.js:191-197 | Joining namespace and short name gives a name back exactly when its last dot is not its first character. |
| `ModelUtil.JoinThenSplit` | packages/composer-common/lib/modelutil.js:102-114 | Splitting a joined name gives the parts back exactly when the short name has no dot. |
| `ModelUtil.PrefixIsSegmentPrefix` | packages/composer-common/lib/modelutil.js:75-93 | The character-prefix test is the prefix test on lists of segments. |
| `ModelUtil.RecursiveWildcardMatches` | packages/composer-common/lib/modelutil.js:75-93 | `ns.**` matches exactly the types whose namespace's segments begin with those of ns. |
| `ModelUtil.WildcardImpliesRecursive` | packages/composer-common/lib/modelutil.js:53-71 | `ns.*` matches exactly the types of ns, and `ns.**` matches whatever it matches. |
| `ModelUtil.BareRecursiveMatchesAll` | packages/composer-common/lib/modelutil.js:75-93 | `**` matches every type. |
| `ModelUtil.PlainNameMatches` | packages/composer-common/lib/modelutil.js:75-93 | A name without a star matches exactly the type of that name and what extends it; no name is an error. |
| `BusinessNetworkArchiveTheorems.RoundTripIff` | packages/composer-common/lib/businessnetworkdefinition.js:295-353 | Reading back what was written restores package, README, rules, model texts and script texts in order exactly when the ACL and query files have the names looked for, base names are distinct and end as looked for, and everything is still valid together; then it restores everything but the file names, which become archive paths. |
| `BusinessNetworkArchiveTheorems.ComposerRoundTrip` | packages/composer-common/lib/businessnetworkdefinition.js:184-248 | The same in the program's own names: permissions.acl, queries.qry, .cto and .js. |
| `BusinessNetworkArchiveTheorems.ComposerPlaces` | packages/composer-common/lib/businessnetworkdefinition.js:299-342 | Which path of the archive holds what. |
| `BusinessNetworkArchiveTheorems.StoredUnderFileName` | packages/composer-common/lib/businessnetworkdefinition.js:329-341 | Models and scripts are stored under their own file names, whatever directory they were in. |
| `BusinessNetworkArchiveTheorems.UnnamedModelsAreRight` | packages/composer-common/lib/businessnetworkdefinition.js:326-328 | Models without file names are stored under their namespaces, never collide, and end as they should. |
| `BusinessNetworkArchiveTheorems.LoadsIff` | packages/composer-common/lib/businessnetworkdefinition.js:194-286 | An archive loads exactly if its package file is there and accepted and models, scripts and rules pass. |
| `BusinessNetworkArchiveTheorems.SecondTripChangesNothing` | packages/composer-common/lib/businessnetworkdefinition.js:169-288 | With ACL and query files named without slashes, whatever came back from a first round trip comes back from a second unchanged, even if the first lost models, scripts or rules, exactly unless an empty rules file was written in the README's place. |
| `BusinessNetworkArchiveTheorems.ReadmeBack` | packages/composer-common/lib/businessnetworkdefinition.js:299-315 | What the archive holds as README: the README if not empty, unless an ACL or query file has its name. |
| `BusinessNetworkArchiveTheorems.MatchesOwnDir` | packages/composer-common/lib/businessnetworkdefinition.js:207-220 | The unanchored patterns match a file of their own directory exactly when its name ends in the extension and has no line break before it. |
| `BusinessNetworkArchiveTheorems.WrittenAsIs` | packages/composer-common/lib/businessnetworkdefinition.js:320-342 | With good names, no written file overwrites another. |
| `BusinessNetworkArchiveTheorems.CountForcesNames` | packages/composer-common/lib/businessnetworkdefinition.js:320-342 | If as many models and scripts come back as were written, all base names were distinct and well ended. |
| `BusinessNetworkArchiveTheorems.ComposerIsProper` | packages/composer-common/lib/businessnetworkdefinition.js:184-248 | The file and directory names the program uses keep the parts of an archive apart. |
| `BusinessNetworkDefinition.WriteArchive` | packages/composer-common/lib/businessnetworkdefinition.js:295-353 | The writer fills the zip with the package, the README if not empty, the rules, all models and all scripts, later files replacing earlier ones of the same path. |
| `BusinessNetworkDefinition.ReadArchive` | packages/composer-common/lib/businessnetworkdefinition.js:169-288 | The reader collects models and scripts into lists, adds the models as one batch, then scripts, ACL and queries, with the error of the first step that fails. |
| `DirectoryWalk.PruningIsSound` | packages/composer-common/lib/businessnetworkdefinition.js:643-692 | For every finite tree, sorting and filtering the pruned walk gives the same list as the full walk. |
| `DirectoryWalk.ProcessDirectory` | packages/composer-common/lib/businessnetworkdefinition.js:643-668 | Names and contents come out in strictly ascending order of paths, each with its file's contents, and a file is among them exactly when it passes the glob and no directory between it and the base is called node_modules. |
| `DirectoryWalk.WalkSync` | packages/composer-common/lib/businessnetworkdefinition.js:679-692 | The recursive loop appends what the walk of the tree finds to the list it is given. |
| `DirectoryWalk.NodeModulesTest` | packages/composer-common/lib/businessnetworkdefinition.js:45-55 | The text test on a path is the test on the directories passed through from the base. |
| `DirectoryWalk.RejectedBelow` | packages/composer-common/lib/businessnetworkdefinition.js:439-451 | Nothing below a pruned directory would have been accepted. |
| `DirectoryWalk.WalkListsFiles` | packages/composer-common/lib/businessnetworkdefinition.js:679-692 | The full walk lists every file of the tree once; the pruned one, some of them once. |
| `IdCards.ArchiveRoundTrip` | packages/composer-common/lib/idcard.js:197-294 | A card comes back from its archive with exactly those credentials whose names are not empty and free of slashes. |
| `IdCards.SurvivesArchiveIff` | packages/composer-common/lib/idcard.js:236-249 | It comes back unchanged exactly when all its credential names are such. |
| `IdCards.NewCardSurvivesIff` | packages/composer-common/lib/idcard.js:61-97 | The same for every card the constructor makes, from metadata of whatever version. |
| `IdCards.DirectoryRoundTrip` | packages/composer-common/lib/idcard.js:303-421 | Loading a directory after saving gives the card with the old credential files overridden by its own; the card itself exactly when every old file belongs to one of its credentials. |
| `IdCards.MigrationIsIdempotent` | packages/composer-common/lib/idcard.js:61-97 | Every accepted card has the current version, and building a card from its metadata again changes nothing. |
| `IdCards.AcceptedIff` | packages/composer-common/lib/idcard.js:61-97 | Exactly which metadata and profiles make a card, and which member names its user. |
| `IdCards.ReadMigrates` | packages/composer-common/lib/idcard.js:228-235 | Metadata read without a version, or of version 0, migrate: enrollmentId becomes userName, name goes, and the rest stays; version 1 comes as it is, and no other is read. |
| `IdCards.RefusedBecause` | packages/composer-common/lib/idcard.js:79-91 | Why the constructor refuses: a version it does not know, no user, or no profile name. |
| `IdCards.MissingFile` | packages/composer-common/lib/idcard.js:208-224 | An archive without one of the two required files is refused, and named so. |
| `IdCardFiles.NewCard` | packages/composer-common/lib/idcard.js:61-97 | The constructor's stepwise rewriting of the metadata, with its three errors. |
| `IdCardFiles.WriteArchive` | packages/composer-common/lib/idcard.js:272-294 | The loop writes connection, metadata and one file for each credential. |
| `IdCardFiles.ReadArchive` | packages/composer-common/lib/idcard.js:197-261 | Reads both required files and the direct children of the credentials directory; metadata without a version is version 0. |
| `IdCardFiles.CardDirectory.Save` | packages/composer-common/lib/idcard.js:375-421 | Writes both files and each credential, leaving other credential files. |
| `IdCardFiles.CardDirectory.LoadCard` | packages/composer-common/lib/idcard.js:303-366 | Reads the card with all credential files of the directory; the directory of credentials may be missing. |
| `CommitTheorems.ResolvesIffCommitted` | packages/composer-connector-hlfv1/lib/hlfconnection.js:784-859 | For every order of events and timers, a call resolves exactly when there were endorsements and each was a 200, the orderer answered SUCCESS, and every hub's first signal was VALID. |
| `CommitTheorems.CallSettlesAsRead` | packages/composer-connector-hlfv1/lib/hlfconnection.js:810-858 | The outcome is the one read off the events: the first stage that fails, or the first bad hub signal. |
| `CommitTheorems.SettlesOnce` | packages/composer-connector-hlfv1/lib/hlfconnection.js:986-1012 | Once settled, no later event changes the outcome. |
| `CommitTheorems.SettlesOnceAllSignalled` | packages/composer-connector-hlfv1/lib/hlfconnection.js:986-1012 | It settles once every hub has produced an event or a timeout. |
| `CommitTheorems.NoHubsNoWait` | packages/composer-connector-hlfv1/lib/hlfconnection.js:986-1012 | Without event hubs an ordered transaction resolves at once. |
| `CommitTheorems.AnsweredHubsReleased` | packages/composer-connector-hlfv1/lib/hlfconnection.js:986-1008 | Over every run there is one wait for each hub, and no timer or registration outlives a hub's answer. |
| `CommitProtocol.ValidateResponses` | packages/composer-connector-hlfv1/lib/hlfconnection.js:577-618 | Passes exactly when there are responses and each is a 200 or an error the pattern lets through; otherwise throws the first complaint; reports whether errors were let through. |
| `HlfConnection.Invocation.OnProposed` | packages/composer-connector-hlfv1/lib/hlfconnection.js:825-840 | Validates the endorsements, then orders or rejects. |
| `HlfConnection.Invocation.OnOrdered` | packages/composer-connector-hlfv1/lib/hlfconnection.js:841-850 | Waits for the hubs on SUCCESS, rejects otherwise. |
| `HlfConnection.Invocation.WaitForEvents` | packages/composer-connector-hlfv1/lib/hlfconnection.js:986-1008 | Registers a wait with a timer on every hub; with no hub the call resolves. |
| `HlfConnection.Invocation.OnTxEvent` | packages/composer-connector-hlfv1/lib/hlfconnection.js:996-1004 | Clears the timer, unregisters, and settles this hub; the call settles on the first rejection or the last VALID. |
| `HlfConnection.Invocation.OnTimeout` | packages/composer-connector-hlfv1/lib/hlfconnection.js:993-995 | A timer that was not cleared rejects its hub. |
| `SessionTheorems.CallsReachLiveConnections` | packages/composer-connector-server/lib/connectorserver.js:252-316 | In every run a backend call is made only under an ID that was issued and not disconnected. |
| `SessionTheorems.RetiredForever` | packages/composer-connector-server/lib/connectorserver.js:252-278 | A disconnected ID never becomes live again and nothing is called under it any more. |
| `SessionTheorems.LoginOpensCalls` | packages/composer-connector-server/lib/connectorserver.js:287-316 | In every run the security context that a login is answered with is new and stays known: every later call with it on an ID that has not been disconnected reaches the backend. |
| `SessionTheorems.EveryRequestAnsweredOnce` | packages/composer-connector-server/lib/connectorserver.js:217-316 | No request is answered twice, and each is answered exactly once when its backend call is over and the socket is drained. |
| `SessionTheorems.EventsReachTheirProxy` | packages/composer-connector-proxy/lib/proxyconnectionmanager.js:149-172 | What a proxy connection has emitted is a prefix of what was raised under its ID, each event as often as logins had completed; with the socket drained, all of it. |
| `SessionTheorems.OneEventReachesKTimes` | packages/composer-connector-server/lib/connectorserver.js:287-316 | An event raised after k completed logins reaches the proxy with that ID exactly k times and no other. |
| `SessionTheorems.StepPreserves` | packages/composer-connector-server/lib/connectorserver.js:217-316 | Every handler and every message keeps the table, listener, answer, filter and routing invariants. |
| `ConnectorServer.ConnectorServer.ConnectionManagerConnect` | packages/composer-connector-server/lib/connectorserver.js:217-244 | Keeps the tables' invariant; nothing is issued, answered or called before the backend has connected. |
| `ConnectorServer.ConnectorServer.ConnectionDisconnect` | packages/composer-connector-server/lib/connectorserver.js:252-278 | Keeps the invariant; a live ID is dead before its backend is called, once; any other ID gets exactly one failure and nothing is called. |
| `ConnectorServer.ConnectorServer.ConnectionLogin` | packages/composer-connector-server/lib/connectorserver.js:287-316 | Keeps the invariant; a login on a live ID reaches the connection object issued under that ID; any other gets exactly one failure and nothing is called. |
| `ConnectorServer.ConnectorServer.ConnectionCall` | packages/composer-connector-server/lib/connectorserver.js:569-598 | Keeps the invariant; the backend is called exactly for a live ID and a known security context, and everything else gets one failure. |
| `ConnectorServer.ConnectorServer.OnResolve` | packages/composer-connector-server/lib/connectorserver.js:217-316 | Keeps the invariant; exactly one answer; a connect makes one ID live that never was; a login makes the new security context it answers with known and adds one listener on its own connection object under its own ID; nothing else changes what is live, what is known or who listens. |
| `ConnectorServer.ConnectorServer.OnReject` | packages/composer-connector-server/lib/connectorserver.js:217-316 | Keeps the invariant; exactly one failure and no table changes, so an ID whose disconnect failed stays dead. |
| `ConnectorServer.ConnectorServer.OnEvent` | packages/composer-connector-server/lib/connectorserver.js:298-304 | Keeps the invariant; the event is emitted once for each login completed on the connection, always under the ID it was issued under. |
| `ConnectorServer.ProxyConnectionManager.OnMessage` | packages/composer-connector-proxy/lib/proxyconnectionmanager.js:149-172 | An answered connect adds a filter; an event passes every filter with its own ID. |
| `ProfileStoreTheorems.LoadAllAgreesWithLoad` | packages/composer-common/lib/comboconnectionprofilestore.js:57-158 | For any nesting of stores, loadAll and load agree on a name exactly when the first store that has it does not hold null, false, 0 or an empty string there. |
| `ProfileStoreTheorems.NullShownButNotLoaded` | packages/composer-common/lib/comboconnectionprofilestore.js:60-86 | A profile saved as null: loadAll shows it and load does not find it. |
| `ProfileStoreTheorems.SaveReadBack` | packages/composer-common/lib/comboconnectionprofilestore.js:96-129 | A save succeeds exactly when some store accepts it; what was saved is read back exactly when it is not null, false, 0 or an empty string and no store ahead, each of which refused it, holds something else under the name. |
| `ProfileStoreTheorems.DeleteThenLoad` | packages/composer-common/lib/comboconnectionprofilestore.js:167-188 | After a delete the name loads exactly when a store that refuses deletes holds it. |
| `ProfileStoreTheorems.NestingDoesNotMatter` | packages/composer-common/lib/comboconnectionprofilestore.js:36-48 | Combinations of the same single stores in the same order behave alike, however they are nested. |
| `ProfileStoreTheorems.LoadIsFirstTruthy` | packages/composer-common/lib/comboconnectionprofilestore.js:57-87 | load gives the first truthy profile among the single stores. |
| `ProfileStoreTheorems.LoadAllIsFirstHolding` | packages/composer-common/lib/comboconnectionprofilestore.js:137-158 | loadAll shows under each name what the first store that has it holds. |
| `ProfileStoreTheorems.SaveGoesToFirstAccepting` | packages/composer-common/lib/comboconnectionprofilestore.js:96-129 | A save reaches the first single store that accepts it and no other, as if that store had been asked alone. |
| `ProfileStoreTheorems.SaveWrites` | packages/composer-common/lib/fsconnectionprofilestore.js:98-112 | After a save the first writable disk holds the data under the name beside all it held before, and no other store has changed. |
| `ProfileStoreTheorems.OtherProfilesUntouched` | packages/composer-common/lib/comboconnectionprofilestore.js:96-188 | Saving or deleting one profile leaves every other loading, and listed, as before. |
| `ProfileStoreTheorems.SingleLoads` | packages/composer-common/lib/envconnectionprofilestore.js:61-77 | A single file store loads what it holds, be it null; the environment store finds nothing there. |
| `ProfileStoreTheorems.DeleteReachesAll` | packages/composer-common/lib/comboconnectionprofilestore.js:167-188 | A delete reaches every single store that accepts it and changes nothing else. |
| `ComboConnectionProfileStore.Backing.LoadProfile` | packages/composer-common/lib/comboconnectionprofilestore.js:57-87 | The loop that skips once something truthy is loaded; single stores as in fsconnectionprofilestore.js and envconnectionprofilestore.js. |
| `ComboConnectionProfileStore.Backing.LoadProfiles` | packages/composer-common/lib/comboconnectionprofilestore.js:137-158 | The loop that lays earlier profiles over later ones. |
| `ComboConnectionProfileStore.Backing.SaveProfile` | packages/composer-common/lib/comboconnectionprofilestore.js:96-129 | The loop that stops saving at the first success changes what one writable disk holds under this name, and nothing else; a failed save changes nothing. |
| `ComboConnectionProfileStore.Backing.DeleteProfile` | packages/composer-common/lib/comboconnectionprofilestore.js:167-188 | The loop over all stores, ignoring refusals, changes what writable disks hold under this name, and nothing else. |
| `PackageVersions.StampThenCheck` | scripts/pkgcheck.js:51-90 | After stamping, the check finds agreement exactly when the version is valid, the root (and lerna.json) has no dependency on a repository package at another version, and no package depends on a name only the top files have at another version. |
| `PackageVersions.StampTouchesOnlySiblings` | scripts/pkgstamp.js:47-66 | Names, sets of dependencies and all dependencies on other packages are unchanged; stamping the same version again changes nothing. |
| `PackageVersions.StampReplacesIff` | scripts/pkgstamp.js:27-28 | The stamped version is the old one without an earlier stamp, plus the new stamp, exactly when the old one has no hyphen. |
| `PackageVersions.StampsPileUp` | scripts/pkgstamp.js:27-28 | Whatever the repository, a second stamping appends its stamp behind the first. |
| `PackageScripts.Workspace.StampAll` | scripts/pkgstamp.js:24-66 | The nested loops stamp both top files, every package and every dependency between packages. |
| `PackageScripts.Workspace.CheckAll` | scripts/pkgcheck.js:51-90 | The nested loops give the verdict and, file by file, exactly the dependencies at another version. |
| `Samples.ChosenIsHighest` | packages/composer-playground-api/routes/npm.js:119-173 | A package has an entry exactly when a release of it supports this Composer, and then one that shows name, description, version, images and tarball of a release that no other such release precedes. |
| `Samples.VersionsAre` | packages/composer-playground-api/routes/npm.js:127-154 | The sort and filter chain leaves exactly the supported releases, highest first. |
| `Samples.PrecedenceIsTotal` | packages/composer-playground-api/routes/npm.js:130-130 | Precedence under section 11 of Semantic Versioning 2.0.0 compares any two versions and carries over. |
| `Samples.CoreDecides` | packages/composer-playground-api/routes/npm.js:130-130 | Major before minor before patch, then a prerelease before its release; builds do not count. |
| `Samples.IdentifiersDecide` | packages/composer-playground-api/routes/npm.js:130-130 | Between prereleases of one version the first identifier that differs decides, numbers by value, texts by characters, numbers before texts; a list that goes on comes later. |
| `Samples.LeastRelease` | packages/composer-playground-api/routes/npm.js:149-153 | Ranges are asked about the least release that does not precede this Composer. |
| `Samples.DownloadMetaData` | packages/composer-playground-api/routes/npm.js:119-173 | The loop lists one entry for each package that has one, in package order. |
| `Samples.SortedSamples` | packages/composer-playground-api/routes/npm.js:181-230 | The sorted list is a permutation with primary samples first and the others in case-insensitive order of their names. |
| `Samples.NamesUpToCase` | packages/composer-playground-api/routes/npm.js:209-220 | Two names come in no order exactly when they are the same up to case. |
| `Samples.SortSampleList` | packages/composer-playground-api/routes/npm.js:181-230 | The three loops build that list. |

## Left out

- PoolTheorems.EveryScheduleFinishes: assumes that a script, once called, reports once and does not throw after reporting, and that NewComposer returns; a script that never reports keeps its Composer, as in the program.
- PoolTheorems.CallIsIsolated: the two locks are those of the pool and the VM; Go's memory model below them is not modelled.
- Ledger.StoreRefinesLedger: for the operations that `Ledger.StepRefinesIff` finds to be exactly the ones that refine, which leaves out the reserved collection ID `$syscollections`; stores as the operations leave them, holding composite keys and the log level only.
- The chaincode stub: keys are checked for U+0000 and U+10FFFF, reads see the writes of the same call and range iterators read the live store; what Fabric itself does is not part of this model.
- Failures of the store inside a data operation, queries (executeQuery) and the JSON text of stored objects (that of a collection's record is modelled); log levels are put into upper case for ASCII letters only.
- VmCalls.CallEngine: records the call as it is made; what the JavaScript called then does to objects and to the stash is not modelled, and neither are the callbacks of the bound methods. JavaScript constructors may give their object any properties but change nothing else.
- VmWrappers.BindMethod: property names are an enumeration, not character strings; instruction sequences that several constructors repeat are one method each.
- Model file parsing, class declaration checks beyond imports and type references, decorators, and the serializer, factory and code generators: a model file is its namespace, types, imports and references.
- ModelManager.ModelManager.AddModelFile: takes a parsed file; the text form of the argument is parsed elsewhere.
- BusinessNetworkArchiveTheorems.RoundTripIff: parsers and validity checks of texts are parameters that give the same answer to the same text and registry; package.json is its text; ZIP compression and directory entries are not modelled.
- BusinessNetworkArchiveTheorems.SecondTripChangesNothing: ACL and query files whose names contain slashes are excluded; such a file may land among the models or scripts under a path that the next trip shortens.
- DirectoryWalk.ProcessDirectory: symbolic links and files that disappear during the walk are not modelled; paths are compared by code point, which is JavaScript's order for characters of the basic plane; globs are any predicate on paths.
- IdCardFiles.CardDirectory.Save: credential names that are not plain file names are excluded: the program joins them into the path, so that one with slashes or dots replaces another file of the card or outside it (`../metadata.json` the metadata just written), or the save is rejected because there is no such directory or the path is one. Disk errors are left out; a credentials directory is taken to hold files only.
- IdCards.AcceptedIff: metadata and profiles are JSON objects; numbers that are not whole are among the other values.
- CommitTheorems.ResolvesIffCommitted: transaction IDs, what an endorsement proposal carries, and install, start, deploy and upgrade are not modelled; a hub's timer fires at most once and not after it was cleared.
- SessionTheorems.EveryRequestAnsweredOnce: backend calls may resolve or reject or stay open; callbacks do not throw, uuid.v4 never repeats an ID, and every connect yields a connection object of its own. The guarded requests, which differ only in the backend method, are one request.
- SessionTheorems.EventsReachTheirProxy: listener removal is not modelled, as the program removes a listener that was never added; a security context is not tied to a connection, as in the program; client reconnects and lost messages are left out.
- ProfileStoreTheorems.SaveReadBack: profile names are plain path segments and a file store either takes every write or refuses every write.
- PackageVersions.StampThenCheck: no directory below packages is named lerna.json or package.json; the --fix mode of the checking script and the other release scripts are not modelled.
- Samples.ChosenIsHighest: version ranges are any predicate on versions; where two keys differ in build metadata only, either may be chosen.
- Samples.SortedSamples: samples of equal lower-case names keep their order in the model, which is more than the engine promised; case is folded for ASCII letters; the list of primary names has one member.
- Client registries, historian, abstract connection classes, admin connection, wallets, embedded and web connectors, the REST server, the playground, the command line and certificates: forwarding and argument checks that would add only easy members.
