# arca-router: a verified model of the configuration core

arca-router is a software router whose configuration is applied by one engine to several
southbound integrations (plugins). This project models that engine, the diff it relies on, the
callers that compensate or follow, and a few smaller algorithms of the daemon, and proves what
they promise. It is written in Dafny 4.11; `dafny verify dfyconfig.toml` checks all of it.

## How the model is built

**Configurations** (`ConfigModel`, `SectionEquality`, `InterfaceDiff`, `Diff`, `EmptyLists`, `HashVersusDiff`,
`HashContent`).
Go tells a nil slice or map from an empty one. `reflect.DeepEqual` sees the difference, `Clone`
forgets it for `[]string`, and the JSON text behind the snapshot hash forgets it for every
collection. The model keeps the difference wherever some reader can see it. `Observed` is what a
diff tells apart, `Seen` is the same after `Clone`, and `HashOf` is what the hash tells apart.

**The engine** comes in three layers.

- `EngineSpec` gives one call as a function of the state, the candidate and all plugin answers.
  The engine looks at configurations only through `Clone`, `Validate`, the diff and the hash;
  these form an `Env`, and `Lawful` is everything the theorems need of it. `South` is what the
  system behind a plugin holds, by the contract in `internal/engine/plugin.go`. A failed rollback
  promises nothing, and neither does a later apply on such a system, so it counts as unknown from
  then on. "In sync" therefore means *guaranteed* to reflect the running configuration. Of each
  "in sync iff no failed rollback was reported", the half that takes proving is that the
  guarantee holds without such a report; the other half is this reading of the contract.
- `EngineTheorems` proves atomicity, the exact course of a failed commit, and both over all runs.
  `EngineOutcomes` says case by case what Apply and Validate answer and what they ask of the plugins.
- `ConfigEngine` is the imperative engine: a class over mutable configuration trees. Every plugin
  call may change every tree and diff that was ever handed out. `Engine.Apply` is nevertheless
  proved to compute `EngineSpec.Apply`.

`EngineThreads` interleaves any number of concurrent calls instruction by instruction, with
`applyMu` as a mutex, `mu` as a read/write lock and the two writes of a commit as two steps. Each
execution is proved equivalent to calls made one after the other, so the theorems about runs hold
under concurrency. `HeardThreads` adds that the plugin answers behind each result are those the call was given.

**Callers.** `CommitHook` and `CommitCalls` model the NETCONF commit hook and startup;
`Follower` and `Synchronizer` model the etcd synchronizer. In both pairs the first module holds
the specification and its theorems, the second one the imperative code on the engine. `HookRaces`
places the calls of the hook in the order of effects of `EngineThreads`, next to other writers, and
`AlignedThreads` puts the cluster plugin of `Endpoints` first in that concurrent engine.

**Kernels.** `Redaction` and `LineDiff` (web configuration editing), `Tokens` and `TokenCache`
(API tokens), `Endpoints` (cluster endpoints) and `Status` (the published status against the
collector's checks). `Text` and `Words` have the string operations of the Go library that these use.

## Where the code does less than it seems to promise

Each of these has a lemma with a concrete input and a lemma that says exactly when the promise holds.

- *A reported commit has been installed.* The commit hook compares the running snapshot, which is
  a clone, with a configuration that is not cloned yet. A list that the parser leaves empty and the
  clone leaves nil counts as a change there and as none in `Apply`, so the commit is persisted
  and nothing happens. `CommitHook.PhantomCommit` is such a commit. `CommitHook.CommitIsPhantomIff`
  gives the exact condition: the candidate is the running configuration up to nil against empty
  string lists (`EmptyLists.SameSections`) and has an empty one (`EmptyLists.SectionsHaveEmptyList`).
- *The undo takes back exactly the hook's own commit.* The hook reads its before-snapshot outside the
  apply mutex, and others may commit meanwhile. In `HookRaces.RaceErasesVrf` the undo removes what
  another writer committed. `HookRaces.UndoIsExactIff` compares with the run without the hook and gives
  the exact condition: what the hook had read is what runs before the undo, or before the hook's own
  commit if no call of the others went through after that one. `HookRaces.ErasesIff` says in the same
  terms when the last commit of another writer is lost. `HookRaces.HookCallsAreAHookRun` carries both
  over to every interleaving.
- *A recorded revision is running.* The synchronizer skips a snapshot with an equal hash, and the
  hash leaves out one field and cannot tell empty from nil collections. `Follower.SkipLosesExplicitDisable`
  shows a lost change. A skip is wrong exactly under the condition of `Follower.SkipIsRightIff`, and
  `Follower.RecordsSafelyIff` and `Follower.LastRecordDecides` say that this alone decides.
- *A cached token error is that of the file.* A read that fails once is served to every later request
  until the metadata change. `TokenCache.ReadErrorIsKept` shows it; `TokenCache.CacheIsCoherent`
  gives the exact condition.

## Assumptions

- SHA-256 has no collisions and JSON text determines its content, so the hash is modelled by the content.
- `RouterConfig.Validate` is a deterministic predicate, given as a parameter.
- BGP groups and neighbors, OSPF areas and interfaces, and static routes are not nil pointers.
- Configurations installed from the datastore at startup are what the plugins already hold
  (`InitializesInSync`); the source makes the same assumption.
- In `CommitHook` and `Follower` nobody else writes to the engine during one of their calls; `HookRaces` drops this for the hook.
- Revisions of one etcd key only grow, and token file metadata are not reused.
- Strings are sequences of Unicode characters; their order is that of their UTF-8 bytes.

## Model

| member | source | states |
|---|---|---|
| ConfigModel.CloneTwice | internal/model/clone.go:4-44 | cloning a clone gives an equal tree, so everything after the first clone is stable |
| ConfigModel.CloneKeepsHash | internal/model/config.go:372-383 | a clone has the same snapshot hash as the tree it was made from |
| SectionEquality.OneWayAgreement | internal/engine/diff.go:427-460 | maps of equal size that agree on the keys of one are equal, which the one-directional loops rely on |
| SectionEquality.BgpEqual | internal/engine/diff.go:427-460 | the nested loops return true iff both BGP configurations are equal in every compared field, nil included |
| SectionEquality.OspfEqual | internal/engine/diff.go:462-501 | the nested loops return true iff both OSPF configurations are equal, optional priority and nil included |
| SectionEquality.StaticRoutesEqual | internal/engine/diff.go:513-525 | true iff both lists hold the same routes in the same order |
| InterfaceDiff.CollectAddresses | internal/engine/diff.go:219-242 | the collected addresses are exactly those of all units and families, whatever the map order |
| InterfaceDiff.SameViewIff | internal/engine/diff.go:176-242 | two interfaces look the same iff they have the same description and the same addresses on the same units and families |
| InterfaceDiff.DiffInterface | internal/engine/diff.go:176-210 | no change is reported iff description and address set agree, else the change lists exactly the differences |
| InterfaceDiff.ComputeInterfaceDiff | internal/engine/diff.go:154-174 | the result is a diff of the two interface maps in the sense the next four lemmas build on |
| InterfaceDiff.DiffNamesExact | internal/engine/diff.go:154-174 | added, removed and changed names are disjoint and are exactly the names whose interface differs |
| InterfaceDiff.EmptyDiffIffSame | internal/engine/diff.go:154-174 | the interface part is empty iff both maps show the same interfaces |
| InterfaceDiff.PatchGivesNew | internal/engine/diff.go:154-210 | applying the diff to the old interfaces gives the new ones, up to order and duplicates of addresses |
| InterfaceDiff.UnpatchGivesOld | internal/engine/diff.go:154-210 | undoing the diff on the new interfaces with its old configurations gives the old ones back |
| Diff.ComputeDiff | internal/engine/diff.go:128-152 | the diff of two configurations, nil standing for the empty one, lists every differing section and has changes iff the observations differ |
| Diff.SameObservationIff | internal/engine/diff.go:128-152 | two configurations are the same to the diff iff they agree on every field, interfaces by description and address set, a missing protocols section being an empty one |
| Diff.HasChangesIffObservedDiffer | internal/engine/diff.go:98-116 | every diff of two configurations has changes iff they differ observably |
| Diff.NoChangesIsKernel | internal/engine/diff.go:98-152 | "no changes" is equality of observations, with nil as the empty configuration |
| Diff.NoChangesIsEquivalence | internal/engine/diff.go:98-152 | "no changes" is reflexive, symmetric and transitive over all configurations |
| HashVersusDiff.CloneAddsNoChange | internal/engine/diff.go:120-125 | cloning both sides of a diff never adds a change |
| EmptyLists.SameCloneIff | internal/model/clone.go:393-405 | two values have equal clones iff they have the same structure, nil and empty string lists counting as equal |
| EmptyLists.OwnCloneIff | internal/model/clone.go:393-405 | a value is its own clone iff no string list in it is present and empty |
| EmptyLists.SameSectionsIff | internal/model/clone.go:4-44 | the same for all sections that are compared with DeepEqual, chassis and security included |
| HashVersusDiff.CloneKeepsChangesIff | internal/model/clone.go:4-44 | cloning both sides keeps every change iff they do not differ in nil against empty string lists alone |
| HashVersusDiff.DifferFromCloneIff | internal/model/convert.go:183-187 | a configuration differs from a clone in that way alone iff it is the same up to such lists and has an empty one |
| HashVersusDiff.DiffCloneIsFaithful | internal/engine/diff.go:120-125 | a diff recomputed on clones of its trees reports the same changes, each changed interface with the same descriptions and address sets |
| HashContent.SameJsonIff | internal/model/config.go:372-383 | two values have equal JSON iff they have the same structure, a missing collection counting as an empty one |
| HashContent.SameHashIff | internal/model/config.go:372-383 | two configurations have the same hash iff they agree in this sense on every field but the explicit SSH setting |
| HashVersusDiff.UnclonedDiffReportsPhantomChange | internal/model/convert.go:183-187 | a VRF with an empty import list differs from one with a nil list only before cloning |
| HashVersusDiff.EqualHashNoChangesIff | internal/model/config.go:372-383 | with equal hashes the diff is empty iff the explicit SSH setting and the present-but-empty collections agree |
| HashVersusDiff.HashMissesExplicitDisable | internal/model/config.go:311-314 | explicitly disabling NETCONF over SSH changes the diff and not the hash |
| EngineSpec.StandardEnvIsLawful | internal/model/clone.go:4-44 | Clone, diff and hash of the model have every law the engine theorems use |
| EngineSpec.FirstError | internal/engine/engine.go:190-194 | the first plugin that answers with an error, every earlier one having answered nil |
| EngineTheorems.ApplyIsAtomic | internal/engine/engine.go:148-238 | from a state in sync, every plugin is guaranteed to reflect running afterwards iff the error does not report a failed rollback; without success running and version stay |
| EngineTheorems.RollbackRestoresEach | internal/engine/plugin.go:24-34 | after a failed apply the systems reflect the old configuration again iff every rollback up to the failing plugin succeeded |
| EngineTheorems.FailureTraceExact | internal/engine/engine.go:189-224 | if plugin k fails to apply, the calls are validate 0..n-1, apply 0..k, rollback k..0, each once with the same diff, plugins above k keep their state, and the error names plugin, cause, every failed rollback, and success of the rollback iff there is none |
| EngineTheorems.NoApplyBeforeAllAccept | internal/engine/engine.go:189-194 | nothing is applied unless every plugin accepted the change, and nothing rolled back unless an apply failed |
| EngineTheorems.DiagnosticsEmptyIff | internal/engine/engine.go:262-294 | the rollback diagnostics are empty iff every rollback succeeded |
| EngineTheorems.DiagnosticsExact | internal/engine/engine.go:262-294 | the diagnostics name plugin and cause of every failed rollback, the last plugin first |
| EngineTheorems.CallsAccountForSouth | internal/engine/plugin.go:24-34 | the state behind each plugin is exactly what its calls, one by one, lead to |
| EngineTheorems.RunsStayInSync | internal/engine/engine.go:148-276 | after any run with any failures every plugin is guaranteed to reflect running iff no call reported a failed rollback |
| EngineTheorems.ChainStep | internal/engine/engine.go:226-248 | a call leaves running alone, or installs a copy of the valid candidate with its hash, author and message one version up, 0 after the largest uint64, or starts afresh from the datastore; running always carries the engine's version |
| EngineTheorems.VersionsCountChanges | internal/engine/engine.go:173-230 | over a run without a fresh start the version rises by the number of successful calls with an observably different candidate |
| EngineTheorems.RunsAreStamped | internal/engine/engine.go:226-248 | after any run the version of the running snapshot is the engine's version |
| EngineOutcomes.ApplyResultIff | internal/engine/engine.go:148-238 | for each result of Apply exactly when it is returned, with plugin and cause, by candidate, running configuration and first objecting or failing plugin |
| EngineOutcomes.RejectedExactly | internal/engine/engine.go:189-194 | if plugin v objects, plugins 0..v have been asked about the change from running to the candidate and nothing else has happened |
| EngineOutcomes.InstalledExactly | internal/engine/engine.go:189-230 | if all agree, all have been asked and have applied that change, and a copy of the candidate runs one version up |
| EngineOutcomes.DryRunExact | internal/engine/engine.go:120-143 | for each result of Validate exactly when it is returned, and that plugins up to the first objection are asked, in order, about the change from a copy of running to a copy of the candidate |
| EngineOutcomes.DryRunForetells | internal/engine/engine.go:120-194 | an Apply that asks the plugins asks what the dry run asks, and is rejected iff it is, with the same error |
| ConfigEngine.DiffOf | internal/engine/diff.go:128-152 | the diff of two trees of the engine has changes iff the engine can tell them apart |
| ConfigEngine.CloneDiff | internal/engine/diff.go:120-125 | a cloned diff shares no tree with its original and says the same |
| ConfigEngine.Rollback | internal/engine/engine.go:262-294 | plugins are rolled back in reverse with their own diffs, past failures, and every failure is reported |
| ConfigEngine.ValidatePhase | internal/engine/engine.go:189-194 | plugins are asked in order until one objects, each about a diff of its own |
| ConfigEngine.ApplyPhase | internal/engine/engine.go:196-224 | plugins apply in order; at the first error all up to and including the failing one are rolled back |
| ConfigEngine.Engine.Apply | internal/engine/engine.go:148-238 | result, new state and calls are those of the specification, whatever plugins do to the trees they are handed |
| ConfigEngine.Engine.Validate | internal/engine/engine.go:120-143 | the dry run answers as specified and changes neither the engine nor any system behind it |
| ConfigEngine.Engine.InitializeRunning | internal/engine/engine.go:242-249 | installs a private copy under the given version and calls no plugin |
| ConfigEngine.Engine.RunningSnapshot | internal/engine/engine.go:109-116 | returns a fresh deep copy of the running snapshot, nil before the first |
| ConfigEngine.Engine.Running | internal/engine/engine.go:96-106 | returns a fresh copy of the running configuration, the empty one if there is none |
| ConfigEngine.KeepAndMeddle | internal/engine/engine.go:96-116 | a caller that changes the candidate and every returned tree after the call cannot change what was installed |
| EngineThreads.LocksStep | internal/engine/engine.go:35-43 | every instruction keeps each lock held by exactly the goroutines whose place says so, and mu never by a reader and a writer at once |
| EngineThreads.HolderLands | internal/engine/engine.go:159-238 | each instruction under applyMu keeps running at the serial state and the rest as far away as its notes say, and decides as the sequential call |
| EngineThreads.BystanderLands | internal/engine/engine.go:120-143 | a goroutine without applyMu writes nothing |
| EngineThreads.EveryInterleavingIsSerial | internal/engine/engine.go:96-249 | in every interleaving there is one order of calls such that an unheld engine is in the state they lead to and every finished call has the answer of its place in it, never before its start |
| HeardThreads.CallsHeedThePlugins | internal/engine/engine.go:120-238 | in every interleaving the answers that explain the result of a finished Apply or Validate at its place are those the plugins gave to this very call |
| HeardThreads.EveryExecutionIsHeard | internal/engine/engine.go:120-238 | this holds of every execution |
| EngineThreads.NoDeadlock | internal/engine/engine.go:96-249 | while some call has not returned, some goroutine can execute its next instruction, whatever the plugins answer |
| EngineThreads.NoLostUpdate | internal/engine/engine.go:159-171 | until its commit is written, the running snapshot is the one Apply computed its diff from |
| EngineThreads.ReadersSeeStampedSnapshots | internal/engine/engine.go:226-248 | readers and writers of the engine exclude each other, and the version differs from that of running only between the two writes of a commit |
| EngineThreads.InterleavingsStayInSync | internal/engine/engine.go:148-276 | in every interleaving, with applyMu free, every plugin is guaranteed to reflect running iff no call returned a failed rollback |
| CommitHook.HookCompensates | cmd/arca-routerd/main.go:1087-1121 | after an error of the hook the engine observably runs what it ran before, or the error reports a failed rollback and it runs the new configuration; after a commit it runs the new one; nothing changes unless the dry run accepted |
| CommitHook.HookResultIff | cmd/arca-routerd/main.go:1087-1121 | for each answer of the hook exactly when it is given, by the dry run, the comparison with running, the Apply and the store, and what the engine is left with |
| CommitHook.DryRunComesFirst | cmd/arca-routerd/main.go:1100-1110 | no plugin applies anything unless all have been asked in the dry run, about the change from running to the candidate, and none has objected |
| CommitHook.UndoIsNotSkipped | cmd/arca-routerd/main.go:1112-1118 | if the commit changed running, the undo is a commit of its own and succeeds iff the old configuration is valid and all plugins agree |
| CommitHook.HookKeepsSync | cmd/arca-routerd/main.go:1087-1121 | from a state in sync the hook ends in sync iff neither the commit nor the undo reports a failed rollback |
| CommitHook.CommitIsInstalledIff | cmd/arca-routerd/main.go:1104-1110 | a reported commit was installed under the next version iff the engine can tell the candidate from running |
| CommitHook.PhantomIff | cmd/arca-routerd/main.go:1104-1107 | the candidates that pass the hook's check and are found unchanged by the engine are exactly those that are the running configuration up to nil against empty string lists and have an empty one |
| CommitHook.CommitIsPhantomIff | cmd/arca-routerd/main.go:1104-1120 | with the real diff and clone, a commit the hook reports has not been installed iff its candidate is such a one |
| CommitHook.PhantomCommit | cmd/arca-routerd/main.go:1104-1120 | a concrete commit that is persisted and changes nothing |
| CommitHook.InitialConfigCompensates | cmd/arca-routerd/main.go:1022-1065 | startup compensates like the hook, and when it goes on there is a running snapshot of the given configuration |
| CommitHook.InitialFromDatastore | cmd/arca-routerd/main.go:1022-1033 | a valid stored configuration is installed under its version, or 1 if it has none, without the plugins, and an invalid one is refused |
| CommitHook.InitialFromFile | cmd/arca-routerd/main.go:1035-1072 | for each answer of startup from a file exactly when it is given and what the engine is left with, the first version included |
| CommitHook.InitialConfigKeepsSync | cmd/arca-routerd/main.go:1035-1064 | startup from a file ends in sync iff no rollback failed |
| HookRaces.UndoRestoresWhatWasRead | cmd/arca-routerd/main.go:1104-1118 | with any other writers, after a successful undo the engine observably runs what the hook had read |
| HookRaces.ErasesIff | cmd/arca-routerd/main.go:1104-1118 | the last commit of another writer since the read is gone after the undo iff what ran before the undo, or before the hook's commit if nobody else committed after that one, is not what the hook had read |
| HookRaces.PutsDecides | internal/engine/engine.go:148-238 | what runs after a call is what it puts in place if it goes through, else what ran before, whichever configuration that was |
| HookRaces.UndoIsExactIff | cmd/arca-routerd/main.go:1104-1118 | after the undo the engine runs what it would run without the hook iff what the hook had read runs before the undo, or before the hook's commit if no call of the others went through after that one |
| HookRaces.AloneNothingIsErased | cmd/arca-routerd/main.go:1104-1118 | without another commit in between nothing is erased and the undo returns to what ran before the hook's commit |
| HookRaces.CommitsIffInstalls | internal/engine/engine.go:173-176 | an Apply changes what is observably running iff it installs the next version |
| HookRaces.HookCallsAreAHookRun | cmd/arca-routerd/main.go:1104-1118 | in every interleaving of the engine the read, the commit and the undo of a hook have places in the order of effects to which these results apply |
| HookRaces.RaceErasesVrf | cmd/arca-routerd/main.go:1104-1118 | a concrete order of calls in which another writer's VRF is removed by the undo |
| CommitCalls.Commit | cmd/arca-routerd/main.go:1087-1121 | the hook on the engine object computes its specification and calls the plugins as it says |
| CommitCalls.RollbackEngineToSnapshot | cmd/arca-routerd/main.go:1123-1136 | re-applies the snapshot's configuration, the empty one for nil |
| CommitCalls.ApplyInitialConfig | cmd/arca-routerd/main.go:1022-1072 | startup on the engine object computes its specification and calls the plugins as it says |
| Follower.ReconcileOkIff | cmd/arca-routerd/config_sync.go:107-167 | a reconcile succeeds iff the status could be read and, for a new revision, the snapshot was there and, unless it has the hash of the running one, was applied |
| Follower.ReconcileReports | cmd/arca-routerd/config_sync.go:112-166 | the status is healthy iff the reconcile succeeded, else it has the error of the step that failed, and it carries what the store said |
| Follower.ReconcileRecords | cmd/arca-routerd/config_sync.go:131-182 | every success with a new revision records that revision of the running key, applied or skipped, and nothing else does; plugins are called iff it is applied |
| Follower.RecordsIff | cmd/arca-routerd/config_sync.go:131-166 | a tick that records a revision leaves the snapshot it read running iff it did not skip a snapshot wrongly |
| Follower.FailureRecordsNothing | cmd/arca-routerd/config_sync.go:116-158 | a failed reconcile advances neither the recorded revision nor the time of the last apply, and keeps running and version |
| Follower.LastApplyMovesIff | cmd/arca-routerd/config_sync.go:152-166 | the time of the last apply moves iff a revision is recorded by applying it, and every reconcile moves the time of the last check |
| Follower.RecordsSafelyIff | cmd/arca-routerd/config_sync.go:131-166 | with a store that stands still during the tick, recording is safe iff the tick did not skip wrongly |
| Follower.FollowerIsSafe | cmd/arca-routerd/config_sync.go:107-192 | in every run, with the store moving between the two reads and failures anywhere, a recorded revision r means that a store snapshot of revision at least r is running, or some tick skipped on an equal hash that hides an observable difference |
| Follower.LastRecordDecides | cmd/arca-routerd/config_sync.go:131-192 | at the end of every run the engine runs the snapshot read by the last recording tick iff that tick did not skip it wrongly |
| Follower.FollowerIsSafeForAgreeingConfigs | cmd/arca-routerd/config_sync.go:184-192 | the same for the real hash, whenever skipped configurations agree on what the hash leaves out |
| Follower.Converges | cmd/arca-routerd/config_sync.go:107-167 | one undisturbed successful reconcile records the store's revision, and the engine then runs the store's configuration iff the reconcile did not skip it wrongly |
| Follower.Quiescent | cmd/arca-routerd/config_sync.go:131-134 | from then on, while the store stands still, ticks leave engine, revision and time of the last apply alone |
| Follower.SkipIsRightIff | cmd/arca-routerd/config_sync.go:184-192 | a skip is right iff both configurations agree on the explicit SSH setting and on present-but-empty collections |
| Follower.SkipLosesExplicitDisable | cmd/arca-routerd/config_sync.go:184-192 | a concrete store whose revision is recorded and not running |
| Synchronizer.Synchronizer.Reconcile | cmd/arca-routerd/config_sync.go:107-167 | the synchronizer object on the engine object computes its specification and calls the plugins as it says |
| Synchronizer.Synchronizer.ShouldApplySyncedSnapshot | cmd/arca-routerd/config_sync.go:184-192 | a snapshot is applied iff nothing is running or the hashes differ |
| Text.JoinSplit | cmd/arca-routerd/web_handlers.go:368-383 | joining the lines of a text gives the text back |
| Text.SplitJoin | cmd/arca-routerd/web_handlers.go:368-383 | splitting joined lines gives the lines back |
| Text.SortedUnique | cmd/arca-routerd/cluster_sync.go:84-85 | a sorted list is determined by its elements, so sorting forgets the order it was given |
| Text.LeIff | cmd/arca-routerd/web_handlers.go:488 | the order of sort.Strings is by the first difference, a prefix first |
| Text.NormalizedConcat | cmd/arca-routerd/web_handlers.go:509-519 | parts are trimmed one after the other, blank ones left out |
| Words.TrimSpaceOf | cmd/arca-routerd/cluster_sync.go:73-76 | trimming takes off exactly the white space at both ends |
| Words.FieldsOfSpread | pkg/config/serializer.go:28 | the fields of a text are its words, whatever white space is around them |
| Redaction.RedactedIff | pkg/config/serializer.go:25-52 | a line is redacted iff it consists of the words of an SNMP community or user password command, in any spacing, with the marker in any quotes as value |
| Redaction.RedactedContent | pkg/config/serializer.go:25-52 | a line is redacted iff its content without the carriage return is |
| Redaction.WebConfigTextLines | cmd/arca-routerd/web_handlers.go:386-395 | the lines without endings and without the empty one after a final line feed |
| Redaction.TextLinesOf | cmd/arca-routerd/web_handlers.go:386-395 | these are the lines a text was joined from, whatever their endings and with or without a final line feed |
| Redaction.RedactedLineReplacements | cmd/arca-routerd/web_handlers.go:344-365 | succeeds iff redacted lines determine the lines behind them, and then maps exactly those |
| Redaction.ReplaceRedactedLines | cmd/arca-routerd/web_handlers.go:367-384 | succeeds iff every redacted line has a replacement that is not redacted, and then replaces those lines and no others |
| Redaction.ResolveEditText | cmd/arca-routerd/web_handlers.go:318-342 | a text with markers resolves iff the running configuration explains all of them, and then line count, other lines and endings are kept |
| Redaction.NoMarkerRemains | cmd/arca-routerd/web_handlers.go:367-384 | a resolved text has no redacted line left |
| Redaction.RedactedIsEndingBlind | pkg/config/serializer.go:25-52 | the real notion of a redacted line ignores a trailing carriage return, as these results require |
| Redaction.ResolvedForReal | cmd/arca-routerd/web_handlers.go:318-342 | so a text resolved with it has no marker left |
| Redaction.RoundTripIff | cmd/arca-routerd/web_handlers.go:318-395 | the redacted text sent back unchanged resolves to the unredacted one iff both agree on line endings and on the lines that are not redacted |
| Redaction.UneditedIsKnown | cmd/arca-routerd/web_handlers.go:318-342 | the redacted text sent back unchanged always resolves if it is consistent with the unredacted one |
| Redaction.RoundTripForReal | cmd/arca-routerd/web_handlers.go:318-395 | both for the lines the serializer redacts: sent back unchanged, a consistent text resolves, and to the unredacted one iff they agree elsewhere |
| LineDiff.DiffLineMap | cmd/arca-routerd/web_handlers.go:492-507 | succeeds iff equal lines have equal shown forms, and then maps every line to its form |
| LineDiff.RedactedLineDiff | cmd/arca-routerd/web_handlers.go:467-490 | the diff consists of the marked forms of exactly the lines only one text has |
| LineDiff.DiffIsDetermined | cmd/arca-routerd/web_handlers.go:477-489 | the diff is the same for every order in which the maps are walked |
| LineDiff.DiffEmptyIff | cmd/arca-routerd/web_handlers.go:448-489 | the diff is empty iff both texts have the same set of lines |
| LineDiff.DiffShowsExactly | cmd/arca-routerd/web_handlers.go:467-490 | the lines of the diff are, one for one, the lines of the symmetric difference, removed ones with a minus and added ones with a plus, sorted |
| LineDiff.TextDiffShowsExactly | cmd/arca-routerd/web_handlers.go:467-519 | the same for the line maps of any two texts, the diff being empty iff they have the same lines |
| Tokens.LoadTokens | cmd/arca-routerd/web_server.go:125-149 | a file is accepted iff its lines parse, names and values are distinct and there is a token, and then exactly its tokens are loaded; else the error names the first offending line and what it clashes with |
| Tokens.LoadedIsSeparate | cmd/arca-routerd/web_server.go:125-149 | no two tokens the loader accepts have the same fingerprint |
| Tokens.AtMostOneMatch | cmd/arca-routerd/web_auth.go:262-271 | a presented string matches at most one of the loaded tokens |
| Tokens.Authenticate | cmd/arca-routerd/web_auth.go:230-271 | succeeds iff some token has a value, its digest is that of the presented string and it has not run out; name and role are those of the token, or else its key and read-only; with loaded tokens they do not depend on the map order |
| TokenCache.TokenFile.TokensForRequest | cmd/arca-routerd/web_server.go:70-101 | the cache object answers and changes as specified |
| TokenCache.CacheIsCoherent | cmd/arca-routerd/web_server.go:70-111 | in every run with the file replaced at any moment, cached tokens are those of a fresh parse of the version just seen, and a cached error is that of a fresh parse iff the load behind it could read the file |
| TokenCache.UncachedIsFresh | cmd/arca-routerd/web_server.go:92-100 | an answer not from the cache is that of the load just made, or says the file could not be looked at |
| TokenCache.RefusedIff | cmd/arca-routerd/web_server.go:77-100 | after any run a request gets a stat error iff the stat fails, a permission error iff the file is unchanged and the check fails, and a cached answer iff it is unchanged and the check passes; else the file is loaded |
| TokenCache.ReadErrorIsKept | cmd/arca-routerd/web_server.go:83-97 | a concrete run in which one failed read is served for a readable, correct file |
| Endpoints.NormalizedEndpoints | cmd/arca-routerd/cluster_sync.go:70-86 | the sorted list of the trimmed non-empty endpoints, each once |
| Endpoints.SameEndpoints | cmd/arca-routerd/cluster_sync.go:88-98 | true iff the lists are equal |
| Endpoints.SameNormalFormIff | cmd/arca-routerd/cluster_sync.go:70-98 | two normal forms are equal iff the trimmed non-empty endpoint sets are |
| Endpoints.NormalFormIsNormal | cmd/arca-routerd/cluster_sync.go:70-86 | normalizing is idempotent |
| Endpoints.ValidateChanges | cmd/arca-routerd/cluster_sync.go:30-68 | the plugin accepts iff no endpoints are configured for an enabled cluster or the daemon runs on etcd with the same set, else the error names what is missing |
| Endpoints.ClusterStatus | cmd/arca-routerd/metrics.go:171-183 | the published endpoints are the normal form of those configured for an enabled cluster, enabled is that of the configuration, and alignment is reported iff the configuration names no endpoint or the daemon's own |
| Endpoints.AlignedIff | cmd/arca-routerd/metrics.go:177-181 | reported as aligned are exactly the configurations the plugin accepts and those that name no endpoint |
| Endpoints.RunsStayAligned | cmd/arca-routerd/main.go:442-450 | in every run in which the plugin, when asked, lets only accepted changes pass, the running configuration is reported as aligned |
| AlignedThreads.InstructionCleared | cmd/arca-routerd/cluster_sync.go:30-52 | no instruction of the concurrent engine takes a candidate past the plugin that it does not accept, and none writes another |
| AlignedThreads.InterleavingsStayAligned | cmd/arca-routerd/main.go:442-450 | with an honest cluster plugin every state of every interleaving runs an aligned configuration |
| Status.BuildDatastoreConfig | cmd/arca-routerd/main.go:260-302 | exactly which flags give a datastore and which one: etcd with the listed endpoints, of which there is one at least, or SQLite with none |
| Status.ParseCommaList | cmd/arca-routerd/main.go:324-333 | the trimmed non-empty parts in their order, repetitions included |
| Status.RunsKeepSyncOk | cmd/arca-routerd/config_sync.go:112-166 | in every run with a clock that does not go back, healthy means no error and a last check, and the last apply is not after the last check |
| Status.SyncIsAccepted | examples/nms/http_telemetry_collector.go:1143-1177 | after every run of the synchronizer the collector accepts the published synchronization status |
| Status.OverlayStatus | cmd/arca-routerd/metrics.go:233-253 | the counters are the numbers of VNIs of each kind, whatever the map order |
| Status.OverlayIsAccepted | examples/nms/http_telemetry_collector.go:1377-1417 | the collector accepts these counters, layer 2 and layer 3 together included |
| Status.CosStatusOf | cmd/arca-routerd/metrics.go:255-299 | the numbers of classes, of profiles and of interfaces with an output profile, and that the collector accepts the result |
| Status.HaStatusOf | cmd/arca-routerd/metrics.go:318-389 | the group count is that of the configuration when the cluster is enabled; converged iff there are groups and the cluster, VRRP, BFD and VPP parts have no issue; the collector accepts the result |
| Status.Publish | cmd/arca-routerd/metrics.go:133-231 | for every configuration, datastore and synchronizer state the collector accepts all six parts of the status, which are those of the daemon's datastore, its synchronizer and its configuration |

## Left out

- Context cancellation, logging, time stamps of snapshots: they do not influence what is decided.
- `RouterConfig.Validate` and the configuration parser and printer: parameters or plain inputs of the model.
- VPP and FRR plugins: represented by the plugin contract only.
- Prepared commits in the store: `Abort` is not modelled, only whether preparing and committing succeed.
- Etcd, SQLite and the file system: what they answer is a parameter, and etcd key deletion appears only as a missing snapshot.
- EngineThreads.EveryInterleavingIsSerial: the write preference of Go's read/write lock and fairness are not modelled, they only exclude executions.
- ConfigEngine.Engine.Apply: aliasing is modelled per tree, not per node; a tree is one mutable object.
- Tokens.LoadTokens: the parser of a single token line (hex digits, expiry dates, roles) is a parameter.
- TokenCache.CacheIsCoherent: the checks inside one file read are summed up as reading one version of the file or failing.
- Status.Publish: EVPN, class of service and VRRP inputs are typed separately from the configuration tree, where these sections are opaque values; checks against the wall clock are not modelled.
- Status.BuildDatastoreConfig: credentials and TLS settings are not modelled; the mode flag is taken after trimming and lower-casing.
- Endpoints.ValidateChanges: the endpoint lists inside its error text are left out.
- HTTP handling, TLS, sessions, SNMP, Prometheus text, the CLI and gRPC plumbing: easy or not part of the configuration core.
