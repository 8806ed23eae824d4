# glitr: the reconciler and its coordinator, in Dafny

glitr drives the Linux LIO iSCSI target. It turns a desired configuration into a configfs
tree of kernel objects that reference each other, and on top of that an appliance
coordinator keeps a durable database of objects, hosts and connections without ever losing
a SCSI-3 fence. This project models both and proves what they promise.

`dafny verify dfyconfig.toml` checks everything.

## How it is laid out

- `LioConfig`, `Kernel`, `Topology`: the desired config and its validation; the live tree as
  a class whose calls may each fail; and `Realised`, which says that the tree is exactly a
  config.
- `Backstores`, `Ensure`, `Apply`, `Remove`, `Sync`: the full reconcile, one method per
  function of the `lio` package.
- `Diff`, `Incremental`: the incremental reconcile, and that it ends where the full one does.
- `AppliedView`: drift, and the view of the live tree the coordinator caches.
- `Database`, `Mutations`, `Api`, `Translate`, `DesiredLio`, `Lookups`, `Coherence`: the
  durable document, the changes the API makes to it, its translation into a config, and how
  tree and database stand to each other between operations.
- `Coordinator`: the state machine itself, with commit, heal, the reservation clear and the
  hold set. Its `Inv` holds after every operation, so what it says holds in every run.
- `Rollback`: the database as it lies in memory, with slices filtered in place and records
  edited through pointers.
- `Storage`: object bytes against object records, with a crash allowed between any two steps.
- `PrState`, `Text`, `Aptpl`, `VerifyAptpl`, `Stranded`: the decisions that must not guess.

Failures are part of every statement. Each system call in `Kernel` fails at will, so each
contract of the engine says what is true at every exit, and the error kinds that can never
occur are excluded by name: `Busy` (a removal met a live reference), `Dependency` (a LUN named
a backstore the pass does not have) and `Refused` (a portal could not be bound). On a kernel
whose calls do not fail (`faults` is false) what is left is success: `Servable` says what a
backstore needs, and `SyncConfig` and `ApplyDelta` then return no error.

Fields that only proofs read make promises over whole runs checkable. In the kernel, `owed`
holds the saved registrations each object must be given before it is enabled, and `repoints`
counts how often a linked LUN was re-pointed in place: `Counted` and `MovesCounted` say that
whoever leaves it alone has moved no link. In the coordinator, `log` holds the changes that made
its database, `versions` the databases a crash may bring back, and `known` what its cached view is
worth: the config it was made for, and the attributes that slipped through.

Which of the reads made while drift is looked for fail is an input too, `misreads`.

How a reading of an object's reservations goes is an input of the clear (`Fate`), so its
contract can say which answers a failed reading excuses.

Where a predicate ends in `== true`, the comparison only keeps the verifier from taking the
predicate apart clause by clause. It means the same without it.

## Where the code does not keep a promise

Each of these is modelled as the code has it, with a failing case and the exact condition.

- A grow that is retried after a failed fsync finds the file already at the new size and
  returns without fsyncing (storage/store.go:195-197), so the record can outrun what a crash
  leaves: `Storage.Disk.Resize` gives the condition, `Storage.RetriedGrow` the case.
- Startup sets aside directories with no record. After a restart without a crash, an older
  version of the database that a later crash may still bring back can name one of them:
  `Storage.Disk.Adopt` gives the condition, `Storage.ForgottenDelete` the case.
- A rollback restores every field but the target IQN and the machine id, which
  `snapshotState` does not copy (appliance/appliance.go:987-988): `Rollback.Held.Commit` gives
  the condition, and any database with either field set is a case. The coordinator model drops
  them in the same way, so after a failed commit the next successful one writes them out empty.
- A backstore left half made in buffered mode and then finished unbuffered advertises no write
  cache over a buffered file, because the control option only ever turns the mode on:
  `Backstores.EnsureBackstore` gives the condition, `Backstores.StickyMode` the case.
- An attribute that was refused and then could not be read back is cached as applied by the
  incremental path (appliance/translate.go:393-399), which leaves the next delta nothing to try:
  `AppliedView.DeltaViewDescribes` gives the condition, `AppliedView.ForgottenDrift` the case.
- An object held back and then renamed is no longer named by /health, which publishes the names
  of the time of the hold (appliance/appliance.go:1334): `Coordinator.Coordinator.Health` gives
  the condition, `Coordinator.RenamedHold` the case.
- A stranded report can be wrong when a blind target has an ACL of the holder that shows no
  session: `Stranded.StrandIsProof` gives the condition, `Stranded.FalseStrand` the case.
- With several holders on record only the first exported and the last lapsed one are checked
  (lio/backstore.go:482-492, 535-540): `VerifyAptpl.SilenceIsProof` gives the condition,
  `VerifyAptpl.SilentLoss` the case.

## Model

| member | source | states |
|---|---|---|
| `LioConfig.Validate` | lio/validate.go:60-84 | accepts a config exactly when names, references, keys and block sizes are valid at every level |
| `LioConfig.ValidateTarget` | lio/validate.go:156-247 | accepts a target exactly when its IQN and every TPG are valid and no tag repeats |
| `LioConfig.ValidateTpg` | lio/validate.go:156-247 | accepts a TPG exactly when LUNs, portals and ACLs are unique and every LUN names a backstore of the config |
| `LioConfig.ValidateMapped` | lio/validate.go:213-245 | accepts mapped LUNs exactly when indexes are unique and each points at a LUN of the TPG |
| `Kernel.NodeStepKeepsShape` | lio/delta.go:75-80 | any call the kernel accepts leaves mapped LUNs pointing at LUNs that exist and portals that some order could bind |
| `Kernel.NodeStepKeepsLinks` | lio/backstore.go:265-404 | no accepted call leaves a LUN linked to a backstore that is not enabled |
| `Kernel.Configfs.OnNode` | lio/configfs/configfs.go:159-360 | a call inside a TPG fails and changes nothing, or does exactly its step; the invariant (links on enabled objects, enabled objects given every owed record) holds either way |
| `Kernel.Configfs.OnObj` | lio/configfs/configfs.go:314-337 | a write to a storage object; enabling is allowed only with every owed saved record loaded |
| `Kernel.Configfs.OnDir` | lio/configfs/configfs.go:159-213 | making and removing targets, TPGs and objects; a removal is refused while a child or an incoming link remains |
| `Topology.RealisedOnce` | lio/sync.go:15-24 | a config pins the topology down: two trees that realise it agree on targets, TPGs, LUNs, ACLs and object keys |
| `Backstores.EnsureBackstore` | lio/backstore.go:265-373 | on success the object is enabled at its device and size with every managed attribute at its desired or reported value; a settled object is not written; the weld of buffered mode and advertised cache is kept except, exactly, when a half-made buffered object is finished unbuffered; enabled afterwards means enabled before, or given every record the provider answered with; and where nothing stands in the way it fails only if a call does |
| `Backstores.CreateBackstore` | lio/backstore.go:307-372 | create or finish an object: it is enabled only if the provider answered and every saved record went in first, so a failed load stops the pass with the object not enabled |
| `Backstores.LoadAptpl` | lio/backstore.go:386-404 | success means that the provider answered and every record it returned has been loaded; at every exit no other has, and none was lost; the object is still not enabled |
| `Backstores.WriteAttrs` | lio/backstore.go:346-357 | at every exit each attribute is at its old or its desired value; on success all are desired |
| `Backstores.ReconcileMutable` | lio/backstore.go:709-820 | attributes of a live object converge or are reported as drift with their live value, sizes only grow, and the weld is kept |
| `Backstores.ReconcileAttr` | lio/backstore.go:748-774 | one attribute: already right, written, or left at its live value because the object is exported |
| `Backstores.GrowObj` | lio/backstore.go:776-818 | the served size ends equal to the desired one, floored to blocks, and never shrinks |
| `Backstores.WeldStep` | lio/backstore.go:679-702 | one object reconciled from a single write-back flag keeps the tree free of a cache claim that disagrees with the mode |
| `Backstores.StickyMode` | lio/backstore.go:307-324 | the failing case: a create with write-back on that stops half way, the setting turned off, and a pass that finishes the object; its cache claim then contradicts its mode |
| `Ensure.NextBinds` | lio/iscsi.go:541-560 | with conflicts gone and wildcards first, no bind is refused under the order-dependent kernel rule |
| `Ensure.EnsurePortals` | lio/iscsi.go:102-107 | ends with the live portals plus the desired ones, is never refused when ready, and changes nothing when all are bound |
| `Ensure.CheckPortalOverlap` | appliance/appliance.go:1628-1652 | accepts a portal list exactly when no wildcard covers another address on its port |
| `Ensure.EnsureLun` | lio/iscsi.go:154-211 | the LUN is old, empty or linked as desired at every exit; an unknown backstore is a dependency error; a LUN that loses its link is counted, and loses it only if it was live with another backstore |
| `Ensure.EnsureLuns` | lio/iscsi.go:108-112 | on success the LUNs are the old ones overridden by the desired ones; every link on the way is old, gone or desired |
| `Ensure.EnsureMapped` | lio/iscsi.go:233-268 | only this mapped LUN changes, and on success it points at its TPG LUN with its write-protect flag |
| `Ensure.EnsureAcl` | lio/iscsi.go:214-230 | only this ACL changes, and on success its mapped LUNs are the old ones overridden by the desired ones |
| `Apply.EnsureTpg` | lio/iscsi.go:39-136 | on success the TPG is the old one with the desired contents laid over it; TPGs elsewhere are untouched; a flag that already agrees is not written |
| `Apply.EnsureTarget` | lio/iscsi.go:11-35 | the same for one target and its TPGs, with no unknown backstore and no refused bind when the config resolves and is ready |
| `Apply.EnsureTargets` | lio/config.go:220-228 | the same for all targets, for every config and tree |
| `Apply.EnsureBackstores` | lio/config.go:215-219 | every listed object done or the pass stopped; only listed objects can be new or changed, none is given a record that is not its own, and the weld is kept; an object enabled by the loop was first given everything saved for it |
| `Apply.ApplyConfig` | lio/config.go:208-230 | Apply is additive: on success the tree has everything the config asks for and has lost nothing, at any failure every link is old, gone or desired; no object is enabled before its saved records are in; and with nothing in the way it fails only if a call does |
| `Remove.RemoveLun` | lio/removal.go:16-25 | unlink then rmdir; refused only while a mapped LUN points at it |
| `Remove.RemoveMapped` | lio/removal.go:27-36 | the mapped LUN goes and nothing else changes; never refused |
| `Remove.RemoveAcl` | lio/removal.go:38-74 | children first, so never refused; every other ACL is untouched |
| `Remove.RemoveTpg` | lio/removal.go:76-130 | ACLs, LUNs, portals, then the TPG: never refused, and no link appears |
| `Remove.RemoveTarget` | lio/iscsi.go:292-321 | the TPGs, then the target: never refused, and everything outside the target is untouched |
| `Remove.RemoveBackstore` | lio/backstore.go:898-907 | refused only while some LUN links to the object |
| `Sync.PruneUnobstructs` | lio/sync.go:249-359 | whatever was bound, once the conflicts are removed every missing desired portal can be bound |
| `Sync.SteadyPortalsStay` | lio/sync.go:309-327 | a live portal set that is the desired one loses nothing |
| `Sync.PruneConflicting` | lio/sync.go:249-271 | removes exactly the conflicting portals of desired TPGs and nothing else |
| `Sync.PruneTpg` | lio/sync.go:145-158 | a desired TPG that has everything ends with exactly its portals, ACLs and LUNs, with no refusal |
| `Sync.PruneTargets` | lio/sync.go:115-160 | ends with exactly the desired targets and TPGs, never removing a referenced object |
| `Sync.PruneBackstores` | lio/sync.go:162-168 | removes every undesired object and no other, never one a LUN links to |
| `Sync.SyncConfig` | lio/sync.go:25-107 | from any well-formed tree: an invalid config changes nothing; no referenced object is removed and, with portals that pass the overlap check, no bind is refused; success means the topology is exactly the config; from a tree that already is the config nothing is written once objects are settled; a link moved is counted; an object enabled was first given its saved records; and with portals that fit and nothing in the way of a backstore it fails only if a call does |
| `Sync.SyncTwice` | lio/sync.go:25-107 | a second Sync leaves the topology alone, and after a first one with no drift writes nothing at all |
| `Diff.DiffConfigs` | lio/delta.go:116-196 | for valid configs, ok exactly when nothing moved identity and the structure is the same; the delta then holds the changed records, the backstores its LUNs name, and exactly what is gone |
| `Diff.DiffTpg` | lio/delta.go:240-304 | the added part of a TPG and its removals, with the enable flag carried and no portals |
| `Diff.DiffAcls` | lio/delta.go:262-302 | new ACLs whole, changed ones with their new mapped LUNs only, and exactly the mapped LUNs and ACLs that went away |
| `Diff.AddReferenced` | lio/delta.go:200-224 | the delta's backstores are the changed ones and those its LUNs name, nothing twice |
| `Diff.MovedIdentity` | lio/delta.go:308-315 | true exactly when a name kept its name under another plugin or HBA |
| `Diff.SamePortals` | lio/delta.go:348-365 | true exactly when both lists have the same portals the same number of times |
| `Diff.SameStringMap` | lio/delta.go:329-346 | true exactly when the maps are equal, presence included |
| `Incremental.SamePaths` | lio/delta.go:151-184 | two configs Diff calls alike have the same TPGs, by counting |
| `Incremental.DeltaResolved` | lio/delta.go:185-194 | a delta names every backstore its LUNs need |
| `Incremental.NodeMerged` | lio/delta.go:418-435 | adding a delta's part to a TPG that was prev leaves everything next asks for and, beyond it, only what the delta removes |
| `Incremental.CheckScope` | lio/delta.go:451-465 | passes only if every TPG of the desired config is in the tree |
| `Incremental.ApplyRemovals` | lio/delta.go:468-493 | in reverse dependency order, so on the tree the additions left no removal meets a live reference; ends with exactly next |
| `Incremental.ApplyDelta` | lio/delta.go:395-446 | on a tree whose topology is prev: no refusal, no stale scope, no enable flag changed, and success leaves exactly next; on any tree: every link is old, gone or desired, and nothing is re-pointed unless a wanted LUN was live with another backstore; a link moved is counted; an object enabled was first given its saved records; and with nothing in the way of a backstore it fails only if a call does |
| `Incremental.DeltaWired` | lio/delta.go:395-446 | every mapped LUN a delta adds leads to a LUN it adds too or that the tree has |
| `Incremental.DeltaLikeSync` | lio/delta.go:10-27 | Diff and ApplyDelta end with the topology a Sync of next leaves |
| `AppliedView.MakeView` | appliance/translate.go:387-421 | the desired config with each known drift set back to its live value and unread ones left as desired |
| `AppliedView.VerifyDrift` | lio/backstore.go:1105-1142 | records every attribute at its live value, except those it could not read or whose object is not exported, which it leaves as desired; if none of the reads it makes is one that fails, every exported object that has its attributes was read in full |
| `AppliedView.FullViewDescribes` | appliance/translate.go:334-353 | after a full reconcile the cached view describes the live tree: topology, devices, sizes and every attribute |
| `AppliedView.DeltaViewDescribes` | appliance/translate.go:306-326 | after an incremental one it describes topology, devices, sizes and every attribute but those that slipped through; from a view that missed nothing, it describes all of them if and only if no attribute refused by the pass went unread |
| `AppliedView.ReadingsSettle` | appliance/translate.go:387-399 | the readings settle whether the view is right if and only if every attribute was read; otherwise some tree that reads the same is not as the view says |
| `AppliedView.ForgottenDrift` | appliance/translate.go:392-399 | the failing case: an exported volume, a refused write and a failed read; the view says the value was applied |
| `AppliedView.KnownDriftRevisited` | lio/delta.go:119-133 | a backstore with a known drift is in every later delta that still wants it |
| `Mutations.ExportIndex` | appliance/appliance.go:1469-1483 | the index an object has, or the lowest free one, recorded |
| `Mutations.FreeAtMostUsed` | appliance/appliance.go:1473-1480 | the lowest free index is at most the number in use |
| `Mutations.CheckIqns` | appliance/hosts.go:73-91 | passes exactly when the initiators are valid, distinct and no other host owns one |
| `Mutations.AddConnOk` | appliance/hosts.go:350-355 | connecting keeps the database invariant, every index already given, and the index bound |
| `Mutations.DropConnOk` | appliance/hosts.go:405-415 | disconnecting keeps the invariant and every surviving index |
| `Mutations.DropObjectOk` | appliance/objects.go:385-409 | deleting an unconnected object keeps the invariant and every index |
| `Mutations.RewriteOk` | appliance/objects.go:343-350 | editing a record in place keeps the invariant |
| `Mutations.SetIqnsOk` | appliance/hosts.go:230-236 | replacing a host's initiators keeps the invariant |
| `Mutations.ValidateLoaded` | appliance/appliance.go:730-848 | accepts a database exactly when records, references, LUNs and export indexes are in order |
| `Mutations.ReachableIsLoadable` | appliance/appliance.go:723-848 | the database invariant implies acceptance at the next start, with at most 16384 exports |
| `Translate.NameInjective` | appliance/translate.go:32-34 | two UUIDs never share a backstore name |
| `Translate.DesiredValid` | appliance/translate.go:59-248 | a database that keeps the invariant translates into a config Config.Validate accepts, with portals that can be bound |
| `Translate.DesiredGoal` | appliance/translate.go:103-229 | every LUN of the translation is a listed object at its export index |
| `DesiredLio.Build` | appliance/translate.go:59-248 | the loops build exactly that config, in whatever order the exported objects come, and allocate no index on the way |
| `Api.ReachableOk` | appliance/hosts.go:25-420 | every database the API can reach keeps the invariant, its indexes below the most objects ever exported at once |
| `Api.ReachableBorn` | appliance/objects.go:142-162 | no sequence of operations changes the block size an object was made with |
| `Api.ReachableStarts` | appliance/appliance.go:730-848 | every such database is accepted by the next start and translates into a valid config |
| `Coherence.FreshIndexUnlinked` | appliance/appliance.go:1001-1015 | on a tree in sync, an index the allocator hands out is not live with another object |
| `Coherence.TowardKeepsNoForeign` | lio/iscsi.go:183-194 | a pass that stops anywhere leaves no export index live with another object |
| `Coherence.StillNotBuilt` | appliance/translate.go:80-89 | a pass whose config leaves an object out does not build it |
| `Coherence.LeftOutAbsent` | appliance/translate.go:80-89 | in a tree in sync an object left out has no backstore under any HBA |
| `Coherence.StillInSync` | appliance/appliance.go:1025-1038 | a change that presents the same objects to the same hosts leaves the tree in sync |
| `Lookups.ResolveObject` | appliance/model.go:177-185 | a name within its kind, else a UUID of that kind, else nothing |
| `Lookups.SeatOf` | appliance/hosts.go:330-347 | a connection is free, the same one again, or in conflict |
| `Lookups.NextBindings` | appliance/hosts.go:169-186 | replace, then add, then remove |
| `Coordinator.PassKeeps` | appliance/translate.go:275-353 | wherever a pass stops, no index is foreign, no held-back object is built and the weld holds |
| `Coordinator.Provide` | appliance/aptpl.go:45-84 | an answer for a backstore is what the file for its WWN holds, or nothing where there is no file; a file that cannot be read or made out is no answer |
| `Coordinator.PassLeaves` | appliance/translate.go:275-353 | wherever a pass stops, no live LUN leads to another backstore than before, and every object of the database whose backstore it enabled was given its whole saved file and nothing else |
| `Coordinator.FullPass` | appliance/translate.go:332-353 | a full reconcile that succeeds leaves a view that misses nothing |
| `Coordinator.DeltaPass` | appliance/translate.go:281-328 | an incremental one leaves a view that describes the tree but for what slipped through, and nothing did if no read failed |
| `Coordinator.ReconcileTo` | appliance/translate.go:275-353 | incremental, fallback or full: success leaves the tree in sync and a view that describes it, with nothing missed unless a read failed and nothing newly missed that is as desired; failure discards the view; no LUN is re-pointed in place and nothing unsaved is replayed; no live LUN is moved, and an object whose backstore it enabled was given its whole saved file |
| `Coordinator.Coordinator.Reconcile` | appliance/translate.go:275-330 | the same for the coordinator's own state, with the verdict recorded |
| `Coordinator.Coordinator.HealIfDegraded` | appliance/appliance.go:1001-1015 | succeeds exactly when the last reconcile is good |
| `Coordinator.Coordinator.Commit` | appliance/appliance.go:1057-1110 | memory and disk are as they were, but for what the snapshot drops, or both hold the change; the invariant and every LUN's object are kept |
| `Coordinator.Coordinator.PersistOnly` | appliance/appliance.go:1039-1055 | the same for a change the kernel cannot see, which leaves the tree in sync |
| `Coordinator.Coordinator.Connect` | appliance/hosts.go:295-359 | refused, exactly when there is no such object or host, the object is not ready, the LUN cannot be or the seat is taken; repeated; undone; or the connection and its index are in memory and on disk |
| `Coordinator.Coordinator.Disconnect` | appliance/hosts.go:366-420 | refused exactly when there is no such object or host, repeated exactly when there is no such connection, undone, or the connection and an index nobody needs any more are gone, in memory and on disk |
| `Coordinator.Coordinator.CreateHost` | appliance/hosts.go:25-68 | a new host, a repeat or refusal exactly when the name is taken, or a refusal exactly when the name or the initiators will not do |
| `Coordinator.Coordinator.SetBindings` | appliance/hosts.go:155-241 | the host's initiators are exactly those the request leads to |
| `Coordinator.Coordinator.DeleteHost` | appliance/hosts.go:244-271 | refused exactly while connected, otherwise the host is gone |
| `Coordinator.Coordinator.Create` | appliance/objects.go:104-218 | a new unconnected record, a matching repeat, or a refusal |
| `Coordinator.Coordinator.MatchExisting` | appliance/objects.go:244-282 | a repeat matches only on block size and, if given, the recorded source |
| `Coordinator.Coordinator.Rename` | appliance/objects.go:321-354 | the record is renamed in memory and on disk, or nothing changed; refused exactly when the name will not do, is taken, or there is no such object |
| `Coordinator.Coordinator.Resize` | appliance/objects.go:412-461 | the record grows in memory and on disk before the kernel is told; refused exactly when there is no such object or the size will not do |
| `Coordinator.Coordinator.Delete` | appliance/objects.go:357-399 | refused exactly while connected; a hold is lifted only from the object that is gone |
| `Coordinator.Coordinator.HoldBack` | appliance/appliance.go:1237-1243 | the object joins the held-back set and the published one, and at the step between the clear in flight covers it |
| `Coordinator.Coordinator.ReleaseHold` | appliance/appliance.go:1249-1255 | one object leaves the set, never the whole set, and nothing left out is uncovered at any step |
| `Coordinator.Coordinator.Health` | appliance/appliance.go:1328-1334 | an object left out and not being cleared is named if and only if it bears the name it was held back under, unless another hold was made under that name |
| `Coordinator.RenamedHold` | appliance/objects.go:321-354 | the failing case: a clear holds an object back, the object is renamed, and its name is not among those published |
| `Coordinator.Coordinator.FenceStateOf` | appliance/clearpr.go:411-428 | no device is down; otherwise the verdict is what the reading showed, unknown only when the reading failed or its holder could not be made out |
| `Coordinator.Coordinator.VerifyCleared` | appliance/clearpr.go:466-518 | success means no holder and no registrations, dropped means no holder, unverified only when somebody holds or the reading failed; and a legible reading decides the answer |
| `Coordinator.Coordinator.RecoverFromFailedPrune` | appliance/clearpr.go:538-616 | the answer after a failed prune agrees with the kernel's fence and the reading: unknown only when the reading or the rebuild failed |
| `Coordinator.Coordinator.Rebuild` | appliance/clearpr.go:274-315 | the rebuilt object was given no saved record, and the answer is what a re-read shows or that the rebuild failed |
| `Coordinator.Coordinator.ClearReservation` | appliance/clearpr.go:125-325 | every exit agrees with the kernel's fence and with how the reading went; a declined call changes neither what is being cleared nor what is held back; a hold is lifted only from this object, which was rebuilt with no saved record replayed; it is declined exactly when there is no such object, the name is not repeated or the object is not ready, or when a tree already in error cannot be healed |
| `Coordinator.Restart` | appliance/appliance.go:397-452 | what one run leaves on disk and in the kernel, reservations included, meets the preconditions of the next start |
| `Coordinator.Reboot` | appliance/appliance.go:397-452 | so does any version of the file that a crash may bring back, with the kernel empty |
| `Rollback.Table.FilterInPlace` | appliance/objects.go:401-409 | filtering in place inside the backing array leaves exactly the survivors, in order |
| `Rollback.Table.Append` | appliance/hosts.go:350-353 | one record more, in spare capacity of the backing array or in a new one |
| `Rollback.Memory.Snapshot` | appliance/appliance.go:968-989 | a copy that shares no slice, record or map with the original and equals it but for the identity fields |
| `Rollback.Try` | appliance/appliance.go:1067-1071 | no sequence of in-place writes to the live state moves the snapshot |
| `Rollback.Held.Commit` | appliance/appliance.go:1039-1055 | a failed change is undone exactly, if and only if the target IQN and machine id were unset; otherwise memory and disk hold it |
| `Storage.Disk.Stage` | storage/store.go:229-254 | a staged object is visible with its full size fsynced, and success means its entry is durable too |
| `Storage.Disk.Create` | appliance/objects.go:173-218 | at every step and failure, each record a crash can bring back has its file, at least as long as it says |
| `Storage.Disk.Clone` | appliance/objects.go:177-186 | the same for a copy, grown or not |
| `Storage.Disk.Resize` | appliance/objects.go:437-452 | a grown record is backed after a crash if and only if the file did not already have that size unfsynced |
| `Storage.RetriedGrow` | storage/store.go:195-201 | the failing case: a grow whose fsync failed, tried again, records a size a crash can take back |
| `Storage.Disk.Delete` | appliance/objects.go:381-398 | bytes go only once no record a crash can bring back names them |
| `Storage.Disk.Crash` | appliance/appliance.go:934-946 | whichever versions come back, every record has its file |
| `Storage.Disk.Adopt` | appliance/appliance.go:672-721 | sets aside exactly the unrecorded directories with their bytes and marks nothing missing; records stay backed by files of their size, for later crashes too, if and only if no older version of the records can come back that names one set aside |
| `Storage.Disk.Reboot` | appliance/appliance.go:672-721 | after a crash and a start every record has its file at its size again |
| `Storage.ForgottenDelete` | appliance/appliance.go:694-708 | the failing case: a removal recorded but not durable, a restart that sets the directory aside, and a crash that brings the record back without it |
| `PrState.StopIsSeen` | lio/prstate.go:93-102 | if the kernel stopped before the last line, PRState says so, even after one newline is dropped |
| `PrState.ReadRegistrations` | lio/prstate.go:82-102 | a list not called truncated is the whole list |
| `PrState.MarginIsTight` | lio/prstate.go:67-71 | for every page size some list is cut with exactly the margin left |
| `Aptpl.ParseAptpl` | appliance/aptpl.go:113-186 | the loop over lines computes the fold that the properties are about |
| `Aptpl.ZeroRecords` | appliance/aptpl.go:157-193 | zero records without error exactly for the kernel's placeholder, for every text |
| `Aptpl.RecordsClean` | appliance/aptpl.go:145-155 | every record returned splits back into the lines of one block: no field is injected |
| `Aptpl.ParseRecord` | lio/aptplcheck.go:113-171 | a record is its last valid value per field, with every required field present, or an error |
| `Aptpl.RoundTrip` | appliance/aptpl.go:113-214 | framing, ParseAPTPL, then parseAPTPLRecord recovers every field of every registration |
| `VerifyAptpl.StillExported` | lio/aptplcheck.go:209-240 | true exactly when the five coordinates still lead to this backstore in the config |
| `VerifyAptpl.ExportedMeansReachable` | lio/aptplcheck.go:173-208 | on a tree equal to the config, exactly when following the live links reaches it |
| `VerifyAptpl.ExportedMappings` | lio/aptplcheck.go:279-298 | positive exactly when another initiator is mapped to the backstore |
| `VerifyAptpl.CheckLapsed` | lio/backstore.go:589-618 | complains exactly when another initiator can reach the device and no holder is read |
| `VerifyAptpl.VerifyBackstore` | lio/backstore.go:441-564 | the complaints are exactly the warranted ones; silence means every exported saved record is live with its key and, the holders being covered, the fence is kept; a complete reading of a device in order gives silence |
| `VerifyAptpl.SilenceIsProof` | lio/backstore.go:482-562 | silence proves the fence for every kernel it can be kept in if and only if the exported holders agree and, with none, the last lapsed one stands for all |
| `VerifyAptpl.SilentLoss` | lio/backstore.go:482-494 | the failing case: two lapsed holders of which the last is the one initiator still mapped; nobody holds, and the check is silent |
| `Stranded.CountVisible` | lio/stranded.go:294-309 | counts exactly the ACLs of configured TPGs that show a session |
| `Stranded.NoneHidden` | lio/stranded.go:310-316 | if no more sessions are live than ACLs show one, every session is the one its ACL shows |
| `Stranded.BlindTargets` | lio/stranded.go:286-319 | a configured target is called blind exactly when its count is unreadable or exceeds what is visible |
| `Stranded.LiveIsids` | lio/stranded.go:376-404 | exactly the identifiers shown for the holder on configured TPGs |
| `Stranded.BlindTargetFor` | lio/stranded.go:323-342 | the first blind target on which the holder shows a session |
| `Stranded.Decide` | lio/stranded.go:221-257 | silent, undecided for the first blind target the holder shows a session on, or stranded, each exactly when the sessions shown say so |
| `Stranded.StrandedReservations` | lio/stranded.go:205-271 | every backstore of the config is reported, or not, exactly as its reservation is decided |
| `Stranded.StrandIsProof` | lio/stranded.go:181-204 | a report proves that no session of the holder carries the identifier, for every kernel that reads the same, if and only if no blind target has an ACL of the holder |
| `Stranded.FalseStrand` | lio/stranded.go:323-342 | the failing case: the demanded session is live behind an ACL that cannot be read |

## Left out

- Coordinator.Coordinator.Create: the bytes are modelled in `Storage`, the record here; the two halves are tied by the order in which the operation runs them, which `Storage` keeps.
- Coordinator.Coordinator.Delete: likewise the record half.
- Coordinator.Coordinator.Resize: likewise the record half.
- Coordinator.Coordinator.Connect: at most 16384 objects exported at once is a condition of acceptance at the next start, not of the operation, which has no bound.
- VerifyAptpl.VerifyBackstore: the prose of `res_pr_registered_i_pts` and `res_holder` reaches the model as a reading that may fail or fall short but reports nothing that is not so.
- Stranded.Info: extracting an identifier from an ACL's info text is a partial function of the one session the ACL renders, and sessions do not change while the check runs.
- Apply.EnsureTpg: TPG attribute and authentication writes are not modelled; they add error exits and no ordering.
- Stranded.StrandIsProof: sessions are taken to be on configured TPGs, as they are on a tree equal to the config.
- Coordinator.Coordinator.ClearReservation: the reading that decides the answer is one atomic look at the kernel, although the code reads several files.
- TPG attributes, CHAP, VPD identity strings (vendor, product, revision, unit serial) and alias files: written and compared like any other attribute, no new ordering.
- Discovery of an unknown tree: the model's prune reads the tree directly, and a failed read stops the pass.
- Renaming a host, portal adoption at start, identity adoption, schema versions, backups and reinit: operator tooling and startup plumbing.
- Reservation types, SPC-2 reservations and the reporting of what a clear dropped: text for operators. Kernel reservation state changes in any way while an object is live, which is more than an initiator can do.
- Network portals shared between TPGs or with foreign targets: the kernel's rule across TPGs is not decided by this code.
- REST handlers, clients, logs, health prose, timings, the lish shell, setup and command-line programs: input, output and text.
- SCSI encodings, sense decoding, netip and JSON parsing, FICLONE and locks: foreign calls or library code; addresses are a family and bits.
- Freshness of UUIDs and WWNs is assumed of the random source, as preconditions of Create and CreateHost.
