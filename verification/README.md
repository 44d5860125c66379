# KubeWeft: filesystem core, membership protocol and payload framing, verified in Dafny

This project models three parts of KubeWeft and proves what they promise on every input and in
every run.

* **The logical filesystem** (`crates/kubeweft-filesystem`). A metadata snapshot keeps a tree as a
  flat list of entries, beside the files, placements and retentions. Any number of clients edit it
  through load and compare-and-swap, while a reconciler repairs replicas on storage nodes.
* **Cluster membership** (`crates/kubeweft-transport/src/agent.rs`). Agents persist their state;
  a coordinator admits devices with one-use invitations and idempotent request ids, and members
  authorize peers from a cached roster.
* **Payload framing** (`crates/kubeweft-transport/src/secure.rs`). Chunking, length prefixes and
  a sealed stream.

`dafny verify dfyconfig.toml` checks everything.

## How the files are organised

| files | content |
|---|---|
| `Domain`, `Orders`, `Paths` | records and errors, sorting and listing, path text |
| `Tree`, `TreeEdits` | the entry list as a rooted tree; what adding, dropping and moving an entry does to every path |
| `Metadata`, `MetadataInvariants`, `Pins` | every metadata edit as a function `Apply(op, snapshot)`, what each keeps, and what becomes of snapshot pins |
| `Concurrency` | interleaved load and compare-and-swap steps of any number of calls |
| `Namespace`, `NamespaceAnswers` | the store, its retry loop under interference, the edits and the listing as imperative code; the exact answer of each edit, told from paths |
| `Placement`, `Content` | the placement policy; node stores with capacity and their registry |
| `Replication`, `ReplicationProofs`, `ReplicationPass`, `ReplicationTheorems`, `ReplicationAnswers` | a reconcile pass as a function of metadata and stores, per copy, per content and per pass, then the final results |
| `Reconciler` | the pass as imperative code, equal to that function |
| `Service`, `ServiceAnswers`, `ReadEffects`, `FilesystemService` | write and read, read-after-write over whole histories, the exact effect of a read on every record, and the imperative service |
| `Races`, `RaceRuns` | copy jobs, writes, reads and outages interleaved step by step over metadata and stores together; runs that lose a write |
| `Membership` | one agent's state, its transitions and its store |
| `MembershipRuns` | agents, messages and outsiders as a step relation |
| `MembershipInvariants`, `MembershipSteps` | the invariant, and every step keeps it |
| `MembershipTheorems`, `MembershipRetries`, `MembershipAnswers` | what holds in every run; refusals, retries and lock-out; exact answers and complete rosters |
| `Framing` | frames, chunks, writer, reader and the round trip |

The specification functions follow the source function by function: `Parse` is path.rs:9-30,
`Walk` namespace.rs:231-254, `Locate` path.rs:36-42 with namespace.rs:256-264, `EditMkdir` and
`EditCreate` namespace.rs:89-144, `EditRename` 146-174, `EditRemove` 176-213, `EditWrite`
service.rs:125-200, `DesiredNodes` placement.rs:24-60, `Put` content.rs:50-73, `Observe`
replication.rs:158-206, `FindSource` 246-263, `CopyLoop` 87-133, `ReconcileContent` 63-156,
`Reconcile` 40-61, `WriteFile` service.rs:111-217, `ReadFile` 254-307, and in agent.rs
`CreateCluster` 460-504, `CreateInvite` 506-518, `BeginJoin` 542-565, `AbandonJoin` 587-596,
`FinishJoin` 615-667, `AcceptMember` 672-735, `RemoteMembers` 781-796, `AuthorizeInCluster`
857-880 and `StoreRoster` 882-912.

## Assumptions

* The content hash, the credential digest, the cipher, the text form of invitations and the
  validators of names and endpoints are arbitrary functions. The cipher adds 16 bytes and
  inverts. Decoding an invitation undoes encoding it where a lemma says `Codec`. Injectivity is
  assumed only in the clauses that say so.
* File, directory and request identifiers and invitation secrets are fresh when drawn.
* The peer identity of a secure channel is the true sender. Devices outside the modelled set may
  send anything else.
* No two registered nodes share a store. Revisions and generations of the filesystem do not
  overflow; the agent's revision saturates as in the source.
* Identifiers that are compared or sorted use the order of their text or number.

## Where the code does less than one might expect

* A read marks a replica on an offline node `Offline` even if it was known to be bad, so such a copy
  counts towards durability again. `ReadRevivesIff` says exactly when, `ReadRevivesCorruptedCopy` is
  a history from a first start in which it happens, and `ReconcileNeverRevives` shows that a
  reconcile pass never does this.
* A copy job deletes the destination's object before it stores it again, without looking at the
  metadata once more. If the put then fails, an object that a concurrent write has recorded
  meanwhile is gone. `StoredIffMended` and `GoneIsBlamed` say exactly when; `CommittedWriteLost` and
  `CommittedWriteSqueezedOut` are runs in which a committed write cannot be read.
* A write of a content that is kept for a snapshot replaces that pin by `LiveReference`; every other
  edit keeps every pin. `PinsAfter` is exact, and `PinLostHere` is a snapshot in which two writes
  make the pinned content garbage. Nothing creates pins, so runs from the default snapshot hold none.
* A request refused for its invitation can be granted later, if an outsider reuses its request id
  with another invitation. `RefusedUnlessReused` is exact, `ReuseGrantsRefused` a run, and
  `AgentStaysRefused` shows that agents following the code never get there.
* An accepted device may never finish joining: `CanFinishIff` says exactly when it still can, and
  `LockedOut` is a run after which it cannot.
* A reader that announces too small a size accepts a truncated payload exactly at frame boundaries
  (`ShortAnnouncement`). One that announces too large a size reads on into whatever follows, and
  joins two payloads exactly at frame boundaries of the second (`LongIntoNext`).

## Model

| member | source | states |
|---|---|---|
| `Paths.RenderParse` | crates/kubeweft-filesystem/src/path.rs:9-30 | joining the components of an accepted path gives that path back |
| `Paths.ParseRender` | crates/kubeweft-filesystem/src/path.rs:9-30 | parsing a joined list of valid components gives the list back, so accepted paths and component lists are in bijection |
| `Tree.IsDescendant` | crates/kubeweft-filesystem/src/namespace.rs:306-325 | the unbounded parent walk terminates on every rooted tree and decides ancestry exactly |
| `Tree.PathUnique` | crates/kubeweft-filesystem/src/namespace.rs:231-254 | two component paths that reach the same target are equal |
| `Tree.PathExists` | crates/kubeweft-filesystem/src/namespace.rs:231-254 | every known file and directory is reached by some path |
| `TreeEdits.AddKeepsTree` | crates/kubeweft-filesystem/src/namespace.rs:89-144 | adding an entry for a new id under a known directory keeps a rooted tree |
| `TreeEdits.AddPaths` | crates/kubeweft-filesystem/src/namespace.rs:89-144 | the new path reaches the new target and every other path keeps its exact result or error |
| `TreeEdits.DropKeepsTree` | crates/kubeweft-filesystem/src/namespace.rs:176-213 | dropping a leaf entry keeps a rooted tree |
| `TreeEdits.DropPaths` | crates/kubeweft-filesystem/src/namespace.rs:176-213 | paths through the dropped entry end in NotFound and all others are unchanged |
| `TreeEdits.MoveKeepsTree` | crates/kubeweft-filesystem/src/namespace.rs:146-174 | moving an entry outside its own subtree keeps a rooted tree, in particular acyclic |
| `TreeEdits.MovePaths` | crates/kubeweft-filesystem/src/namespace.rs:146-174 | a move carries every path below the entry to its new place and touches nothing else |
| `Metadata.ResolveComponents` | crates/kubeweft-filesystem/src/namespace.rs:231-254 | the resolving loop computes the recursive walk, errors included |
| `MetadataInvariants.DefaultValid` | crates/kubeweft-filesystem/src/metadata.rs:68-87 | the default snapshot satisfies the whole invariant |
| `MetadataInvariants.KeepsTree` | crates/kubeweft-filesystem/src/namespace.rs:89-213 | every committed edit leaves a rooted tree with unique names, one entry per target, no orphan, no dangling id, no cycle |
| `MetadataInvariants.RenameMovesSubtree` | crates/kubeweft-filesystem/src/namespace.rs:146-174 | after a rename, to ++ s resolves as from ++ s did, paths below from are NotFound, every other path keeps its exact result or error |
| `MetadataInvariants.CreateAddsPath` | crates/kubeweft-filesystem/src/namespace.rs:89-144 | mkdir and create make exactly the requested path resolve, to the new id, and change no other path |
| `MetadataInvariants.RemoveDropsPath` | crates/kubeweft-filesystem/src/namespace.rs:176-213 | remove makes exactly the paths through the removed entry fail |
| `NamespaceAnswers.MkdirAnswer` | crates/kubeweft-filesystem/src/namespace.rs:89-114 | mkdir succeeds iff its path parses, is not the root and is free in an existing directory, with the exact error otherwise; it adds one directory of generation 1 and no other object |
| `NamespaceAnswers.CreateAnswer` | crates/kubeweft-filesystem/src/namespace.rs:116-144 | create likewise; it adds one file of generation 1 without content |
| `NamespaceAnswers.RemoveAnswer` | crates/kubeweft-filesystem/src/namespace.rs:176-213 | remove succeeds iff its path leads to a file or to a directory below which no path leads anywhere, and is not the root, with the exact error otherwise; exactly that object goes |
| `NamespaceAnswers.BelowMeans` | crates/kubeweft-filesystem/src/namespace.rs:306-325 | a directory lies below another, or is it, iff its path extends the other's |
| `NamespaceAnswers.RenameAnswer` | crates/kubeweft-filesystem/src/namespace.rs:146-174 | rename succeeds iff both paths parse and are not the root, the source exists, the destination is free in an existing directory, and a directory's path is no prefix of the destination's parent, with the exact error otherwise; no object's own record changes |
| `MetadataInvariants.OnePathString` | crates/kubeweft-filesystem/src/path.rs:9-42 | every file and directory of a valid snapshot has exactly one path string that parses and resolves to it |
| `MetadataInvariants.GenerationTracksListing` | crates/kubeweft-filesystem/src/namespace.rs:299-304 | over every edit a directory's generation rises by one exactly when the set of its children changes, and stays otherwise |
| `MetadataInvariants.MarkGarbageMeans` | crates/kubeweft-filesystem/src/namespace.rs:186-201 | for every retention map, exactly the listed contents that no remaining file references and no snapshot pins become garbage candidates; all other retentions stay |
| `MetadataInvariants.RemoveKeepsRetention` | crates/kubeweft-filesystem/src/namespace.rs:176-213 | removing a file keeps retention exact, also for contents shared with other files |
| `MetadataInvariants.WriteKeepsRetention` | crates/kubeweft-filesystem/src/service.rs:150-197 | a write keeps retention exact for the new content and for the one it replaces |
| `MetadataInvariants.KeepsRetention` | crates/kubeweft-filesystem/src/service.rs:150-197 | in every snapshot, pins or not, after every edit an unpinned content is LiveReference iff some file references it and otherwise GarbageCandidate, and retentions and placements have the same keys |
| `MetadataInvariants.PinsAfter` | crates/kubeweft-filesystem/src/service.rs:177-197 | after any edit of any snapshot a content is pinned iff it was pinned before and the edit is not a write of that content |
| `Pins.PinsAlong` | crates/kubeweft-filesystem/src/service.rs:177-197 | along any sequence of edits without a write of the content, pins neither vanish nor appear |
| `Pins.PinLostIff` | crates/kubeweft-filesystem/src/service.rs:177-197 | once a content was written to a file, replacing that file makes it unretained garbage iff no other file references it, whether or not it was pinned before |
| `Pins.PinLostHere` | crates/kubeweft-filesystem/src/service.rs:177-197 | a well-formed snapshot in which two writes make a pinned content garbage |
| `MetadataInvariants.KeepsPlacements` | crates/kubeweft-filesystem/src/replication.rs:283-302 | every edit keeps the replica nodes of each placement distinct |
| `MetadataInvariants.KeepsValid` | crates/kubeweft-filesystem/src/metadata.rs:68-87 | every edit with fresh identifiers keeps the whole invariant, equal file, manifest and chunk sizes included |
| `MetadataInvariants.RetainedMeansLive` | crates/kubeweft-filesystem/src/metadata.rs:34-65 | in a valid snapshot a content is retained iff a file references it, its retention says exactly that, and then it has a placement, so a pass never misses one |
| `Domain.RetainedContentIds` | crates/kubeweft-filesystem/src/metadata.rs:34-47 | the accumulating loop returns exactly the contents for which the retention query holds |
| `Concurrency.StepKeeps` | crates/kubeweft-filesystem/src/metadata.rs:107-127 | every step of any client keeps the invariant that ties store, history, log and private copies together |
| `Concurrency.Serializable` | crates/kubeweft-filesystem/src/namespace.rs:215-229 | in every interleaving the committed states are the successful operations applied one by one, each once, each to the state before its commit; other calls left no trace, and their answers are those of the state they loaded last or exhausted attempts |
| `Concurrency.ConflictReported` | crates/kubeweft-filesystem/src/namespace.rs:215-229 | a call reports Conflict only if its expected generation differed in the state it loaded last, or all its attempts, one of a write, four of a replica mark, eight of any other edit, loaded ever later states and lost to another call's commit |
| `Concurrency.ConflictMeans` | crates/kubeweft-filesystem/src/service.rs:140-143 | the only edit that itself fails with Conflict is a write whose expected generation differs |
| `Concurrency.CommittedStatesValid` | crates/kubeweft-filesystem/src/metadata.rs:107-127 | every state ever committed in any interleaving satisfies the whole filesystem invariant |
| `Concurrency.HeldIsCommitted` | crates/kubeweft-filesystem/src/metadata.rs:107-127 | a private copy whose revision is current equals the store |
| `Concurrency.GenerationCountsWrites` | crates/kubeweft-filesystem/src/service.rs:125-200 | between two committed states a file's generation rises by exactly the number of its committed writes |
| `Concurrency.OneWritePerGeneration` | crates/kubeweft-filesystem/src/service.rs:125-200 | at most one write commits against a given expected generation of a file, in any run |
| `Concurrency.ReconcilerCommitsOnlyRetained` | crates/kubeweft-filesystem/src/replication.rs:208-244 | a reconciler commit changes only the replica records of one content that is retained in the state it commits onto |
| `Concurrency.RecordsKept` | crates/kubeweft-filesystem/src/replication.rs:304-326 | no edit removes a replica record |
| `Concurrency.RecordsNeverLost` | crates/kubeweft-filesystem/src/replication.rs:304-326 | a replica record committed by anyone is in every later committed state of the run |
| `Namespace.MetadataStore.CompareAndSwap` | crates/kubeweft-filesystem/src/metadata.rs:115-126 | the replacement is installed with the next revision iff its revision is current, otherwise Conflict and no change |
| `Namespace.MetadataClient.Mutate` | crates/kubeweft-filesystem/src/namespace.rs:215-229 | while others keep committing, success installs exactly one snapshot, the edit applied to the snapshot installed last before it; errors of the edit are those of the store's state; exhausted retries mean that others committed in every round; neither leaves a trace |
| `Namespace.ComputeWrite` | crates/kubeweft-filesystem/src/service.rs:125-197 | the in-place write computes the specified edit, guard and retentions included |
| `Namespace.ComputeMove` | crates/kubeweft-filesystem/src/namespace.rs:146-174 | the in-place rename computes the specified edit, the ancestry check included |
| `Namespace.ComputeRemove` | crates/kubeweft-filesystem/src/namespace.rs:176-213 | the in-place remove computes the specified edit |
| `Namespace.ComputeGarbage` | crates/kubeweft-filesystem/src/namespace.rs:186-201 | the marking loop computes the specified retentions |
| `Namespace.List` | crates/kubeweft-filesystem/src/namespace.rs:67-87 | a listing holds exactly the children of the directory, each with its own record, ordered by the first character in which their names differ; both errors |
| `Orders.TextLtMeans` | crates/kubeweft-filesystem/src/namespace.rs:67-87 | the order of names and identifiers is that of the first differing character, a prefix coming first |
| `PlacementPolicy.ComputeDesiredNodes` | crates/kubeweft-filesystem/src/placement.rs:24-60 | the filling loop computes the specified placement |
| `PlacementPolicy.PlacementPromise` | crates/kubeweft-filesystem/src/placement.rs:24-60 | no duplicates, every present replica kept, length bounded, only eligible nodes added and the best ones, short only when candidates run out |
| `PlacementPolicy.PlacementPrefers` | crates/kubeweft-filesystem/src/placement.rs:44-51 | an added node against an eligible one left out: stable before not, then mains power before not, then more free space, then the identifier that comes first |
| `PlacementPolicy.PlacementIgnoresOrder` | crates/kubeweft-filesystem/src/placement.rs:24-60 | the result does not depend on the order of the node list |
| `PlacementPolicy.PlacementSettles` | crates/kubeweft-filesystem/src/placement.rs:24-60 | once exactly the chosen nodes are recorded, placing again chooses the same set of nodes and asks for no other |
| `Content.PutPromise` | crates/kubeweft-filesystem/src/content.rs:50-73 | a stored object verifies and holds the given bytes unless a verifying one was there, other objects are untouched, capacity is respected |
| `Content.PutFails` | crates/kubeweft-filesystem/src/content.rs:50-73 | storing on a node succeeds iff it is registered, online, and has the object already or the room, with the exact error otherwise |
| `Content.ComputeUsed` | crates/kubeweft-filesystem/src/content.rs:50-73 | the summing loop computes the stored size |
| `Content.ContentRegistry.Store` | crates/kubeweft-filesystem/src/content.rs:277-282 | storing on a node has exactly the specified effect and errors |
| `Content.ContentRegistry.SetOnline` | crates/kubeweft-filesystem/src/content.rs:257-266 | only the online flag of one known node changes |
| `Content.ContentRegistry.Delete` | crates/kubeweft-filesystem/src/content.rs:92-99 | only one object of one node disappears |
| `ReplicationProofs.RefreshExact` | crates/kubeweft-filesystem/src/replication.rs:158-244 | a refresh sets every replica state to what is observed and changes no other field |
| `ReplicationProofs.FindSourceGood` | crates/kubeweft-filesystem/src/replication.rs:246-263 | a source is found iff some recorded-healthy replica is online with matching bytes, and it is one |
| `ReplicationProofs.CopyLoopSafe` | crates/kubeweft-filesystem/src/replication.rs:87-133 | copying touches one content only, keeps every good recorded copy and records health only where bytes verify, on success and on error |
| `ReplicationProofs.CopyLoopSettles` | crates/kubeweft-filesystem/src/replication.rs:87-133 | a loop without error leaves every destination recorded or no source |
| `ReplicationProofs.CopyLoopIdle` | crates/kubeweft-filesystem/src/replication.rs:87-133 | a loop over settled destinations changes nothing |
| `ReplicationPass.ContentSafe` | crates/kubeweft-filesystem/src/replication.rs:63-156 | reconciling one content keeps the invariant, other contents and good copies, and makes every claim of health true |
| `ReplicationPass.ContentSettles` | crates/kubeweft-filesystem/src/replication.rs:63-156 | reconciling one content without error settles it |
| `ReplicationPass.SettledIdle` | crates/kubeweft-filesystem/src/replication.rs:63-156 | reconciling a settled content only advances the revision |
| `ReplicationPass.SettledFrame` | crates/kubeweft-filesystem/src/replication.rs:40-61 | reconciling another content does not unsettle this one |
| `ReplicationPass.PassSafe` | crates/kubeweft-filesystem/src/replication.rs:40-61 | the same safety over any list of retained contents, aborted passes included: each content is as it was or every claim of health in it is true |
| `ReplicationTheorems.ReconcileSafe` | crates/kubeweft-filesystem/src/replication.rs:40-156 | a pass, finished or aborted, never destroys a good recorded copy, changes no blob of an unretained content, leaves no false claim of health in a content it touched and keeps the metadata invariant |
| `ReplicationTheorems.ReconcileNeverRevives` | crates/kubeweft-filesystem/src/replication.rs:158-206 | a pass, finished or aborted, never counts a copy that was known bad unless its node is online with matching bytes |
| `ReplicationTheorems.SecondPassIdle` | crates/kubeweft-filesystem/src/replication.rs:40-156 | after an Ok pass, a second one creates nothing, changes no record and no blob and reports the same degraded contents |
| `ReplicationTheorems.ReconcileComplete` | crates/kubeweft-filesystem/src/replication.rs:40-156 | after an Ok pass each retained content meets its count, or is healthy on every online node with room, or has no source; the report is exactly the degraded retained contents |
| `ReplicationTheorems.SettledMeans` | crates/kubeweft-filesystem/src/domain.rs:259-274 | a settled content is not degraded, or saturated, or without source |
| `ReplicationTheorems.PassReports` | crates/kubeweft-filesystem/src/replication.rs:40-61 | the degraded list collected on the way equals the one computed on the final state |
| `ReplicationAnswers.ReconcileAnswer` | crates/kubeweft-filesystem/src/replication.rs:40-156 | a pass stops early only with NoSpace, because an online node named by the policy cannot take a retained content; otherwise it commits once for each content visited and once for each copy it reports |
| `ReplicationAnswers.ContentPlaces` | crates/kubeweft-filesystem/src/replication.rs:63-133 | beside the copies it found present, a pass adds copies only on online nodes whose announced free space is at least the content's size, and never beyond the wanted number, finished or aborted |
| `ReplicationAnswers.ObservationMeans` | crates/kubeweft-filesystem/src/replication.rs:158-206 | a copy is recorded healthy iff it can be read; on a reachable node missing and corrupted say what is there, on an offline node a known-bad state is kept; a read sees the same on every reachable node |
| `ReplicationAnswers.ContentSizeMeans` | crates/kubeweft-filesystem/src/replication.rs:265-281 | the planned size is that of the file with the least identifier that holds the content, or 0 |
| `ReplicationAnswers.DegradedMeans` | crates/kubeweft-filesystem/src/domain.rs:259-274 | a placement is degraded iff fewer of its records are Healthy or Offline than are wanted |
| `Reconciler.Round` | crates/kubeweft-filesystem/src/replication.rs:304-326 | one uncontended load-edit-swap round has the effect of the specified commit |
| `Reconciler.ComputeContentSize` | crates/kubeweft-filesystem/src/replication.rs:265-281 | the search over files returns the specified size |
| `Reconciler.ReplicationReconciler.RefreshReplicaStates` | crates/kubeweft-filesystem/src/replication.rs:158-206 | the observing loop returns the specified states |
| `Reconciler.ReplicationReconciler.FindCopySource` | crates/kubeweft-filesystem/src/replication.rs:246-263 | the search loop returns the specified source |
| `Reconciler.ReplicationReconciler.CopyOne` | crates/kubeweft-filesystem/src/replication.rs:104-124 | delete, put and record in place have the specified effect on stores and metadata |
| `Reconciler.ReplicationReconciler.CopyAll` | crates/kubeweft-filesystem/src/replication.rs:87-133 | the copying loop has the specified effect, count and error |
| `Reconciler.ReplicationReconciler.ReconcileOne` | crates/kubeweft-filesystem/src/replication.rs:63-156 | one content is reconciled as specified |
| `Reconciler.ReplicationReconciler.ReconcilePass` | crates/kubeweft-filesystem/src/replication.rs:40-61 | the imperative pass leaves the world, report and error of the functional one, so every result above is about it |
| `Service.ReadReplicasExact` | crates/kubeweft-filesystem/src/service.rs:254-307 | reading a content succeeds iff some recorded replica verifies, whatever its recorded state, and returns bytes with that id |
| `Service.ReadFrame` | crates/kubeweft-filesystem/src/service.rs:254-336 | a read changes recorded replica states only and keeps the invariant |
| `Service.WriteBacks` | crates/kubeweft-filesystem/src/service.rs:111-217 | a committed write leaves the file on the new content, with a recorded readable copy on the writing node |
| `Service.BackedReads` | crates/kubeweft-filesystem/src/service.rs:254-307 | a file backed by one readable recorded copy reads bytes of its content id |
| `ServiceAnswers.WriteAnswer` | crates/kubeweft-filesystem/src/service.rs:111-217 | a write succeeds iff its path leads to a file, the node can take the object and the expected generation is absent or current, with the exact error otherwise; it answers with the record it leaves: next generation, size and one chunk of the data |
| `ServiceAnswers.AnswerGuardsNext` | crates/kubeweft-filesystem/src/service.rs:140-148 | a write guarded by the generation just answered is never refused as outdated, and succeeds iff its node can take the object |
| `ServiceAnswers.ReadAnswer` | crates/kubeweft-filesystem/src/service.rs:254-307 | the exact answer of a read in every good world: the error of the path, IsDirectory, nothing for a file never written, the bytes of the first recorded copy that verifies, or ContentUnavailable if there is none |
| `Service.EventKeepsGood` | crates/kubeweft-filesystem/src/service.rs:111-307 | every event of a sequential history keeps metadata and registry well formed |
| `Service.EventKeepsBacked` | crates/kubeweft-filesystem/src/service.rs:111-307 | no event that leaves the file and the node's copy alone ends the backing, reconcile passes included |
| `Service.ReachableGood` | crates/kubeweft-filesystem/src/service.rs:111-307 | every world reachable from empty metadata and registry by any events has a rooted tree, exact retention and distinct replicas, so the results for good worlds hold in all of them |
| `Service.ReadAfterWrite` | crates/kubeweft-filesystem/src/service.rs:111-307 | once a write commits, every later read of any path then leading to the file returns bytes with the committed id, through renames, other writes, outages and passes |
| `Races.HeldStep` | crates/kubeweft-filesystem/src/replication.rs:112-124 | after any step of any job, write, read, outage or registration an object is on its node iff the step stored it, or it was there and the step did not take it away |
| `Races.HeldIffMended` | crates/kubeweft-filesystem/src/replication.rs:112-124 | in every interleaving an object that was on its node is there later iff every delete by a copy job and every new registration of the node was followed by a put of it that went through |
| `Races.GoneIsBlamed` | crates/kubeweft-filesystem/src/replication.rs:112-124 | it is gone iff some such move was not followed by a put; a job that made it is between its delete and its put, or its put failed because the node was offline or full |
| `Races.StoredIffMended` | crates/kubeweft-filesystem/src/service.rs:124 | both conditions for what any write stored, counted from its own put |
| `Races.CommittedRecorded` | crates/kubeweft-filesystem/src/service.rs:159-176 | once a write committed, its node is recorded for its content in every later state of every interleaving |
| `Races.ReadOutcome` | crates/kubeweft-filesystem/src/service.rs:268-305 | a read that tries node after node while everything else goes on returns bytes iff one attempt met a copy that verified at that moment, and then bytes of the content; every node it went past it had tried in vain |
| `Races.RacingReadAfterWrite` | crates/kubeweft-filesystem/src/service.rs:111-305 | read after write in every interleaving: a read begun after the commit returns the content, or at the moment it tried the writing node that node was offline or the object had been taken away and not stored again |
| `Races.JobIsCopy` | crates/kubeweft-filesystem/src/replication.rs:112-124 | a copy job that nothing interrupts is the sequential copy, errors included |
| `RaceRuns.Chooses` | crates/kubeweft-filesystem/src/replication.rs:77-105 | with one healthy copy, two wanted and an online node with room, the placement policy names that node and a job may choose it |
| `RaceRuns.CommittedWriteLost` | crates/kubeweft-filesystem/src/replication.rs:112-116 | a run from a first start in which a job, sent by the policy, deletes the object a concurrent write has just recorded, its node is offline for a moment, and the committed write cannot be read |
| `RaceRuns.CommittedWriteSqueezedOut` | crates/kubeweft-filesystem/src/replication.rs:112-116 | the same loss with the writing node online throughout, because another write takes the room |
| `ReadEffects.ReadEffect` | crates/kubeweft-filesystem/src/service.rs:268-305 | the exact effect of a read on every record of every content: of the content read, the records up to the first copy that verifies say what was found; no other record changes |
| `ReadEffects.ReadRevivesIff` | crates/kubeweft-filesystem/src/service.rs:274-287 | a read counts a known-bad copy again unseen iff its file refers to the content, the copy's node is registered and offline, and no earlier copy can be read |
| `ReadEffects.ReadRevivesCorruptedCopy` | crates/kubeweft-filesystem/src/service.rs:279-287 | a history of seven events from a first start after which a copy known to be corrupted counts towards durability while its bytes are still wrong |
| `FilesystemService.FilesystemClient.Write` | crates/kubeweft-filesystem/src/service.rs:111-217 | the imperative write has exactly the specified effect and answer |
| `FilesystemService.FilesystemClient.ReadContent` | crates/kubeweft-filesystem/src/service.rs:272-300 | the replica loop marks and returns as specified |
| `FilesystemService.FilesystemClient.Read` | crates/kubeweft-filesystem/src/service.rs:254-307 | the imperative read has exactly the specified effect and answer |
| `Membership.ClusterStore.Update` | crates/kubeweft-transport/src/store.rs:103-118 | an operation is saved with the revision one higher, at most 2^64 - 1, or, on error, leaves the state as it was |
| `Membership.ClusterStore.Create` | crates/kubeweft-transport/src/agent.rs:460-504 | the store holds the created cluster, or the error and the old state |
| `Membership.ClusterStore.Invite` | crates/kubeweft-transport/src/agent.rs:506-518 | a coordinator's invitation is replaced by the new one and nothing else changes; a member and a device without cluster are refused with no change |
| `Membership.InviteReplaces` | crates/kubeweft-transport/src/agent.rs:506-518 | after a new invitation a newcomer with an unknown request id is accepted with that invitation and with no other |
| `MembershipAnswers.FoundAnswer` | crates/kubeweft-transport/src/agent.rs:460-504 | a cluster is founded iff the device is in none and is joining none, with the exact error otherwise; the founder is its only member and holds its invitation |
| `MembershipAnswers.JoinResumes` | crates/kubeweft-transport/src/agent.rs:542-565 | a begun join is resumed with the same request by the same coordinator and invitation, and any other is a Conflict |
| `MembershipAnswers.AbandonAnswer` | crates/kubeweft-transport/src/agent.rs:587-596 | giving up clears exactly the request that was turned away |
| `MembershipAnswers.FinishAnswer` | crates/kubeweft-transport/src/agent.rs:615-667 | an acceptance is stored iff it is from the invited cluster and coordinator and the device still waits for it, with the exact error otherwise; the record then holds the whole roster and the credential |
| `MembershipAnswers.JoinAnswer` | crates/kubeweft-transport/src/agent.rs:672-735 | in every reached state a join is granted iff it repeats an accepted request of its device or brings a new device, a new request and the current invitation, with the exact error otherwise; the newcomer is appended, the invitation spent, and the answer carries the whole roster |
| `MembershipAnswers.JoinIsComplete` | crates/kubeweft-transport/src/agent.rs:632-667 | a device that stores its acceptance decides every request as the coordinator did when it accepted |
| `MembershipAnswers.RosterAnswer` | crates/kubeweft-transport/src/agent.rs:781-796 | in every reached state a roster is served iff the agent coordinates and the peer is authorized, with the exact error otherwise, and shows every member with the digest of its credential |
| `MembershipAnswers.MemberIsServed` | crates/kubeweft-transport/src/agent.rs:781-796 | the roster request of a member is always granted |
| `MembershipAnswers.RefreshIsComplete` | crates/kubeweft-transport/src/agent.rs:737-779 | a member that caches the answer its coordinator gave in some state, however late, decides every request exactly as the coordinator did in that state |
| `MembershipAnswers.AuthorizeAnswer` | crates/kubeweft-transport/src/agent.rs:857-880 | any record, also one without stored digests, lets in the first entry of the peer's own device whose digest fits, and refuses with Unauthorized iff there is none |
| `Membership.ClusterStore.StartJoin` | crates/kubeweft-transport/src/agent.rs:528-565 | the early answer is given iff the device already belongs where the invitation says; otherwise the pending join is recorded or resumed |
| `Membership.ClusterStore.CompleteJoin` | crates/kubeweft-transport/src/agent.rs:584-669 | a lost answer changes nothing, a refusal clears the same request, an acceptance is stored only if it matches the pending join |
| `Membership.ClusterStore.Accept` | crates/kubeweft-transport/src/agent.rs:672-735 | acceptance, idempotent retry and every refusal have the specified effect and answer |
| `Membership.ClusterStore.Refresh` | crates/kubeweft-transport/src/agent.rs:882-912 | a roster of the own cluster replaces members, name and address, with the own credential beside the own entry only, and keeps role, credential, invitation and joins; any other roster is refused with no change |
| `Membership.FirstJoin` | crates/kubeweft-transport/src/agent.rs:689-693 | finds the first accepted join of a request id, if any |
| `Membership.FirstMatch` | crates/kubeweft-transport/src/agent.rs:866-877 | finds the first member whose device and digest answer the request, if any |
| `MembershipInvariants.CachedShows` | crates/kubeweft-transport/src/agent.rs:882-912 | caching a roster sent by a coordinator shows the same members and digests |
| `MembershipSteps.AcceptMoves` | crates/kubeweft-transport/src/agent.rs:672-735 | accepting, retrying or refusing a request keeps every part of the invariant |
| `MembershipSteps.FinishMoves` | crates/kubeweft-transport/src/agent.rs:615-667 | storing an answer, however late or repeated, keeps every part of the invariant |
| `MembershipSteps.CacheMoves` | crates/kubeweft-transport/src/agent.rs:882-912 | storing a roster, also an old one, keeps every part of the invariant |
| `MembershipSteps.StepKeeps` | crates/kubeweft-transport/src/agent.rs:460-912 | every action of an agent or outsider keeps the invariant and shrinks nothing that only grows |
| `MembershipSteps.Reachable` | crates/kubeweft-transport/src/agent.rs:460-912 | the invariant holds in every state of every run |
| `MembershipTheorems.MemberWasInvited` | crates/kubeweft-transport/src/agent.rs:520-669 | a member's cluster and coordinator are those named by an invitation it asked with |
| `MembershipTheorems.MemberLetInForever` | crates/kubeweft-transport/src/agent.rs:857-880 | a member holds the credential its coordinator recorded, keeps it, and is let in as the same member in that and every later state |
| `MembershipTheorems.CacheIsPrefix` | crates/kubeweft-transport/src/agent.rs:737-796 | a cached roster is a prefix of the coordinator's list, then and later, lists its holder, and names the coordinator's cluster, name and endpoint |
| `MembershipTheorems.CacheDecides` | crates/kubeweft-transport/src/agent.rs:857-912 | whoever a cache lets in the coordinator lets in as the same member; the decisions are equal iff the cache lists the device or the coordinator refuses |
| `MembershipTheorems.MemberKeepsOwnSecret` | crates/kubeweft-transport/src/agent.rs:632-667 | beside a cluster no pending join is left, and a member's record holds no credential but its own, no invitation and no accepted join |
| `MembershipTheorems.OneDevicePerInvite` | crates/kubeweft-transport/src/agent.rs:506-518 | no two accepted joins, of any coordinators, consumed the same invitation |
| `MembershipTheorems.JoinsLineUp` | crates/kubeweft-transport/src/agent.rs:672-735 | invitations, accepted joins and members line up one to one, member and request ids are unique, digests match credentials |
| `MembershipTheorems.RetryGetsSameCredential` | crates/kubeweft-transport/src/agent.rs:689-703 | an accepted request id gets its original credential in every later state and changes nothing; another device is refused |
| `MembershipTheorems.OnlyOriginalRequest` | crates/kubeweft-transport/src/agent.rs:689-714 | a device that is already a member is answered iff it repeats its original request id |
| `MembershipRetries.RefusesWhen` | crates/kubeweft-transport/src/agent.rs:689-707 | exactly when a request is refused for its invitation |
| `MembershipRetries.RefusedUnlessReused` | crates/kubeweft-transport/src/agent.rs:672-735 | a refused request is granted later iff its request id was meanwhile accepted for its device with another invitation |
| `MembershipRetries.ReuseGrantsRefused` | crates/kubeweft-transport/src/agent.rs:689-707 | for every codec, a run in which that happens |
| `MembershipRetries.AgentStaysRefused` | crates/kubeweft-transport/src/agent.rs:542-565 | a refused request of an agent that follows the code is refused forever |
| `MembershipRetries.RetryFinishes` | crates/kubeweft-transport/src/agent.rs:520-669 | after a lost answer or a crash, sending the recorded request again ends in membership |
| `MembershipRetries.CanFinishIff` | crates/kubeweft-transport/src/agent.rs:584-597 | an accepted device can still become a member iff its pending join is the accepted request |
| `MembershipRetries.LockedOut` | crates/kubeweft-transport/src/agent.rs:584-597 | for every codec, a run in which an accepted device gives its request up, after which no continuation makes it a member |
| `MembershipRetries.NeverBack` | crates/kubeweft-transport/src/agent.rs:584-597 | once it gave that request up, no continuation of the run makes it a member of that cluster |
| `MembershipRetries.GenuineInvitePasses` | crates/kubeweft-transport/src/agent.rs:615-622 | an invitation its coordinator created never fails the identity check |
| `MembershipRetries.CoordinatorDecides` | crates/kubeweft-transport/src/agent.rs:857-880 | with an injective digest a coordinator lets in exactly the peers that present the credential recorded for them |
| `Framing.BigEndianRoundTrip` | crates/kubeweft-transport/src/secure.rs:214-236 | the four length bytes decode to the length and hold it most significant byte first |
| `Framing.FrameRoundTrip` | crates/kubeweft-transport/src/secure.rs:214-236 | reading a written frame returns its bytes and leaves the rest of the stream |
| `Framing.FrameExact` | crates/kubeweft-transport/src/secure.rs:223-236 | a frame is read iff the stream starts with its encoding and it is neither empty nor too large; exactly which other streams are invalid and which are cut short |
| `Framing.ForeignFrame` | crates/kubeweft-transport/src/secure.rs:182-193 | a frame that does not open ends the transfer with a channel error, one that opens to nothing or too much with an invalid message |
| `Framing.ChunksCover` | crates/kubeweft-transport/src/secure.rs:163-173 | the chunks concatenate to the payload and none is empty or too large |
| `Framing.ChunkSizes` | crates/kubeweft-transport/src/secure.rs:163-173 | every chunk but the last has 65519 bytes |
| `Framing.SealedFits` | crates/kubeweft-transport/src/secure.rs:16-18 | a sealed chunk fits the 65535-byte message limit of section 3 of the Noise Protocol Framework |
| `Framing.SecureWriter.WriteBinaryFrame` | crates/kubeweft-transport/src/secure.rs:214-221 | the stream grows by exactly the frame |
| `Framing.SecureWriter.WritePayload` | crates/kubeweft-transport/src/secure.rs:163-173 | the writing loop emits the specified encoding of the payload |
| `Framing.SecureReader.Receive` | crates/kubeweft-transport/src/secure.rs:175-196 | the reading loop computes the specified result, stream position and errors |
| `Framing.PayloadRoundTrip` | crates/kubeweft-transport/src/secure.rs:163-196 | reading with the announced size what was written returns exactly the payload and consumes exactly its frames |
| `Framing.TooLargeRefused` | crates/kubeweft-transport/src/secure.rs:175-178 | an announced size is refused as too large iff it is over 256 MiB |
| `Framing.ShortAnnouncement` | crates/kubeweft-transport/src/secure.rs:175-196 | a smaller announced size yields that prefix, with the remaining frames left in the stream, iff it falls on a frame boundary; otherwise an invalid message |
| `Framing.LongAnnouncement` | crates/kubeweft-transport/src/secure.rs:175-196 | a larger announced size goes on reading whatever follows the payload's frames, and fails if nothing follows |
| `Framing.LongIntoNext` | crates/kubeweft-transport/src/secure.rs:175-196 | if a second payload follows, a larger size yields both joined, up to the announced size, with the remaining frames left in the stream, iff it ends on a frame boundary of the second; otherwise an invalid message |

## Left out

- Noise handshake, key generation, sockets, discovery, threads, shutdown and timeouts: input and output.
- `LocalMetadataStore` and `LocalContentStore`: files, locks and JSON behind the same contracts as the in-memory stores modelled here; lock poisoning and I/O errors are left out with them.
- `RemoteContentStore`, peer content adapters and error-code mapping: thin adapters.
- The base64 and JSON form of invitations: an arbitrary codec here.
- Name and endpoint validators: arbitrary predicates here, so what they accept is not stated.
- Presence, command line, desktop bridge, mobile code, protocol and schema files: easy or user interface only.
- Scheduler, planner, policy, capability and agent-core crates: no hard property.
- Timestamps other than a member's join time, write leases and event streams.
- Reconciler.Round: one uncontended round of the retry loop; the loop under interference is Namespace.MetadataClient.Mutate.
- Reconciler.ReplicationReconciler.CopyOne: records through one uncontended round; jobs under interference are the subject of Races.
- Reconciler.ReplicationReconciler.CopyAll: likewise over uncontended rounds.
- Reconciler.ReplicationReconciler.ReconcileOne: the refresh runs one uncontended round; contended refreshes are calls of Concurrency.
- Reconciler.ReplicationReconciler.ReconcilePass: no other client commits during this pass; interference is covered by Concurrency, Races and Namespace.MetadataClient.Mutate.
- Namespace.MetadataClient.Mutate: the replica states a contended refresh observes anew before each retry are covered in Concurrency, not in this loop.
- FilesystemService.FilesystemClient.Write: the single compare-and-swap is uncontended here; a lost race is covered by Namespace.MetadataClient.Mutate, Concurrency and Races.
- FilesystemService.FilesystemClient.ReadContent: each mark is one uncontended round.
- FilesystemService.FilesystemClient.Read: the marking of replicas is uncontended here.
- Races: one store call, one source search and one attempt of a read are single steps, a file has one chunk as every write leaves it, and a reconcile pass is a set of independent refreshes, choices and jobs, not a loop.
- The number of created replicas under concurrent removal: the source counts a copy whose record was not kept.
- The public member listing of `local_members`: a projection of the roster.
