# A verified model of distributed-fs

The system is a distributed file system in the style of GFS: a replicated metadata service, storage nodes that keep
chunks and copy them to each other, and a client that cuts files into chunks and puts them together again. This project
models its hard core in Dafny and proves what it is for: metadata that stays well formed over every log, snapshots that
replace logs, repair that converges, disks that account for every byte and survive crashes, streams that deliver all or
nothing, and files that come back as they went in.

`dafny verify dfyconfig.toml` checks everything.

## How it is organised

| modules | part of the system |
|---|---|
| `Records`, `Metadata`, `MetadataFsm` | the metadata state machine: records, the step function, and the mutable machine that refines it |
| `Structure`, `Effects`, `Replay`, `Slices`, `SliceHeap` | what every log keeps; what every command does; snapshots, restores and determinism; snapshots that share arrays with the live state |
| `Placement`, `RepairChoice`, `Scheduling`, `SchedulerRuns`, `PairRivals`, `Convergence`, `Recovery`, `RepairSchedulers` | choosing nodes, repair jobs, their side tables over every run, convergence to the replication factor, recovery |
| `Withdrawal`, `Evacuation`, `Sweeps`, `SweepLimits`, `NodeWatchers`, `Reconcilers` | taking nodes out of replica lists: deaths, sweeps and reconciliation |
| `DiskPaths`, `DiskStores`, `TempFiles`, `ChunkFiles`, `StorageServers`, `StorageClients`, `Replication`, `RepairQueue` | the data path of a storage node |
| `Doubles`, `Chunker`, `Uploads`, `FileCreation`, `Transfer` | the client, end to end |
| `ReplicaSafety`, `Clusters`, `Logs` | metadata and disks together: the system as steps, the storage nodes that take them, and the log they leave |

The metadata handlers, the scheduler, the watcher, the reconciler, the disk store, the chunk writer and reader and the
stream handlers are classes and methods with loops, as in the system; each is proved against a function or a relation on
values, and the theorems are lemmas about those. A ghost result such as `trail` or `points` records the choices a method
made or the disks a crash could find.

The steps of `ReplicaSafety` that store something are taken by the storage servers themselves: `Clusters.Cluster` runs
`PutChunk` and `ReplicateToSingleNode` on them, and its contracts say which step each call is. The other steps are
commands of the metadata machine (`Logs.SystemFollowsLog`).

SHA-256 is a parameter; it is assumed free of collisions only where a contract says so.

## Findings

- Unknown names reported in a chunk commit are kept, although the comment above `normalizeReplicaNodeIDs` says they are
  dropped (metadata/fsm/fsm.go, lines 633 and 665-668). The model keeps them.
- Servers that scan a registry with two nodes of the same address in different orders diverge
  (`Replay.SharedAddressDiverges`); `Replay.DeterministicIff` says exactly when they cannot.
- While a job holds its chunk-and-target pair, recovery can queue another job of the pair whose report then frees the
  pair, so that the next pass creates a second job (`PairRivals.SecondJobInScene`); `PairRivals.OneJobPerPairIff` says
  exactly when that cannot happen.
- A sweep that declares several nodes dead can order a copy to a node it declares dead a moment later
  (`SweepLimits.SecondDeathSpoilsOrder`); `SweepLimits.SweepRightIff` says for which silent nodes that cannot happen, and
  `Sweeps.OrderRightIff` which orders of a sweep are right.
- Evicting a replica between taking and persisting a snapshot can change the snapshot (`Slices.EvictionLeaksExactly`);
  `Slices.IsolationIff` gives the exact condition over whole runs.
- No command ever sets the size of a chunk record, so repair placement never filters by space (part of `Structure.ChunkOk`).
- A job cannot be moved by recovery to a node with the empty id, because an empty source means "keep the source": when
  that node is the chosen primary the job stays with its dead source (`Recovery.UnnamedPrimaryStrandsJob`).
- A node with the empty id that shares its address with another one can make a reported replica disappear from a chunk
  commit (`Structure.NormalizeExactIff`).
- A replication stream that is closed without a frame marked last is answered without error and leaves its temporary file
  behind; so does a stream that names two chunks in first frames, or ends on an illegal first frame
  (`StorageServers.LeavesNoTempIff`).
- A file of 2^53 + 1 bytes may lose its last byte, because its size is converted to a floating-point number
  (`Doubles.OneByteTooMany`).
- When recording a checksum fails while an indexed chunk is overwritten, accounting and checksum are wrong unless size and
  contents were unchanged (`DiskStores.DiskStore.Rename`, `DiskStores.DiskStore.Write`).
- A colon in a chunk id can make the repair queue drop a different repair (`RepairQueue.KeyCollision`).
- `NewReconciler` refuses a non-positive replication factor, although its comment says it defaults to 3
  (metadata/reconcile/reconciler.go, lines 61-74).

## Model

| member | source | states |
|---|---|---|
| `ReplicaSafety.ReplicasAreReal` | metadata/fsm/fsm.go:613-672 | in every run of uploads, fan-outs, chunk commits, repairs, repair reports, node deaths and evictions from empty disks, every registered node listed as a replica of a chunk serves that chunk, and the bytes of a committed chunk hash to the committed checksum |
| `ReplicaSafety.RunKeepsSafe` | storage/server/storage_handler.go:111-154 | the inductive invariant behind it: disks hold only the chunk's content, every recorded name is a node that holds the chunk or the address of one, every succeeded repair left the chunk on its target |
| `ReplicaSafety.NormalizedBacked` | metadata/fsm/fsm.go:634-672 | resolving reported names to node ids never turns a name that stands for a holder into one that does not |
| `ReplicaSafety.ReportKeeps` | metadata/scheduler/repair_scheduler.go:408-419 | a success report records a replica only where the copy really is |
| `ReplicaSafety.FanOutKeeps` | storage/replication/manager.go:153-216 | copies made for an upload and the addresses it confirms keep the invariant, also when the answer is lost |
| `Logs.SystemFollowsLog` | metadata/fsm/fsm.go:158-286 | over every run of the storage nodes the metadata is what the log of chunk commits, repair reports and proposals makes of it, so every law over logs holds of it |
| `Logs.RepairIsRecorded` | metadata/scheduler/repair_scheduler.go:408-419 | a repair whose copy succeeded can be reported, and then its target holds the chunk and is among the replicas of a known chunk that was to be copied |
| `Clusters.Cluster.Put` | storage/server/storage_handler.go:80-228 | run on the storage nodes, an upload is kept exactly if it is whole, no write fails, there is room and its checksum can be recorded; a kept one is exactly the upload step of the system, and any other changes no disk the system sees |
| `Clusters.Cluster.FanOut` | storage/replication/manager.go:153-301 | run on the storage nodes, a copy for an upload is a fan-out step exactly if all of it gets through to a target with room, and changes nothing otherwise; it is confirmed exactly if its answer gets back too |
| `Clusters.Cluster.Repair` | storage/replication/manager.go:304-369 | run on the storage nodes, carrying out a repair job is a repair step exactly if all of the copy gets through to a target with room, and changes nothing otherwise; it succeeds exactly if the answer gets back too |
| `Clusters.Cluster.FanOutAll` | storage/replication/manager.go:153-216 | a whole fan-out on the storage nodes, with copies that end in any order, some after the deadline, is a run of copy steps; exactly the addresses reached in time are confirmed and noted on the upload, and it succeeds exactly if every copy ended in time and a majority arrived |
| `Clusters.Cluster.StoreChunk` | storage/server/storage_handler.go:80-163 | the upload handler: an upload that is not kept changes nothing; one that is kept is copied around and committed with exactly the node's own id and the addresses reached in time, majority or not, and that command is what the commit step of the system applies to the metadata |
| `Clusters.Cluster.Fetch` | storage/server/storage_handler.go:238-298 | in every safe system, reading a chunk from any registered node listed as its replica succeeds with bytes that hash to the committed checksum |
| `Clusters.Cluster.EmptyMirrorsFresh` | storage/server/storage_handler.go:80-228 | storage nodes that serve nothing are where such a run starts, and that start is safe |
| `Clusters.HalfCommittedFaithful` | storage/store/disk.go:410-439 | with one content per chunk id, a commit whose checksum could not be recorded changes nothing that is served and leaves the store valid |
| `Transfer.UploadThenDownload` | client/internal/service/download.go:54-137 | end-to-end integrity: an upload that succeeds followed, after any other commands, by a download without error yields the input, whatever replicas answer and in whatever order chunks finish |
| `Transfer.Upload` | client/internal/service/upload.go:52-168 | a successful upload leaves the file complete, with its geometry, and every chunk committed under the hash of its slice, for good |
| `Transfer.UploadChunk` | client/internal/service/upload.go:170-194 | one more chunk is committed under the hash of the bytes its descriptor covers, whatever else happens meanwhile; that the node keeps those bytes is the contract of `StorageClients.PutChunk` |
| `FileCreation.CreateFile` | metadata/server/file_handler.go:14-97 | a file is created exactly if it is new, its chunk size is from 64 KB to 64 MB, its chunks can be placed and none of its chunk ids is known; then every chunk sits at its own index and has a good placement; a refusal changes nothing |
| `FileCreation.PlaceChunks` | metadata/server/file_handler.go:43-76 | placement succeeds exactly if there is nothing to place or enough alive nodes have room, and then gives every chunk that many different ones, none ranking behind one left out |
| `Transfer.GetFile` | metadata/server/file_handler.go:99-162 | available exactly for complete files; never misses a chunk; describes each with its 32-bit index, its checksum and, one for each and in the order of the replica list, exactly the non-empty addresses of its registered replicas that are neither dead nor draining |
| `Transfer.Download` | client/internal/service/download.go:54-137 | succeeds exactly if the file is complete and non-empty and each of its chunks has a position and a registered replica, neither dead nor draining, whose address answers with the recorded checksum; then the output is the uploaded data |
| `Transfer.DeleteThenGet` | metadata/server/file_handler.go:99-162 | a deletion is accepted exactly for a known file, changes nothing but that file's status, and the file is not served afterwards |
| `Transfer.DownloadChunkWithFailover` | client/internal/service/download.go:141-180 | succeeds exactly if some replica answers with the recorded checksum and the offset is not negative; otherwise the output is unchanged |
| `Transfer.FetchChunks` | client/internal/service/download.go:80-115 | fetching in any order succeeds exactly if every chunk is fetchable, and then reassembles the file |
| `Transfer.AllFetched` | metadata/server/file_handler.go:141-141 | the cast of the index to 32 bits cannot corrupt a download: with more than 2^31 chunks one index turns negative and the download fails |
| `Transfer.SliceInPlace` | client/internal/service/download.go:168-172 | writing a slice at index times chunk size puts its chunk in place and spoils no other |
| `Transfer.WriteAtExact` | client/internal/service/download.go:168-172 | a write at any offset puts the data there, keeps the rest and fills a gap with zeros |
| `Uploads.UploadedStays` | metadata/fsm/fsm.go:489-627 | no later command takes back the geometry of a created file or the checksum of a committed chunk |
| `Uploads.CreateMakesCreated` | metadata/fsm/fsm.go:489-539 | with a collision-free digest each chunk of a created file sits at its own position |
| `Chunker.GenerateDescriptors` | client/internal/chunker/chunker.go:19-49 | the descriptors are counted by the ceiling of the floating-point quotient, in order, with the right id, offset and size; below 2^53 they tile the file; for chunk sizes that are powers of two they tile it if and only if the size as converted to floating point needs as many chunks as the size itself |
| `Chunker.TilesExactly` | client/internal/chunker/chunker.go:30-47 | every byte of the file lies in exactly one chunk; no chunk is empty, too long or past the end |
| `Chunker.ChunkIDsDistinct` | internal/checksum/checksum.go:19-23 | under a collision-free digest different indices of a file have different chunk ids |
| `Chunker.DecReads` | internal/checksum/checksum.go:19-23 | the index in a chunk id is in decimal: it reads back and has no leading zero |
| `Doubles.CeilingExact` | client/internal/chunker/chunker.go:27-27 | rounding a quotient to nearest never crosses an integer when both operands are below 2^53 |
| `Doubles.PowerOfTwoCeiling` | client/internal/chunker/chunker.go:27-27 | for a divisor that is a power of two the division is exact, so the count is that of the converted size, whatever the size |
| `Doubles.OneByteTooMany` | client/internal/chunker/chunker.go:27-27 | at 2^53 + 1 bytes and chunks of 64 KiB the count may be one too small: 2^53 is a nearest double of the size, and the last byte is in no chunk |
| `Structure.RunKeepsInv` | metadata/fsm/fsm.go:158-286 | over every log: registry keys are record ids, each chunk is owned by the file that lists it last at its index, replica lists are sets, and records only evolve |
| `Structure.EachChunkHasOneFile` | metadata/fsm/fsm.go:489-539 | after every log each chunk is listed by exactly one file, at its recorded index; where ids are distinct that is its only position |
| `Structure.FilesAreWhole` | metadata/fsm/fsm.go:874-892 | after every log no file misses a chunk, no two files share one, and a complete file has only complete or lost chunks |
| `Structure.LifecycleOverLogs` | metadata/fsm/fsm.go:613-627 | over every split of every log a non-empty checksum never changes and no chunk returns to allocated |
| `Structure.InstantsOverLogs` | metadata/fsm/fsm.go:379-476 | over every split of every log no command moves the registration instant or the heartbeat of a known node, and no known repair job is redirected |
| `Structure.StepKeepsInv` | metadata/fsm/fsm.go:158-286 | every command, accepted or rejected, keeps the structure and only evolves records |
| `Structure.NormalizeExact` | metadata/fsm/fsm.go:634-672 | the recorded replica names are exactly the resolutions of the reported ones |
| `Structure.NormalizeExactIff` | metadata/fsm/fsm.go:634-672 | that holds for every report and every scan order if and only if no node with the empty id shares an address that must be looked up |
| `Structure.StubsExact` | metadata/fsm/fsm.go:506-532 | stubs are added for exactly the listed ids, each at its last position |
| `Metadata.Apply` | metadata/fsm/fsm.go:158-286 | every rejected command leaves the state unchanged; what an accepted one does is `Effects.EveryCommandDoes` |
| `Effects.EveryCommandDoes` | metadata/fsm/fsm.go:158-784 | for each of the seventeen commands, in terms of record fields: when it is refused and for which reason, that a refusal changes nothing, what an accepted command sets in the one record it is about, or in the file and the chunks it creates, and that every other record is as it was |
| `Effects.RecordedInOrder` | metadata/fsm/fsm.go:634-672 | the names recorded by a chunk commit are in the order reported: those of a prefix of the report are a prefix |
| `MetadataFsm.MetadataFSM.Apply` | metadata/fsm/fsm.go:158-286 | the mutable machine takes exactly the step of the step function, for some legal outcome of its registry scans, and keeps the structure |
| `MetadataFsm.MetadataFSM.HandleCreateFile` | metadata/fsm/fsm.go:489-539 | two-pass creation: collisions are found before any stub is inserted |
| `MetadataFsm.MetadataFSM.HandleCommitFile` | metadata/fsm/fsm.go:552-588 | a file is committed only when the size matches and every chunk is complete; the first obstacle decides the error |
| `MetadataFsm.MetadataFSM.HandleCommitChunk` | metadata/fsm/fsm.go:613-627 | a chunk is finalised once; a second commit is refused |
| `MetadataFsm.MetadataFSM.NormalizeReplicaNodeIDs` | metadata/fsm/fsm.go:634-672 | the loop with its seen-set computes the normal form for some legal scan order |
| `MetadataFsm.MetadataFSM.HandleEvict` | metadata/fsm/fsm.go:677-701 | removes the first occurrence of the node, or reports that it is no replica |
| `MetadataFsm.MetadataFSM.HandleAddReplica` | metadata/fsm/fsm.go:770-784 | appends the node unless it is already listed |
| `MetadataFsm.MetadataFSM.GetChunkLocations` | metadata/fsm/fsm.go:911-932 | in terms of fields: exactly the registered replicas whose status is not dead, so draining ones too, in replica order |
| `Metadata.LiveInOrder` | metadata/fsm/fsm.go:921-931 | the live replicas are read off the replica list at increasing positions, exactly those of registered nodes that are not dead |
| `MetadataFsm.MetadataFSM.GetChunksByNode` | metadata/fsm/fsm.go:936-947 | exactly the chunks that list the node, each once |
| `MetadataFsm.MetadataFSM.GetLiveNodes` | metadata/fsm/fsm.go:964-975 | exactly the alive nodes, each once |
| `MetadataFsm.MetadataFSM.GetAllNodes` | metadata/fsm/fsm.go:1079-1088 | exactly the registered nodes, each once |
| `MetadataFsm.MetadataFSM.GetJobsByStatus` | metadata/fsm/fsm.go:1016-1027 | exactly the jobs with the status, each once |
| `MetadataFsm.MetadataFSM.UpdateLastSeen` | metadata/fsm/fsm.go:1061-1074 | a heartbeat sets the instant of its node and nothing else; an unknown node is refused |
| `MetadataFsm.MetadataFSM.Restore` | metadata/fsm/fsm.go:326-368 | replaces every registry by the snapshot's; what was persisted from a well-formed state is well formed again |
| `Replay.SnapshotEquivalence` | metadata/fsm/fsm.go:293-368 | for every split of a log, the suffix applied to the restored snapshot of the prefix gives the state of the whole log, record for record and field for field, except for the heartbeat instants |
| `Replay.HistoriesAgree` | metadata/fsm/fsm.go:56-88 | determinism: servers that commit the same commands agree, whatever their map iteration orders, heartbeats and restores, when reported addresses are unambiguous |
| `Replay.RestoreOfPersistAgrees` | metadata/fsm/fsm.go:93-119 | restoring what was persisted gives back every record with every field, node statuses included, except that heartbeat instants are zero |
| `Replay.StepAgrees` | metadata/fsm/fsm.go:158-286 | one command has the same outcome on agreeing servers and leaves them agreeing |
| `Replay.DeterministicIff` | metadata/fsm/fsm.go:634-672 | the next command leaves agreeing servers in agreement, whatever it is and however they scan, if and only if no address that must be looked up belongs to two nodes or no chunk can be committed |
| `Replay.SharedAddressDiverges` | metadata/fsm/fsm.go:650-668 | whenever two nodes share an address that is not a node id, two scan orders make equal servers diverge on the same command |
| `SliceHeap.ChunkRegistry.RunBeforePersist` | metadata/fsm/fsm.go:293-321 | on the heap, over every sequence of commands between snapshot and persist, every copy reads exactly what the array-free run says; a copy whose replicas are not evicted while its array is shared is persisted as it was taken |
| `Slices.IsolationIff` | metadata/fsm/fsm.go:293-321 | a copy reads what it showed at every moment of a run, and whatever replicas are added before it is persisted, if and only if the run never evicts a replica it shows while its array is still shared |
| `Slices.MeaningIsApply` | metadata/fsm/fsm.go:613-784 | what a command is said to mean for a record is what the metadata step does to the record it names, and no command changes another record |
| `SliceHeap.ChunkRegistry.DeepCopy` | internal/utils/deep_copy.go:3-14 | the copy shares every backing array with the live record |
| `SliceHeap.ChunkRegistry.AppendReplica` | metadata/fsm/fsm.go:770-784 | appends into spare capacity of the shared array, or into a larger copy and leaves the shared one alone |
| `SliceHeap.ChunkRegistry.Step` | metadata/fsm/fsm.go:613-784 | each command does to the record exactly what it means without arrays, and touches no other; every copy of a snapshot then reads what the array-free step says |
| `SliceHeap.ChunkRegistry.ShiftLeft` | metadata/fsm/fsm.go:699-699 | splicing shifts the shared array in place and leaves the old last element behind |
| `Slices.EvictionLeaksExactly` | metadata/fsm/fsm.go:699-699 | a snapshot survives one eviction if and only if the evicted position is beyond it or is the last live one |
| `Slices.EvictThenAddLeaksExactly` | metadata/fsm/fsm.go:699-782 | a snapshot survives an eviction followed by an addition if and only if it never saw the evicted replica |
| `Placement.SelectNodes` | metadata/placement/strategy.go:34-43 | succeeds exactly if enough candidates are eligible, and then returns that many of them such that nobody left out ranks strictly ahead; it sorts in place and yet leaves the caller's array alone |
| `Placement.SelectNodeReverse` | metadata/placement/strategy.go:45-54 | the same under the reversed ranking, failures included |
| `Placement.ReverseIsMirror` | metadata/placement/strategy.go:45-54 | what a reverse selection leaves behind is a forward selection of the rest |
| `Placement.FilterNodes` | metadata/placement/strategy.go:78-91 | keeps exactly the nodes not excluded, in order, in a new array |
| `Placement.FilterByMinSpace` | metadata/placement/strategy.go:65-76 | keeps exactly the nodes with enough space, in order; without a demand on space it returns the very array it was given |
| `Placement.LeastLoadedPrimary` | metadata/placement/strategy.go:99-132 | the first least-loaded node |
| `Placement.LeftOutHasLess` | metadata/placement/strategy.go:20-32 | nobody left out of a selection by free space has more of it than anyone selected |
| `Placement.LeftOutIsBusier` | metadata/placement/strategy.go:20-32 | and of those with equal free space nobody left out holds fewer chunks |
| `Placement.MostFreePrimary` | metadata/placement/strategy.go:56-63 | a node than which none has more free space |
| `Convergence.RepairConverges` | metadata/scheduler/repair_scheduler.go:135-221 | one pass over a repairable chunk creates exactly the missing number of jobs with distinct targets; over every run of passes, workers, status updates, recovery, reports and commands that leaves each node live or not as it was and touches the chunk's replicas only through these jobs, once each job was reported successful the chunk has exactly the replication factor of live replicas and any further pass changes nothing |
| `Convergence.FirstSuccess` | metadata/scheduler/repair_scheduler.go:408-419 | the first success of a repair lowers the deficit by exactly one |
| `Convergence.RepeatedSuccess` | metadata/scheduler/repair_scheduler.go:390-420 | reporting a success again changes no metadata |
| `Convergence.RunGrowsLive` | metadata/scheduler/repair_scheduler.go:390-420 | over every such run the live replicas of the chunk are exactly the old ones and the targets of the jobs reported successful |
| `Scheduling.CreateJobsExactly` | metadata/scheduler/repair_scheduler.go:182-220 | with fresh ids, queue space and no held pair exactly one job per target is created, in order, and queued |
| `Scheduling.CreateJobsOnlyAdds` | metadata/scheduler/repair_scheduler.go:182-220 | a pass only adds jobs, for pairs not held, and never overfills the queue |
| `RepairSchedulers.RepairScheduler.ScheduleRepairJobs` | metadata/scheduler/repair_scheduler.go:152-221 | does nothing exactly if the chunk is unknown, nothing is live or candidates are too few; otherwise orders copies from a least-loaded live replica to as many top-ranked candidates as replicas are missing |
| `RepairSchedulers.RepairScheduler.ScheduleRepairForChunk` | metadata/scheduler/repair_scheduler.go:135-146 | a pass over a chunk as it stands, and nothing when it is replicated enough |
| `RepairSchedulers.RepairScheduler.TriggerRepair` | metadata/scheduler/repair_scheduler.go:94-120 | the dead node leaves every replica list that named it and nothing else is withdrawn; each of those chunks gets a pass; every order copies from a live replica to an alive node outside the list |
| `RepairSchedulers.RepairScheduler.ExcludeNode` | metadata/scheduler/repair_scheduler.go:122-130 | drops exactly the entries of one node, keeping order |
| `RepairSchedulers.RepairScheduler.ExecuteJob` | metadata/scheduler/repair_scheduler.go:269-299 | hands a job to its source, remembers its pair and marks it in progress |
| `RepairSchedulers.RepairScheduler.OnJobComplete` | metadata/scheduler/repair_scheduler.go:390-448 | clears the job where the reporting node has pending jobs, records the outcome of a success, and arms a retry exactly for a failure of a chunk still short of replicas |
| `RepairSchedulers.RepairScheduler.ReportRepairResult` | metadata/server/repair_handlers.go:10-31 | the job is recorded done or failed as reported before it is completed, no other job changes, and the report succeeds exactly if the job is known and what it asks of the metadata can be done; an unknown job changes nothing |
| `SchedulerRuns.HandlingIsRun` | metadata/server/repair_handlers.go:10-31 | handling a report is the update of the job to done or failed followed by the report, two events of the runs below |
| `SchedulerRuns.HandledJobs` | metadata/server/repair_handlers.go:10-31 | handling a report sets the status of its job to done or failed, keeps what the job is for and touches no other job |
| `Logs.SchedulerFollowsLog` | metadata/scheduler/repair_scheduler.go:152-299 | over every run of the scheduler the metadata is what the log of its proposals makes of it: an order for each target whose pair is not held, an update for each job executed, a replica added or withdrawn for each success |
| `Logs.WorkedInOrder` | metadata/scheduler/repair_scheduler.go:65-92 | over every run workers execute jobs in the order in which they were queued |
| `Logs.ExecuteDoes` | metadata/scheduler/repair_scheduler.go:269-299 | an executed job is appended to what its source is to do unless it is there, takes its pair, and nothing else in the tables changes |
| `Logs.UnknownIsSkipped` | metadata/scheduler/repair_scheduler.go:269-275 | a job that is not known is taken from the queue and nothing else happens |
| `RepairSchedulers.RepairScheduler.RecoverAndDrain` | metadata/scheduler/repair_scheduler.go:305-373 | after recovery and draining, with workers running at arbitrary moments, every recoverable job is in progress at the source chosen for it, which lists it as pending; that source is a live replica if and only if the old one was or the first least-loaded live replica has a name; jobs neither recoverable nor queued are untouched |
| `RepairSchedulers.RepairScheduler.EnqueueJob` | metadata/scheduler/repair_scheduler.go:491-498 | enqueueing waits for room and loses nothing recovered before |
| `Recovery.DrainedIsRecovered` | metadata/scheduler/repair_scheduler.go:305-373 | once the queue is empty, recovery means handed over to the chosen source |
| `Recovery.WorkKeepsRecovering` | metadata/scheduler/repair_scheduler.go:269-299 | a worker's turn at any moment undoes no recovery |
| `Recovery.UnnamedPrimaryStrandsJob` | metadata/scheduler/repair_scheduler.go:349-371 | the condition is needed: where the only live replica has the empty id, the job stays with the dead node |
| `Evacuation.EvacuationExact` | metadata/scheduler/repair_scheduler.go:94-120 | every legal run of evacuation steps takes the node out of exactly the treated chunks, changes no other membership, and adds only right orders |
| `Withdrawal.PassForAddsRightOrders` | metadata/scheduler/repair_scheduler.go:152-221 | every order a pass adds has a live source in the replica list and an alive target outside it |
| `RepairChoice.TopIsGoodTargets` | metadata/placement/strategy.go:34-43 | a selection among the alive nodes yields distinct candidates, and no candidate left out ranks ahead of one of them |
| `RepairChoice.DrainingIsRepaired` | metadata/scheduler/repair_scheduler.go:135-221 | a chunk whose replicas are all on draining nodes is still copied, from one of them to alive nodes |
| `SchedulerRuns.RunKeepsTables` | metadata/scheduler/repair_scheduler.go:269-299 | over every run pending lists are non-empty and duplicate-free and every job in the pair table is pending somewhere |
| `SchedulerRuns.NoSecondJobWhileHeld` | metadata/scheduler/repair_scheduler.go:185-192 | over every run in which the holder of a pair is not cleared by a report and recovery queues no other job of the pair, no further job is created for the pair |
| `PairRivals.OneJobPerPairIff` | metadata/scheduler/repair_scheduler.go:135-372 | while a job holds its pair and is not cleared by a report, no run whose scheduling events are passes creates a second job for the pair if and only if recovery's list holds no other job of the pair or the replication factor is at most one |
| `PairRivals.RivalBreaksHold` | metadata/scheduler/repair_scheduler.go:305-406 | from every state with such another job, some run of worker turns, its requeueing and report, commands and one pass over the chunk creates a second job although the holder was never cleared |
| `PairRivals.SecondJobInScene` | metadata/scheduler/repair_scheduler.go:135-406 | in a well-formed state with two jobs of one pair in progress the scheduler's own events suffice: the other job is requeued, executed and reported, and the next pass over the chunk at a replication factor of two creates a second job |
| `SchedulerRuns.ExecutingHolds` | metadata/scheduler/repair_scheduler.go:269-282 | executing a job makes it the holder of its pair when no other job of the pair is queued |
| `SchedulerRuns.ClearKeepsTables` | metadata/scheduler/repair_scheduler.go:390-406 | clearing a reported job keeps the tables consistent |
| `SchedulerRuns.ReportClearsExactly` | metadata/scheduler/repair_scheduler.go:390-406 | a report takes exactly the reported job out of the node's pending list and out of the pair table, and nothing else |
| `SchedulerRuns.RemoveJobExact` | metadata/scheduler/repair_scheduler.go:509-516 | removal drops exactly the one job |
| `NodeWatchers.NodeWatcher.Sweep` | metadata/watcher/node_watcher.go:103-146 | a follower does nothing; on the leader exactly the alive nodes not heard from for longer than the timeout are declared dead and evacuated, one after the other; if at most one node is silent beforehand, every order created has a live source and an alive target outside the replica list |
| `Sweeps.HeartbeatCounts` | metadata/watcher/node_watcher.go:97-146 | a heartbeat keeps its node, and no other, from being declared dead for as long as the timeout |
| `Sweeps.SweepExact` | metadata/watcher/node_watcher.go:103-146 | after every sweep exactly the swept nodes are newly dead and in no replica list, every other node and membership is unchanged, and every order is right unless one of its ends was swept too |
| `Sweeps.OrderRightIff` | metadata/watcher/node_watcher.go:112-145 | an order created in a sweep has a live source and an alive target at the end if and only if neither of them was silent |
| `SweepLimits.SweepRightIff` | metadata/watcher/node_watcher.go:112-145 | for a set of silent nodes known before the sweep: every sweep of every state with exactly these silent nodes leaves only right orders if and only if there is at most one of them or the replication factor is at most one |
| `Sweeps.FewSilentOrdersRight` | metadata/watcher/node_watcher.go:112-145 | with at most one silent node, or a replication factor of at most one, every order a sweep creates is right |
| `SweepLimits.SecondDeathSpoilsOrder` | metadata/watcher/node_watcher.go:112-145 | for any two or more silent nodes and any replication factor above one there is a well-formed state and a legal sweep of exactly these nodes that ends with an order to a dead node |
| `Reconcilers.Reconciler.ReconcileNode` | metadata/reconcile/reconciler.go:137-179 | membership afterwards is membership before and reported; nothing else changes; DeleteChunk goes to the node's address for exactly the reported chunks that do not list it; repair is requested for exactly the missing chunks with too few other live replicas; an unknown node aborts |
| `Reconcilers.ReconciliationExact` | metadata/reconcile/reconciler.go:170-176 | every run of missing-replica steps withdraws the node from exactly the treated chunks |
| `Reconcilers.SameAnswer` | metadata/reconcile/reconciler.go:220-236 | the count of other live replicas is the same whether or not the eviction has been applied |
| `Reconcilers.SurvivingInventoryIsExpected` | metadata/reconcile/reconciler.go:137-179 | what survives on the node is exactly what is expected of it, so reconciling again finds nothing stale and nothing missing |
| `Reconcilers.Reconciler.HandleMissingReplica` | metadata/reconcile/reconciler.go:206-246 | the replica is evicted, and a pass follows exactly if too few others are live |
| `Reconcilers.Reconciler.EvictStaleReplicas` | metadata/reconcile/reconciler.go:162-168 | stale entries change no metadata and are deleted in reported order, repetitions included |
| `DiskStores.DiskStore.Rename` | storage/store/disk.go:349-455 | kept exactly if the id is legal, the source exists, the new total fits and the index accepts it; used space stays the exact total; a failed index write serves the new bytes where the chunk was indexed, and keeps accounting and checksums right if and only if size and checksum were unchanged or the chunk was not indexed |
| `DiskStores.DiskStore.Write` | storage/store/disk.go:254-337 | the same for a whole value; a write that fails leaves the file as it was or with a first part of the value, with the same exact condition for the store to stay valid |
| `DiskStores.DiskStore.Delete` | storage/store/disk.go:179-232 | removes exactly the chunk and its size from the accounting, even when the index entry cannot be removed; the clamp at zero is never taken |
| `DiskStores.DiskStore.HasRoom` | storage/store/disk.go:286-294 | the wrap-free space check passes exactly when the new total stays within the limit |
| `DiskStores.CrashPointsIntact` | storage/store/disk.go:361-439 | stopping a commit after any step leaves every indexed chunk with a matching file if and only if the id was not indexed or has the same checksum |
| `DiskStores.AfterRemoval` | storage/store/disk.go:179-232 | removing a file leaves the other chunks sound and their total exact, entry kept or not |
| `DiskStores.DiskStore.Verify` | storage/store/disk.go:485-511 | on any store it succeeds exactly for served chunks whose bytes have the recorded checksum, and reports a mismatch exactly for the others it serves |
| `DiskStores.DiskStore.Read` | storage/store/disk.go:458-482 | exactly the stored bytes, with the error that fits otherwise |
| `DiskStores.DiskStore.Exists` | storage/store/disk.go:240-247 | exactly legal ids with an index entry |
| `DiskStores.DiskStore.FreeSpace` | storage/store/disk.go:546-553 | the total space minus the size of the chunks served |
| `DiskStores.DiskStore.ValidateChunkId` | storage/store/disk.go:162-174 | exactly the ids that are non-empty, long enough and cannot leave their directory |
| `DiskStores.DiskStore.PathForChunk` | storage/store/disk.go:529-543 | the path of every legal id and of no other |
| `DiskPaths.PathsDistinct` | storage/store/disk.go:529-543 | different chunks live in different files |
| `DiskPaths.TempIsNoChunkPath` | storage/store/disk.go:515-520 | a temporary file is never a chunk file |
| `DiskPaths.GetDirForChunkId` | storage/store/disk.go:565-582 | the builder loop yields one two-character directory per level, and refuses ids that are too short |
| `DiskPaths.ShardLevel` | storage/store/disk.go:565-582 | each level is named by its own two characters of the id |
| `DiskPaths.StaysBelowRoot` | storage/store/disk.go:155-176 | the path of a valid id stays below the root: every directory in it and the file name is a single name and none is the parent directory |
| `StorageClients.PutThenGet` | client/internal/storageclient/grpc.go:69-136 | round trip: for any data and frame size, what was put is what is got, whenever the id is legal, the checksum right and there is room |
| `StorageClients.FrameChunk` | client/internal/storageclient/grpc.go:69-104 | the framing loop sends the data cut up, or one empty frame marked last |
| `StorageClients.UploadFramesExact` | client/internal/storageclient/grpc.go:69-104 | the frames carry exactly the data, all for one chunk; exactly the final one is marked last, and all others are full |
| `StorageClients.Reassemble` | client/internal/storageclient/grpc.go:124-136 | the reassembly loop is concatenation |
| `StorageServers.StorageServer.PutChunk` | storage/server/storage_handler.go:80-228 | an upload is kept exactly if it was closed after a frame marked last, is for one legal id under the right checksum, no write failed, there is room and its checksum is recorded; every other upload changes nothing, except a whole one whose checksum could not be recorded, which leaves what `Rename` says; it is refused as an invalid argument exactly if the first frame not accepted is for another chunk or an accepted stream was closed before a frame marked last; no temporary file stays and no other is touched |
| `StorageServers.StorageServer.GetChunk` | storage/server/storage_handler.go:238-298 | sends exactly the frames of a served chunk |
| `StorageServers.TakePutsExact` | storage/server/storage_handler.go:174-226 | the receiver collects exactly the payload of streams for one legal chunk id |
| `StorageServers.StorageServer.ReplicateChunk` | storage/server/replication_handler.go:50-151 | commits exactly what was collected since the latest first frame when the first frame marked last arrives, and nothing otherwise; is answered without error and without a commit exactly on a clean close while collecting; is refused as an invalid argument exactly if the frame it is given up at is wrong where it stands or no frame came; creates a temporary file for every legal first frame it looks at and removes exactly that of the current writer when a frame fails, on a commit and when the stream breaks |
| `StorageServers.CollectsExactly` | storage/server/replication_handler.go:58-120 | for every stream: a receiver is collecting exactly if a first frame opened the stream, every first frame named a legal id and the frames after it named that id or none; it then holds the payload since the last first frame, under its id |
| `StorageServers.CommitsIff` | storage/server/replication_handler.go:58-141 | whether a stream commits is decided by its first frame marked last; a failure before it is final |
| `StorageServers.LeavesNoTempIff` | storage/server/replication_handler.go:58-141 | a stream leaves no temporary file behind if and only if it started none, or all its first frames name one chunk and it ends neither by a clean close without a frame marked last nor on an illegal first frame |
| `StorageServers.CleanCloseLeavesTemp` | storage/server/replication_handler.go:60-71 | one first frame and a clean close leave the temporary file |
| `ChunkFiles.FramesExact` | storage/chunk/reader.go:107-143 | frames lose nothing, are non-empty and within the size, carry their own checksum, and exactly the final one is marked last |
| `ChunkFiles.ChunkReader.Next` | storage/chunk/reader.go:107-143 | the one-byte lookahead returns the next frame and gives the byte back |
| `ChunkFiles.ChunkWriter.Write` | storage/chunk/writer.go:73-97 | the temporary file holds exactly what was hashed; a closed writer refuses |
| `ChunkFiles.ChunkWriter.Finalize` | storage/chunk/writer.go:102-137 | commits exactly if the checksum matches, the writer is open and the store accepts; a wrong checksum or a lack of room changes nothing; the temporary file is gone in every case |
| `ChunkFiles.ChunkWriter.Abort` | storage/chunk/writer.go:146-151 | removes the temporary file and nothing the store serves |
| `Replication.ReplicateToSingleNode` | storage/replication/manager.go:220-301 | succeeds exactly if the source has the chunk and it is not empty, all frames get through, the target takes them and has room, the checksum is recorded and the answer gets back; the target then serves the source's bytes, and otherwise is unchanged, has the same bytes when only the answer was lost, or has a half commit when the checksum could not be recorded |
| `Replication.CopyCommits` | storage/replication/manager.go:246-284 | a copy commits exactly if all of its frames arrive, and then it commits the data |
| `Replication.CollectAnswers` | storage/replication/manager.go:153-216 | an address is confirmed if and only if some answer from it succeeded; there are as many as successes, in the order they came in; success needs every answer and more than half of them successful |
| `RepairQueue.RunKeepsExact` | storage/replication/manager.go:98-127 | under every interleaving of enqueuers and workers the table is exactly the disjoint union of the keys held between insert and send, in the queue and by workers |
| `RepairQueue.NoPairTwice` | storage/replication/manager.go:304-369 | no chunk-and-target pair is queued twice, queued while copied, or copied by two workers |
| `RepairQueue.FirstInFirstOut` | storage/replication/manager.go:112-118 | over every run, what was picked followed by what is queued is what was queued followed by what entered, where a job enters exactly if fewer than 256 are queued when it is sent |
| `RepairQueue.PickedInTurn` | storage/replication/manager.go:304-326 | a queued job goes to a worker on exactly the pick that its position says, and until then a free worker can always pick |
| `RepairQueue.NothingLost` | storage/replication/manager.go:98-127 | over every run every job taken on is waiting, queued, being copied, given up or finished, exactly once |
| `RepairQueue.SentIff` | storage/replication/manager.go:112-127 | in every reachable state a sent job is queued if fewer than 256 are, and refused if exactly 256 are |
| `RepairQueue.RefusedWhenFull` | storage/replication/manager.go:119-126 | every refused job was sent at a moment at which the queue was full |
| `RepairQueue.TakenUnlessHeld` | storage/replication/manager.go:100-110 | in every reachable state an arriving job is taken on exactly if no job held has its key |
| `RepairQueue.CanReturn` | storage/replication/manager.go:363-366 | once a job is finished or given up, no job held has its key and its pair can arrive again |
| `RepairQueue.OnlyDuplicatesDropped` | storage/replication/manager.go:98-110 | for chunk ids without colons an arrival is dropped only if its very pair is held |
| `RepairQueue.KeyCollision` | storage/replication/manager.go:99-99 | two pairs share a key if and only if one chunk id continues the other with a colon |
| `RepairQueue.ColonConfuses` | storage/replication/manager.go:99-99 | a colon in a chunk id lets the table take two different repairs for one |

## Left out

- Raft, gRPC transport, the embedded index database, protobuf and JSON encoding: a committed log, ordered streams, a map-like index and identity encoding (apart from the unserialised heartbeat instant) stand for them.
- Configuration, logging, command line, containers, connection pools, leader cache, retry policies and delays, manifests and progress callbacks: plumbing that would only add easy members.
- Reconciliation timers: wall-clock behaviour; the model starts from a call that reconciles a node.
- The over-replication branch of the scheduler: no caller reaches it with a non-positive deficit.
- The clock, generated job ids, file-system failures, answers of other nodes and the order in which maps are scanned or goroutines finish: parameters or arbitrary choices of the model. A scheduling pass and a sweep read the clock once.
- Proposals are applied before the call that makes them returns; a proposal that is lost is not modelled.
- The library sort of the placement strategies is replaced by an insertion sort in place with the same contract.
- Transfer.Download: looks a file up by id; resolving a name to an id, and sorting the chunks before they are fetched, are not modelled.
- Transfer.UploadChunk: whether the storage node keeps the chunk is an arbitrary choice here; what a kept upload leaves on the node is proved of StorageClients.PutChunk and Clusters.Cluster.Put.
- FileCreation.CreateFile: the file id is the client's; that the server makes one up for an empty id is not modelled.
- Chunker.GenerateDescriptors: offsets are unbounded integers, so the wrap-around of 64-bit products for sizes near 2^63 is not modelled.
- Disk accounting across a restart on a non-empty directory: the counter starts at zero there.
- Two writers on the same chunk id, which share one temporary path; short reads on regular files; a split level of 2^15 or more, where the doubled level wraps.
- File deletion is not terminal: a later commit of the file makes it complete again, so no such claim is made.
- Upper bounds on the number of replicas or of active jobs per pair across separate scheduling passes: passes may overlap, so no such claim is made.
- MetadataFsm: registries are map fields holding values; that records are shared through pointers is modelled only where it matters, in SliceHeap.
- RepairQueue.RunKeepsExact: the enqueue and worker code is modelled as atomic steps over the shared table rather than as methods, because their interleaving is the point.
- ReplicaSafety.ReplicasAreReal: assumes one content per chunk id, unique and stable node addresses that are not node ids, and no deletion of stored chunks.
- RepairSchedulers.RepairScheduler.ScheduleRepairJobs: targets are chosen by most free space and the source by least load, the strategies configured by default.
- DiskStores.DiskStore.Rename: the source must not be a chunk file, which holds for the temporary paths its caller passes.
- PairRivals.OneJobPerPairIff: recovery's list is any set of known jobs; that its jobs were in progress when it was read is not used. The failing half may use any command of the log to bring about the pass; SecondJobInScene needs none.
- Clusters.Cluster.FanOutAll: each copy is one attempt; earlier attempts of a retried copy are copy steps of their own. The limit on concurrent streams is not modelled.
- The delivery of executed jobs on heartbeats, and the choice of the tenth heartbeat for a space update: would only add easy members.
- Transfer.Upload: a chunk upload that is retried is modelled as its last attempt; commits by earlier attempts count among the other commands.
