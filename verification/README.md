# A verified model of the 0-OS node daemons

This project models, in Dafny, the parts of the 0-OS (zos) node daemons that keep state and take
decisions about capacity, and proves what they promise over all inputs and all runs:

- the provision engine with its reservation cache and capacity counters (`Primitives`, `Counters`,
  `CapacityUnits`, `AtomicCounter`, `NodeMemory`, `Engine`, `ReservationCache`, `ProvisionEngine`), with
  conservation of capacity, memory admission, restart, single deployment and the undoing of a deployment
  (`Conservation`, `EngineRuns`, `FaithfulRuns`, `MemoryAdmission`, `DeployedMemory`, `DeployOnce`,
  `EngineRoundTrip`, `EngineGaps`);
- the reservation sources as a protocol of concurrent processes (`Sources`, `Poller`);
- the storage allocator: pools, volumes, quotas, 0-db namespaces (`Storage`, `StorageSizes`,
  `StorageInvariants`, `StorageQuotas`, `StorageCreation`, `StorageRelease`, `StorageRuns`, `Lookups`, `Zdb`,
  `ZdbAllocation`, `ZdbChoice`, `StorageModule`), the header of a 0-db namespace (`NamespaceHeader`), and the
  making of pools from free disks (`Devices`, `DeviceRanking`);
- the monitor of virtual machines (`VmMonitor`, `VmLifetime`), the parser of `dmidecode` output (`Dmi`,
  `DmiLines`, `DmiRoundTrip`, `DmiHandles`), the copying of an upgrade over a file system with directories and links
  (`FileSystem`, `UpgradeCopy`, `UpgradeSteps`, `UpgradeExact`, `UpgradeSafety`, `UpgradeGaps`) and the
  allocator of ports (`Ports`).

## How it is built

What the source does step by step is a class or a method with loops, proved equal to a function on
values; the theorems are about those functions and about runs of them. A run is a sequence of steps,
and `Run` applies them one after another. Everything outside the daemon, such as whether a provisioner
succeeds, whether a disk can be listed or where a download breaks off, is a parameter of the step
(`Env`, `Io`, `Faults`), so a theorem over all steps covers every failure. Sixty-four bit arithmetic wraps
where the source's does (`U64`).

## What turned out false

Each of these has a lemma at a concrete input or run and one with the exact condition under which the
code is right; where the exact condition is one of a single operation, what is known of whole runs is said
with it.

- Rebuilding the counters after a restart skips cached reservations that are expired or not in the ok
  state, and decommissioning one of them later subtracts its weight all the same
  (`RestartForgetsExpired`, `RestartAgrees`, `ExpiredAcrossRestart`).
- It also stops at the first reservation that does not decode, and the daemon goes on with what was counted
  by then (`RestartStopsAtUndecodable`, `RestartAgreesOn`, `Sync`).
- The memory check bounds what is cached. A workload that is deployed but cannot be cached is not counted,
  and the next one is admitted as if it were not there (`UncachedExceedBudget`, `NextHostedIff`,
  `AdmissionFitsIff`).
- A migration onto an id that is already cached loses the old reservation and keeps its weight
  (`MigrationOntoCachedIdLeaks`, `MigrateConserves`); a decommission whose data differ from what was
  counted changes a counter by the wrong amount (`DecommissionOfOtherData`, `DecommissionConserves`).
- A workload whose cached copy cannot be read is deployed again (`DeployedASecondTime`,
  `DeployedAgainIffUnreadable`).
- Below 2 GiB of memory the reserve exceeds the total and the subtraction wraps
  (`ReserveFitsIffTwoGib`, `TotalWrapsBelowTwoGib`); the memory that can be used is zero there nevertheless
  (`UsableStaysInBudget`).
- The engine blocks itself for good when it has to ask for a clean-up while two are waiting, as when it
  handles a job across two midnights with the marker behind it (`TwoMidnightsBlock`, `StuckIff`,
  `StuckForever`).
- A poll that fails with a last id other than zero would lose workloads for good, unless a later poll
  moves the cursor back, and the janitor would run without them (`JanitorRunsWithoutSkipped`,
  `SkippedStaysUnsent`, `ResetRecovers`); the poller in use never does that (`PollIsPollerStep`).
- The check that a new volume fits its pool wraps for sizes close to 2^64, and then more quota is
  promised than the pool has (`WrapOvercommits`, `OvercommitIffWrap`). Where volumes without a quota fill what
  lies between the pool and 2^64 bytes, a check that wraps can also be harmless (`WrapCanBeHarmless`).
- A header with a name or password of more than 255 bytes is not read back (`RoundTripIffShort`).
- The limit on new pools is applied to each type of disk, not to the node (`LimitExceeded`,
  `LimitHoldsIff`).
- A free device that the listing shows below two disks is made into two pools (`SharedDeviceInTwoPools`,
  `NewPoolsSeparateIff`).
- An allocation that fails while it writes the header leaves a namespace behind, and the next request for it
  is told that it is allocated although nothing is reserved (`BegunIsReportedAllocated`,
  `FailedAllocationIsFoundIff`).
- A release that has a file where the disk has a directory loses what is in the directory; one that has a
  directory where the disk has a link overwrites files elsewhere; a link that lies on the way to itself is
  moved aside and cannot be moved back; and a link is put in place without a backup (`ReleaseLosesContent`,
  `ReleaseOverwritesElsewhere`, `LinkOnItsOwnWayIsLost`, `LinkLosesFile`). For one copy to any destination,
  also one behind links, the exact conditions are those of `FileIsOldOrNewIff` and `LinkIsOldOrNewIff`, and
  for a file behind links `FileBehindLinksKeptIff`. For a whole release `Compatible`, the hypothesis of
  `UpgradeIsSafe`, is enough; that it is necessary is not claimed.
- A port allocator that reused a port in the middle of its range can refuse a reservation while a port
  is free, for as long as only lower ports are released (`StarvedAfterReuse`, `MissesFreePortIff`,
  `StarvesForever`).

Where the documentation and the code differ the model follows the code: `Run` of a machine shadows the
error of `waitAndAdjOom`, so that its deferred `Delete` does not take place; a failed probe leaves the
pool it mounted mounted; and when the result of a provisioning cannot be built the engine goes on with a
missing result, which the model calls `Crashed`.

## Model

| member | source | states |
|---|---|---|
| Primitives.SameWorkloadSameContribution | pkg/provision/primitives/counters.go:233-391 | two reservations of the same type and data weigh the same on every counter, whatever else differs; what they weigh is in the rows of `CapacityUnits` |
| CapacityUnits.VolumeAdds | pkg/provision/primitives/counters.go:233-248 | a volume of n GiB counts as one volume and adds n times 2^30 to SRU on SSD, to HRU on HDD, modulo 2^64, and nothing to the other units |
| CapacityUnits.ZdbAdds | pkg/provision/primitives/counters.go:267-284 | the same for a 0-db |
| CapacityUnits.ContainerAdds | pkg/provision/primitives/counters.go:250-265 | a container adds its processors, its memory times 2^20 and its disk times 2^20 on its type of disk |
| CapacityUnits.CatalogueMachineAdds | pkg/provision/primitives/counters.go:286-391 | for each size from 1 to 18, processors, memory with a twentieth on top but at most 2^30, and disk, in numbers; any other size adds nothing |
| CapacityUnits.CustomMachineAdds | pkg/provision/primitives/counters.go:302-310 | the same for a custom size, below the wrap |
| CapacityUnits.OthersAddNothing | pkg/provision/primitives/counters.go:103-144 | networks are counted, other types are not, and neither adds units |
| CapacityUnits.UndecodableAddsNoUnits | pkg/provision/primitives/counters.go:103-144 | a document fails exactly when the decoder of its type rejects it; it is then counted as a workload and adds no units |
| CapacityUnits.CountersMoveBy | pkg/provision/primitives/counters.go:27-55 | each counter rises by that modulo 2^64, and falls by it down to zero |
| Counters.IncreasedAt | pkg/provision/primitives/counters.go:103-144 | adding a reservation raises each of the ten counters by exactly its contribution, modulo 2^64; one that does not decode counts as a workload but contributes no units |
| Counters.DecreasedAt | pkg/provision/primitives/counters.go:147-188 | removing a reservation lowers each counter by exactly its contribution, stopping at zero |
| Counters.Counters.Increment | pkg/provision/primitives/counters.go:103-144 | fails exactly on reservations that do not decode; the new readings are those of the value-level update, the workload count being raised before the failure |
| Counters.Counters.Decrement | pkg/provision/primitives/counters.go:147-188 | the same for removal |
| Counters.Counters.CheckMemoryRequirements | pkg/provision/primitives/counters.go:199-231 | accepts exactly the reservations whose memory decodes and fits the usable memory |
| AtomicCounter.Linearizable | pkg/provision/primitives/counters.go:27-55 | after any interleaving of atomic additions and load/compare-and-swap loops, the completed calls are a sequential run of addition and truncated subtraction with the same results, ending in the current value |
| AtomicCounter.RealTimeOrder | pkg/provision/primitives/counters.go:27-55 | in that run a call that had returned before another began comes first |
| AtomicCounter.RetryMeansProgress | pkg/provision/primitives/counters.go:33-50 | a compare-and-swap fails only if another call has completed since the load |
| NodeMemory.ReserveInGib | pkg/provision/engine.go:82-121 | the reserve is the larger of 2 GiB and a tenth of the memory, rounded up to whole GiB |
| NodeMemory.ReserveFitsIffTwoGib | pkg/provision/engine.go:82-121 | the reserve fits the rounded total exactly on nodes of at least 2 GiB |
| NodeMemory.TotalWrapsBelowTwoGib | pkg/provision/engine.go:125-155 | on smaller nodes the computed total wraps to just below 2^64 |
| NodeMemory.UsableStaysInBudget | pkg/provision/engine.go:125-155 | memory accepted against the usable memory keeps the counter within the rounded total minus the reserve, whatever the kernel reports as available up to the total |
| NodeMemory.UsableIff | pkg/provision/engine.go:125-155 | with a counter within the budget a request passes if and only if it keeps it there and the available memory exceeds the reserve by as much |
| Conservation.DecommissionConserves | pkg/provision/engine.go:379-436 | on every exit a decommission keeps a counter equal to its sum over the cache if and only if it subtracts what had been added |
| Conservation.MigrateConserves | pkg/provision/engine.go:610-649 | on every exit a migration keeps a counter equal to its sum over the cache if and only if old and new reservation weigh the same and the new id can be added |
| Conservation.MigrateSwapsOrKeeps | pkg/provision/engine.go:610-649 | a migration never touches the counters, and lets the provisioning go on only with the state unchanged or with the new id cached |
| Conservation.ProvisionNewConserves | pkg/provision/engine.go:267-346 | deploying a new workload keeps every counter but that of networks equal to its sum, on every exit |
| Conservation.ProvisionConserves | pkg/provision/engine.go:256-346 | a whole provisioning keeps the counter if and only if the reservation is invalid or its migration is sound |
| Conservation.HandleConserves | pkg/provision/engine.go:158-254 | one job of the engine loop, provision or decommission, keeps a counter equal to its sum if and only if it subtracts or replaces what had been added |
| Conservation.DecommissionCachedConserves | pkg/provision/engine.go:452-479 | decommissioning from the cache always keeps every counter equal to its sum |
| Conservation.HandleKeepsKeys | pkg/provision/engine.go:256-436 | every job leaves each reservation cached under its own id |
| EngineRoundTrip.NewIsHosted | pkg/provision/engine.go:256-346 | a valid new workload, when everything works, runs, is cached as ok with its user, type and data, so that a restart counts it, raises each counter by its weight, and changes nothing else |
| EngineRoundTrip.DecommissionUndoesProvision | pkg/provision/engine.go:256-479 | deploying and then decommissioning by id gives back cache and running workloads, and each counter if and only if the addition did not wrap |
| EngineRoundTrip.DeletionUndoesProvision | pkg/provision/engine.go:190-436 | the same when the explorer asks for the deletion or the reservation expires |
| EngineRoundTrip.NewIsCachedIff | pkg/provision/engine.go:256-377 | whatever fails, a new workload runs if and only if its type is known, the memory fits and it deploys; it is cached if and only if its result can be encoded and written as well; what is not cached is not counted |
| EngineRoundTrip.InvalidIsRefused | pkg/provision/engine.go:256-260 | a reservation without duration or creation time changes nothing |
| EngineRoundTrip.DecommissionCachedIff | pkg/provision/engine.go:452-479 | a decommission by id is reported done if and only if the cached copy can be read and the reply sent, and takes the reservation out if and only if it is not in the error state and every command on the way works |
| EngineRoundTrip.DecommissionDoneIff | pkg/provision/engine.go:379-436 | a decommission is reported done if and only if the cache can be examined and, unless there is nothing to end, undeploying, removing and marking it deleted all work |
| EngineRoundTrip.CachedIsLeftAlone | pkg/provision/engine.go:267-283 | a job for a reservation that is cached and can be read changes nothing |
| EngineRoundTrip.MigrationMovesWorkload | pkg/provision/engine.go:610-649 | a migration puts the new reservation in the place of the old one, leaves the workload running under the new id, and changes no counter |
| EngineRoundTrip.MigrationOfOtherDataIsRefused | pkg/provision/engine.go:621-627 | other data refuse it with nothing changed |
| EngineRoundTrip.RepeatedJobIsIgnored | pkg/provision/engine.go:190-254 | a job handled once is ignored while its id is remembered |
| EngineRoundTrip.NetworkIsCountedIff | pkg/provision/engine.go:324-346 | a new network resource raises the network count by one if and only if no cached reservation of the older type is of the same network |
| EngineRoundTrip.UncheckedNetworkFails | pkg/provision/engine.go:324-336 | one whose network cannot be decoded or looked up is cached and not counted, and the job fails |
| ReservationCache.Fs.Add | pkg/provision/primitives/cache/cache.go:161-197 | succeeds exactly for ids that are not cached and can be written, and then adds that entry only |
| ReservationCache.Fs.Remove | pkg/provision/primitives/cache/cache.go:200-213 | removes that entry only; an absent id is no error |
| ReservationCache.Fs.RemoveAllButPersistent | pkg/provision/primitives/cache/cache.go:113-150 | fails exactly when a file that is not empty cannot be read; otherwise it leaves exactly the volumes whose files are not empty, and it never removes one of those |
| ReservationCache.Fs.ListReadable | pkg/provision/primitives/cache/cache.go:313-336 | listing succeeds exactly when every file can be read |
| ReservationCache.Fs.Sync | pkg/provision/primitives/cache/cache.go:313-380 | succeeds exactly when every file can be read and every counted entry decodes; then each counter has grown by the sum over the entries that are ok and not expired, and the network counter by the number of distinct network ids among them; when it stops, the counters have grown by the sum over the part it has counted and the network counter not at all |
| ReservationCache.CountOrDefer | pkg/provision/primitives/cache/cache.go:347-370 | counts a workload at once or puts a network aside under its id, keeping what has been counted so far exact |
| ReservationCache.CountNetworks | pkg/provision/primitives/cache/cache.go:371-380 | counts each network id that was put aside once |
| ReservationCache.CountedIff | pkg/provision/primitives/cache/cache.go:338-380 | a restart counts exactly the cached reservations that have not run out and are ok |
| ReservationCache.KeptIff | pkg/provision/primitives/cache/cache.go:113-158 | it finds everything in the cache, or after a reboot exactly the volumes whose files are not empty |
| ReservationCache.NetworkIdsIff | pkg/provision/primitives/cache/cache.go:347-380 | the networks it counts are those of both types, told apart by user and name |
| EngineRuns.TotalSplits | pkg/provision/primitives/cache/cache.go:340-380 | the sum over the cache is the sum over the entries a restart counts plus the sum over those it skips |
| EngineRuns.RestartKeeps | pkg/provision/primitives/cache/cache.go:35-62 | a restart keeps cache and running workloads, of a reboot volumes alone, and forgets which jobs were handled |
| EngineRuns.RestoredRebuilds | pkg/provision/primitives/cache/cache.go:338-380 | counters that a counting without an obstacle leaves are the sums over the part of the cache that counts |
| EngineRuns.RestartAgreesOn | pkg/provision/primitives/cache/cache.go:338-380 | wherever the counting stopped, a counter equals its sum over the cache if and only if what was not counted weighs nothing |
| EngineRuns.RestartAgrees | pkg/provision/primitives/cache/cache.go:113-158 | after a restart with nothing that stops the counting, also the first after a boot, a counter equals its sum over the cache if and only if the skipped entries weigh nothing |
| EngineRuns.NextConserves | pkg/provision/engine.go:158-254 | every step, job, external decommission, expiry of the duplicate filter or restart, keeps a counter equal to its sum when it is sound |
| EngineRuns.RunConserves | pkg/provision/engine.go:158-254 | in every run of sound steps each counter equals the sum over the cache |
| FaithfulRuns.FaithfulIsSound | pkg/provision/engine.go:379-436 | a step whose jobs carry the type and data booked for their id is sound for every counter |
| FaithfulRuns.RunAgrees | pkg/provision/engine.go:256-436 | in every such run each cached reservation is the one booked for its id |
| FaithfulRuns.CapacityIsConserved | pkg/provision/engine.go:256-436 | after every run in which ids keep their type and data, including every failing exit, each of CRU, MRU, SRU, HRU and the container, volume, zdb, k8s and vm counts equals its sum over the cached reservations |
| FaithfulRuns.FloorNeverReached | pkg/provision/engine.go:423-429 | on such runs the truncation at zero never takes effect, for jobs and for decommissions by request |
| MemoryAdmission.MemoryStaysWithinBudget | pkg/provision/engine.go:348-363 | in every reachable state the memory of all cached workloads equals the counter and stays within the rounded total minus the reserve |
| MemoryAdmission.NextWithinBudget | pkg/provision/engine.go:256-346 | each step keeps that bound, since check, deployment and counting compose |
| DeployedMemory.NextHostedIff | pkg/provision/engine.go:256-436 | a step keeps every running workload that takes memory accounted for by a cached reservation if and only if it neither deploys one that cannot be cached nor drops one that nothing stops |
| DeployedMemory.DeployedMemoryStaysWithinBudget | pkg/provision/engine.go:348-363 | in every run without such a step the memory of everything that is deployed is at most the counter and stays within the rounded total minus the reserve |
| DeployedMemory.AdmissionFitsIff | pkg/provision/engine.go:125-155 | every request that passes the check fits the budget together with what is deployed, if and only if the deployed memory is at most the counter |
| DeployedMemory.UncachedExceedBudget | pkg/provision/engine.go:316-322 | a run of two jobs on a node of 4 GiB that cannot write its cache, after which twice the budget is deployed |
| DeployOnce.RunOrderly | pkg/provision/engine.go:256-346 | in every run the log of deployments, additions and removals agrees with the cache |
| DeployOnce.DeployedOncePerStay | pkg/provision/engine.go:267-322 | between entering the cache and leaving it a reservation is deployed at most once |
| DeployOnce.DeployedAgainIffUnreadable | pkg/provision/engine.go:256-290 | an id that is cached, after the migration its job may ask for, is deployed again if and only if the migration went through, the cached copy cannot be read and the deployment passes |
| EngineGaps.DeployedASecondTime | pkg/provision/engine.go:267-290 | a concrete job whose cached copy cannot be read is deployed a second time |
| EngineGaps.DecommissionOfOtherData | pkg/provision/engine.go:379-436 | a concrete decommission with other data after which the storage counter is below the sum |
| EngineGaps.RestartStopsAtUndecodable | pkg/provision/primitives/cache/cache.go:338-380 | a concrete restart that stops at a reservation that does not decode and leaves two counters below their sums |
| EngineGaps.MigrationOntoCachedIdLeaks | pkg/provision/engine.go:610-649 | a concrete migration onto a cached id after which the storage counter exceeds the sum |
| EngineGaps.RestartForgetsExpired | pkg/provision/primitives/cache/cache.go:340-380 | a concrete restart after which an expired reservation is cached and not counted |
| EngineGaps.ExpiredAcrossRestart | pkg/provision/engine.go:452-479 | decommissioning a skipped reservation after a restart leaves the counter right if and only if nothing else was skipped and there was nothing to subtract from |
| ProvisionEngine.ProvisionEngine.Restart | pkg/provision/primitives/cache/cache.go:35-62 | clearing, counting into new counters and making a new engine is a restart step of the state machine with counters that a counting leaves; it ends without an engine exactly when the clearing fails |
| ProvisionEngine.ProvisionEngine.GetUsableMemoryBytes | pkg/provision/engine.go:125-155 | the method returns the usable memory of the value-level model, wrap-around included |
| ProvisionEngine.ProvisionEngine.ProvisionForward | pkg/provision/engine.go:348-377 | deploys exactly when the memory check passes, the type is known and the provisioner succeeds |
| ProvisionEngine.ProvisionEngine.MigrateToPool | pkg/provision/engine.go:610-649 | cache, counters, log and outcome are those of the value-level migration |
| ProvisionEngine.ProvisionEngine.CacheAndCount | pkg/provision/engine.go:322-346 | adds to the cache, then counts unless the network exists; a failed addition leaves both alone |
| ProvisionEngine.ProvisionEngine.Provision | pkg/provision/engine.go:256-346 | the whole state after a provisioning, on every exit |
| ProvisionEngine.ProvisionEngine.Decommission | pkg/provision/engine.go:379-436 | the whole state after a decommission, on every exit |
| ProvisionEngine.ProvisionEngine.DecommissionCached | pkg/provision/engine.go:452-479 | the whole state after a decommission by id |
| ProvisionEngine.ProvisionEngine.HandleJob | pkg/provision/engine.go:190-254 | the whole state after one job, with the filter of recently handled ids |
| Poller.Poll | pkg/provision/explorer/source.go:46-76 | returns a permutation of all supported workloads in the order of their types, or an error with last id zero, exactly when the explorer or a conversion fails |
| Poller.PollIsPollerStep | pkg/provision/source.go:73-104 | with an explorer that sends every workload from the cursor to the last id, what the poller returns is a complete answer or an error that skips nothing |
| Poller.SupportedKeepsAll | pkg/provision/explorer/source.go:55-68 | only workloads of unsupported types are dropped |
| Sources.RunInv | pkg/provision/source.go:60-241 | the invariant of cursor, channels, marker and clean-up gate over every interleaving of sources, forwarders, cron and engine |
| Sources.NothingIsLost | pkg/provision/source.go:73-131 | in every interleaving every stored workload below the cursor has been sent or is in the batch being sent, across retries and resets |
| Sources.MarkerAtMostOnce | pkg/provision/source.go:106-131 | the marker of the last workload is sent at most once |
| Sources.MarkerFollowsEqualAnswers | pkg/provision/source.go:106-131 | in every interleaving the marker is sent only after an answer that ended at the same last id as the one before it |
| Sources.EqualAnswerIsMarked | pkg/provision/source.go:106-131 | an answer moves the cursor past its last id, is sent in full, and has the marker at its end if and only if none was sent and the last id is that of the answer before |
| Sources.SendsInTurn | pkg/provision/source.go:106-131 | its jobs are sent one after the other, then the marker, and then the source polls again or stops |
| Sources.NoExpiryIsLost | pkg/provision/source.go:158-241 | in every interleaving what the decommission source found expired has been handled, is in hand, on the way or still to be sent, all of it and in order |
| Sources.JanitorWaitsForHistory | pkg/provision/engine.go:158-254 | whenever the clean-up has run, the engine had handled the marker and, before it, every workload below the cursor of that moment |
| Sources.SkippedStaysUnsent | pkg/provision/source.go:79-104 | a workload that an error skips unsent is not sent in any later run whose polls do not move the cursor back to it |
| Sources.ResetRecovers | pkg/provision/source.go:79-104 | an error with last id zero brings it into the next complete answer |
| Sources.JanitorRunsWithoutSkipped | pkg/provision/source.go:79-131 | a concrete run in which a workload is skipped and the clean-up runs without the engine having seen it |
| Sources.StuckIff | pkg/provision/engine.go:158-254 | a step makes the engine block on its own clean-up channel exactly when it has to send while two clean-ups wait |
| Sources.StuckForever | pkg/provision/engine.go:158-254 | once blocked it handles nothing more in any run |
| Sources.TwoMidnightsBlock | pkg/provision/engine.go:158-254 | a concrete run in which a job is handled across two midnights, the marker comes next, and the engine is blocked |
| StorageInvariants.ScanExact | pkg/storage/storage.go:725-803 | the search among unmounted pools mounts the first that fits, and it alone |
| StorageInvariants.ScanEnds | pkg/storage/storage.go:725-803 | whatever fails, the search among unmounted pools passes those whose probe fails, which stay mounted, and those without room, ends at the first it cannot pass, as a candidate or an error, and leaves all after it alone |
| StorageInvariants.SearchExact | pkg/storage/storage.go:697-803 | with working commands the search returns all mounted pools of the type with room, largest first, and changes nothing; if there is none it mounts the first unmounted one with room, and it alone; and it reports a lack of space exactly when no pool of the type has room |
| StorageInvariants.MountedFitsExact | pkg/storage/storage.go:725-803 | the mounted candidates are exactly the mounted pools of the type with room |
| StorageInvariants.FindOnlyMounts | pkg/storage/storage.go:725-803 | whatever fails, a search changes nothing but which pools are mounted |
| StorageSizes.VolumeTakes | pkg/storage/filesystem/btrfs.go:560-633 | what a volume takes: nothing without a quota group, its namespaces for 0-db, else its quota or, without one, its files |
| StorageSizes.NamespaceCounts | pkg/storage/zdbpool/pool.go:33-121 | each further namespace counts with its size |
| StorageSizes.DefaultDoesNotCount | pkg/storage/zdbpool/pool.go:33-121 | the namespace called default does not |
| StorageSizes.PoolReserves | pkg/storage/filesystem/btrfs.go:449-466 | the reserved size of a pool is the sum over its volumes modulo 2^64, and a size fits exactly when their sum modulo 2^64 is within the pool |
| StorageSizes.OtherDisksAreRefused | pkg/storage/storage.go:664-690 | creation and allocation on another type of disk change nothing |
| StorageSizes.ZdbNamesAreRefused | pkg/storage/storage.go:342-350 | an ordinary volume cannot take a name of the 0-db |
| StorageCreation.TriedInTurn | pkg/storage/storage.go:664-690 | whatever fails, the volume is on the first candidate that accepts it and reads it back, strays are left exactly on those before that accept it only, and no other pool changes |
| StorageCreation.CreateIsExact | pkg/storage/storage.go:342-369 | with working commands a volume of a new name is placed exactly when a pool of the type has room: on the largest such mounted pool, else on the first other one, which is mounted; it is empty with the quota asked for, and nothing else changes |
| StorageCreation.SubvolPlacedIff | pkg/storage/storage.go:664-690 | the same for the volume alone: it is made exactly when a pool has room |
| StorageCreation.QuotaIsTaken | pkg/storage/filesystem/btrfs.go:449-466 | the new volume takes exactly its quota from its pool |
| StorageCreation.ReleaseUndoesCreate | pkg/storage/storage.go:342-413 | releasing what was created leaves every volume as before, and the pool mounted exactly when it has others |
| StorageRelease.ReleaseIsExact | pkg/storage/storage.go:374-413 | a release that succeeds leaves no volume of that name on any pool, every other volume on its pool, unchanged and in order, and unmounts exactly the pools whose only volume it removed |
| StorageRelease.ReleaseStopsAtFirstFailure | pkg/storage/storage.go:374-413 | a release succeeds if and only if no command it needs fails; otherwise it is done on the pools before the first where one does, leaves that one as far as it came, and does not begin on the rest |
| StorageRelease.ShutdownStopsAtFirstFailure | pkg/storage/storage.go:315-339 | the power-down stops at the first mounted pool that cannot be listed, or that is idle and cannot be unmounted, with the idle ones before it unmounted |
| StorageRelease.ShutdownIsExact | pkg/storage/storage.go:315-339 | the power-down unmounts nothing but mounted pools without volumes, and with working commands all of them |
| StorageQuotas.ReservedCoversQuotas | pkg/storage/filesystem/btrfs.go:449-466 | the sizes of the volumes of a pool, of which the reserved size is the sum modulo 2^64, cover the sum of its quotas |
| StorageQuotas.FoundGood | pkg/storage/storage.go:697-803 | whatever fails, every candidate returned is mounted and has room |
| StorageQuotas.CreateSubvolPlaces | pkg/storage/storage.go:664-690 | a volume is placed only on a mounted pool of the type that had room |
| StorageQuotas.CreateFilesystemQuotas | pkg/storage/storage.go:342-369 | on every exit the quotas of each pool are those before, plus the size on the chosen pool alone |
| StorageQuotas.CreateStaysWithinSize | pkg/storage/storage.go:647-690 | a creation whose check does not wrap keeps the quotas of every pool within its size |
| StorageQuotas.OvercommitIffWrap | pkg/storage/storage.go:755-784 | of a successful creation on a pool which, together with what is reserved on it without a quota, is below 2^64 bytes, the quotas fit the pool if and only if the check did not wrap |
| StorageQuotas.WrapCanBeHarmless | pkg/storage/storage.go:755-784 | a concrete pool beyond that on which a check wraps and the quotas still fit |
| StorageQuotas.WithoutMembers | pkg/storage/storage.go:374-413 | releasing removes exactly the volumes of that name |
| StorageQuotas.ReleaseFromOk | pkg/storage/storage.go:374-413 | a release, wherever it fails, keeps powered-down pools empty and quotas within size |
| StorageQuotas.ShutdownFromOk | pkg/storage/storage.go:315-339 | so does the power-down of idle pools |
| StorageRuns.NextPoolsOk | pkg/storage/storage.go:315-413 | every operation, with any failures, keeps unmounted pools empty |
| StorageRuns.RunPoolsOk | pkg/storage/storage.go:315-499 | in every run no unmounted pool holds a volume |
| StorageRuns.RunOk | pkg/storage/storage.go:342-413 | in every run of creations that do not wrap, releases, searches, 0-db allocations and power-downs, the quotas of each pool sum to at most its size |
| StorageRuns.LookupNeverMisses | pkg/storage/zdb.go:19-53 | in every run, when the mounted pools can be listed, a namespace is reported missing if and only if no pool, mounted or not, holds it |
| StorageRuns.WrapOvercommits | pkg/storage/storage.go:755-784 | a concrete request close to 2^64 bytes that passes the check and overcommits |
| Lookups.PathIsExact | pkg/storage/storage.go:460-499 | a volume is reported missing exactly when no pool has it; otherwise the first one of that name is returned |
| Lookups.PathGivesUpIff | pkg/storage/storage.go:460-499 | the lookup by name fails if and only if a mounted pool cannot be listed and none before it has the name |
| Lookups.ListedExact | pkg/storage/storage.go:416-456 | the listing of mounted pools shows exactly the ordinary volumes of all pools |
| Lookups.LookupsAgreeInEveryRun | pkg/storage/storage.go:416-499 | in every run both lookups agree with a search over all pools |
| Zdb.FindIsExact | pkg/storage/zdb.go:19-53 | the lookup returns the first volume of all pools that holds the namespace, and misses none |
| ZdbAllocation.AllocateOk | pkg/storage/zdb.go:58-160 | an allocation keeps every pool in order and touches no quota, whatever fails |
| ZdbAllocation.ChosenUsable | pkg/storage/zdb.go:100-160 | the volume chosen is a mounted 0-db volume of the requested type |
| ZdbChoice.AllocationTakesMostFree | pkg/storage/zdb.go:100-160 | a successful allocation of an absent namespace goes, if a mounted 0-db volume of the type and mode has room, on one of those that has the most left, with nothing else changed; a new volume is made exactly when there is none, on a pool with room, and holds the namespace alone |
| ZdbChoice.AllocationSucceedsIff | pkg/storage/zdb.go:58-160 | with working commands it succeeds if and only if there is such a volume or a pool of the type has room for a new one |
| ZdbChoice.FindGivesUpIff | pkg/storage/zdb.go:19-53 | the lookup of a namespace fails if and only if a mounted pool of the types cannot be listed and none before it holds the namespace |
| ZdbChoice.AllocationGivesUp | pkg/storage/zdb.go:69-84 | an allocation then fails too, with nothing changed |
| ZdbChoice.UnprobedGivesUp | pkg/storage/zdb.go:115-190 | so does one of an absent namespace when a mounted pool of the type cannot be probed |
| ZdbChoice.HeaderFailureLeaves | pkg/storage/zdbpool/pool.go:50-67 | one that fails at the header leaves the chosen volume, with the begun namespace exactly if its file was made |
| ZdbAllocation.AllocatedIsFound | pkg/storage/zdb.go:19-160 | after a successful allocation of an absent namespace a lookup that can list the mounted pools returns exactly that volume |
| ZdbAllocation.AllocationIsReserved | pkg/storage/zdbpool/pool.go:31-67 | it raises what that volume has reserved by exactly the requested size, on an old or a new volume |
| ZdbAllocation.AllocateAgain | pkg/storage/zdb.go:58-100 | allocating the same id and type again gives the same answer and changes nothing |
| ZdbAllocation.FailedAllocationIsFoundIff | pkg/storage/zdbpool/pool.go:50-67 | an allocation that fails at the header is found by the lookup if and only if the file of the header had been begun |
| ZdbAllocation.BegunIsReportedAllocated | pkg/storage/zdb.go:58-100 | the next request is then told that the namespace is allocated, with nothing reserved |
| ZdbAllocation.MissingIffAbsent | pkg/storage/zdb.go:19-53 | with powered-down pools empty, missing means absent everywhere |
| StorageModule.NamespacesReserved | pkg/storage/zdbpool/pool.go:33-121 | the loop returns the sum of all namespaces but the default one, modulo 2^64 |
| StorageModule.VolumeUsage | pkg/storage/filesystem/btrfs.go:560-633 | the size of a volume: zero without a quota group, its namespaces for 0-db, else its quota or, without one, its files |
| StorageModule.PoolReserved | pkg/storage/filesystem/btrfs.go:449-466 | the loop returns the sum of the volume sizes, modulo 2^64 |
| StorageModule.Module.CheckMounted | pkg/storage/storage.go:725-803 | the loop finds exactly the mounted pools of the type that answer the probes and have room |
| StorageModule.Module.CheckUnmounted | pkg/storage/storage.go:725-803 | the loop mounts and unmounts as the model does, also when mounting fails with the pool mounted, and stops at the first pool that fits |
| StorageModule.Module.FindCandidates | pkg/storage/storage.go:697-723 | pools and candidates after the search are those of the model |
| StorageModule.Module.CreateSubvol | pkg/storage/storage.go:664-690 | pools and outcome after trying the candidates in turn |
| StorageModule.Module.CreateFilesystem | pkg/storage/storage.go:342-369 | pools and placement after a creation, on every exit; it is reported as failed also when the usage of the new volume cannot be read |
| StorageModule.Module.ReleaseFilesystem | pkg/storage/storage.go:374-413 | pools and outcome after a release, on every exit |
| StorageModule.Module.ShutdownUnusedPools | pkg/storage/storage.go:315-339 | pools after the power-down of idle pools |
| StorageModule.Module.Path | pkg/storage/storage.go:460-499 | the loops return the location of the model's lookup |
| StorageModule.Module.ListFilesystems | pkg/storage/storage.go:416-456 | fails exactly when a mounted pool cannot be listed, and otherwise returns the ordinary volumes of the mounted pools |
| StorageModule.Module.Find | pkg/storage/zdb.go:19-53 | the loops return the location of the model's lookup |
| StorageModule.Module.CheckZdbVolumes | pkg/storage/zdb.go:185-225 | the candidates of one pool: 0-db volumes of the right mode with room |
| StorageModule.Module.CheckForZdbCandidateVolumes | pkg/storage/zdb.go:167-233 | fails exactly when a mounted pool of the type cannot be probed or listed, and otherwise returns the candidates of all of them |
| StorageModule.Module.Allocate | pkg/storage/zdb.go:58-160 | pools and location after an allocation, on every exit |
| NamespaceHeader.NumberRoundTrip | pkg/storage/zdbpool/ns_header.go:16-36 | little-endian numbers of any width are read back |
| NamespaceHeader.RoundTripIffShort | pkg/storage/zdbpool/ns_header.go:38-105 | reading after writing returns the same name, password and size with version 1 and leaves the following bytes unread, if and only if name and password have at most 255 bytes |
| NamespaceHeader.BaseOnlyRoundTrip | pkg/storage/zdbpool/ns_header.go:71-105 | a header without the extension is read with version 0 and its 32-bit size |
| NamespaceHeader.LayoutIsExact | pkg/storage/zdbpool/ns_header.go:16-68 | where each byte of a written header is, with its flags and version in numbers |
| NamespaceHeader.WriteHeader | pkg/storage/zdbpool/ns_header.go:38-68 | appends exactly the encoding of the header |
| NamespaceHeader.ReadHeader | pkg/storage/zdbpool/ns_header.go:71-105 | succeeds exactly when the bytes begin with a header, returns it and stops behind it |
| Devices.FlattenIsExact | pkg/storage/filesystem/device.go:211-224 | the flat list holds exactly the devices of the tree, at every depth |
| Devices.FreeInListIsFreeInTree | pkg/storage/filesystem/device.go:64-68 | flattening keeps whether each device is used, and lists the free ones unchanged |
| Devices.FlattenFlat | pkg/storage/filesystem/device.go:211-224 | flattening a flat list changes nothing |
| Devices.FlattenDevices | pkg/storage/filesystem/device.go:211-224 | the recursive loop returns the flat list |
| Devices.TypedThroughout | pkg/storage/filesystem/device.go:245-255 | every device on a disk gets the type and read time of the disk and changes in nothing else |
| Devices.FreeOfTypeIsExact | pkg/storage/storage.go:177-218 | the candidates for pools of a type are exactly the unused devices of that type, each as often as listed |
| Devices.PoolsPartition | pkg/storage/storage.go:229-255 | every disk of the groups is in exactly one pool or among the broken devices |
| Devices.PoolsAreGood | pkg/storage/storage.go:229-255 | the pools are pairwise disjoint groups of exactly that many disks, all indices in bounds |
| Devices.NewPoolsAreSound | pkg/storage/storage.go:177-255 | pools are made exactly for a known profile and a positive multiple of its number of disks; whatever disks fail and whatever is listed, each new pool has exactly the disks of the policy (at least one), all unused and of one type; and the new pools are pairwise disjoint when the free devices have distinct paths |
| Devices.NewPoolsSeparateIff | pkg/storage/storage.go:211-255 | with working disks the new pools share no device if and only if the free disks that are taken have distinct paths |
| Devices.SharedDeviceInTwoPools | pkg/storage/storage.go:229-255 | a concrete array below two disks, which flattening lists twice and which is made into two pools |
| Devices.LimitExceeded | pkg/storage/storage.go:220-226 | two concrete disks and a limit of one that give two pools |
| Devices.LimitHoldsIff | pkg/storage/storage.go:220-226 | with working disks the limit of the policy bounds the new pools if and only if one type gives no pool or both together stay within it |
| DeviceRanking.FreeIff | pkg/storage/filesystem/device.go:64-68 | a device is free exactly without label, file system, children and partitions |
| DeviceRanking.PoolsTakeFastest | pkg/storage/storage.go:192-255 | with working disks, how many pools of SSDs and then of HDDs are made, and that each takes the next disks of its type, fastest first |
| DeviceRanking.PolicyOutcomes | pkg/storage/storage.go:199-226 | which policies are refused, by profile and number of disks, and which divide by zero |
| Devices.CreatePools | pkg/storage/storage.go:229-255 | the nested loops return the pools and broken devices of the model |
| Devices.InitializePools | pkg/storage/storage.go:177-255 | the outcome for every policy, including unknown profiles, wrong numbers of disks and the division by zero disks |
| VmMonitor.NotKeptAliveStaysDown | pkg/vm/monitor.go:80-147 | in every run, whatever is lost when the daemon restarts, only machines last started to be kept alive are restarted |
| VmMonitor.AtMostThreeRestarts | pkg/vm/monitor.go:104-134 | in every run a machine is restarted at most three times since its failure count was last lost |
| VmMonitor.FourthFailureDestroys | pkg/vm/monitor.go:104-144 | a failure leads to decommission without a restart if and only if three were counted before |
| VmLifetime.DeletedStaysGone | pkg/vm/manager.go:409-416 | after a machine is deleted, in every run that does not start it anew it has no config file, does not run, and is neither restarted nor decommissioned |
| VmLifetime.DeleteRemoves | pkg/vm/manager.go:409-416 | a deletion removes config, machine and marker of that machine and leaves every other machine alone |
| VmLifetime.StepTouchesOne | pkg/vm/monitor.go:80-147 | every step changes nothing about other machines; a restart of the daemon loses markers and nothing else |
| VmLifetime.StartRuns | pkg/vm/manager.go:271-348 | a start that works saves the config and runs the machine, and marks it exactly if it is not to be kept alive |
| VmLifetime.FailedStartLeavesNothing | pkg/vm/manager.go:271-348 | one that cannot run it leaves nothing of it; one that finds it running or cannot save does nothing |
| VmLifetime.RunningIsLeftAlone | pkg/vm/monitor.go:80-86 | the monitor does nothing to a machine that runs |
| VmLifetime.KeptAliveIsRestarted | pkg/vm/monitor.go:104-147 | a stopped machine to be kept alive with fewer than three counted failures is restarted and its failure counted |
| VmLifetime.FailedRestartGivesUp | pkg/vm/monitor.go:134-147 | when the restart fails its config is removed and it is decommissioned |
| VmLifetime.NotKeptAliveIsForgotten | pkg/vm/monitor.go:90-134 | one not to be kept alive is marked in one round and loses its config in the next, and is never restarted |
| VmLifetime.UnreadableConfigOnlyCounts | pkg/vm/monitor.go:104-117 | when the config cannot be read the failure is counted and nothing else happens |
| VmMonitor.Module.MonitorOne | pkg/vm/monitor.go:80-147 | markers, config files, machines and log after one round of the monitor for a machine |
| VmMonitor.Module.RunVm | pkg/vm/manager.go:271-348 | the same after starting a machine; it succeeds exactly when the machine is not running, is saved, starts and comes up |
| VmMonitor.Module.Remove | pkg/vm/manager.go:410-416 | the config file, the machine and the marker are gone, and the log says so |
| Dmi.ReadList | pkg/capacity/dmi/dmi.go:269-283 | the items are the trimmed lines up to the first that is indented less than the first item |
| Dmi.ListsEndAtBlankLines | pkg/capacity/dmi/dmi.go:269-283 | a list never runs past a blank line |
| Dmi.ReadSubSections | pkg/capacity/dmi/dmi.go:227-267 | the loop reads exactly the titled parts of a section and stops where the section ends, on every input |
| Dmi.ReadSection | pkg/capacity/dmi/dmi.go:211-267 | fails exactly on sections without a second line, a type or well-formed properties |
| Dmi.ReadTooling | pkg/capacity/dmi/dmi.go:295-306 | finds the aggregator line before the first section |
| Dmi.ParseDmi | pkg/capacity/dmi/dmi.go:286-329 | on every input the loops terminate within bounds and return what the grammar-like reading of the lines gives |
| DmiLines.TrimIsExact | pkg/capacity/dmi/dmi.go:174-185 | trimming takes away white space at both ends and all of it |
| DmiLines.LevelIs | pkg/capacity/dmi/dmi.go:165-172 | the level of a line is how much white space it begins with |
| DmiLines.SplitsAtColon | pkg/capacity/dmi/dmi.go:134-185 | key and value are split at the first colon that is not the first character |
| DmiLines.NoColonNoProperty | pkg/capacity/dmi/dmi.go:134-185 | a line is no property if and only if it has no such colon |
| DmiLines.SectionEndsAtBlank | pkg/capacity/dmi/dmi.go:227-267 | a section that is read reaches exactly to the first blank line after its title |
| DmiLines.KeyedSectionIsRead | pkg/capacity/dmi/dmi.go:227-267 | it is read whenever each of its indented lines has a key |
| DmiLines.SectionFails | pkg/capacity/dmi/dmi.go:211-250 | a section of one line, without a type, or with an indented line without a key after its title fails the parsing |
| DmiLines.AggregatorIs | pkg/capacity/dmi/dmi.go:295-309 | the tool is named by the first comment if that comes before the first section and is not blank, and is unknown otherwise |
| DmiLines.NothingToRead | pkg/capacity/dmi/dmi.go:286-329 | lines without comments and sections are parsed to no sections of an unknown tool |
| DmiRoundTrip.ReadEntries | pkg/capacity/dmi/dmi.go:233-264 | printed properties with their items are read back, the last of equal keys winning |
| DmiRoundTrip.ParseUndoesPrint | pkg/capacity/dmi/dmi.go:286-329 | for every list of well-formed sections, parsing the printed lines returns those sections in order |
| DmiRoundTrip.EveryEntryIsKept | pkg/capacity/dmi/dmi.go:233-264 | with distinct keys every printed property is found under its key with its items |
| DmiHandles.TypeIsRead | pkg/capacity/dmi/dmi.go:156-166 | the type of a section is the decimal number behind the first type mark of its first line, if it is below 2^63 |
| DmiHandles.NoMarkNoType | pkg/capacity/dmi/dmi.go:156-166 | without such a mark there is none |
| DmiHandles.TypesAreParsed | pkg/capacity/dmi/dmi.go:211-329 | parsing printed sections gives each the type number it was printed with |
| UpgradeSteps.ReplacedOutcome | pkg/upgrade/upgrade.go:517-556 | moving what is at a path aside, writing and cleaning up or restoring, case by case over every failure: nothing happens, the new file stands, everything is as before, or the part that was received or nothing stands where the old entry was |
| UpgradeSteps.FileIsFlat | pkg/upgrade/upgrade.go:509-556 | with only directories above its destination, a copy does to the entries of the destination and its backup what moving aside, writing and cleaning up or restoring amounts to |
| UpgradeSteps.LinkIsFlat | pkg/upgrade/upgrade.go:477-490 | the same for a link |
| UpgradeExact.ReplacedThrough | pkg/upgrade/upgrade.go:517-556 | replacing an entry at a path that leads elsewhere through links is replacing it there, when the way does not lead over that entry |
| UpgradeExact.ReplacedCrossed | pkg/upgrade/upgrade.go:517-556 | when it does, the entry is moved aside, nothing is written and it is not moved back |
| UpgradeExact.FileIsOldOrNewIff | pkg/upgrade/upgrade.go:509-556 | after one copy to any destination, also one behind links, with any failure, everything on the disk is old or new in full, if and only if nothing is at the destination, or nothing is moved, or the way does not lead over what is moved and either what is received is the same as the old or new content in its own place over nothing that is lost, or the copy fails and what was moved can be moved back |
| UpgradeExact.CopyGoesThroughLinks | pkg/upgrade/upgrade.go:464-476 | a copy to a file behind any links does, with any failure, what the copy to that file does |
| UpgradeExact.FileBehindLinksKeptIff | pkg/upgrade/upgrade.go:464-556 | a file that lies behind links of the disk where the release has directories is kept if and only if it is not moved, or the copy fails and it is moved back, or the same content is received |
| UpgradeExact.LinkIsOldOrNewIff | pkg/upgrade/upgrade.go:477-490 | what a link replaces, at any destination, is old or new if and only if nothing is there, or it cannot be removed, or the link can be made in its own place or is the same link |
| UpgradeGaps.LinkLosesFile | pkg/upgrade/upgrade.go:477-490 | a concrete file that is removed for a link that cannot be made |
| UpgradeGaps.LinkOnItsOwnWayIsLost | pkg/upgrade/upgrade.go:517-556 | a concrete link to its own directory that a copy below it moves aside for good |
| UpgradeGaps.ReleaseLosesContent | pkg/upgrade/upgrade.go:509-556 | a concrete release with a file for a directory, which succeeds and loses what was in it |
| UpgradeGaps.ReleaseOverwritesElsewhere | pkg/upgrade/upgrade.go:452-498 | a concrete release with a directory for a link, which overwrites a file that is no destination |
| UpgradeGaps.FileForDanglingLinkIsMadeElsewhere | pkg/upgrade/upgrade.go:517-545 | a file copied over a link that leads nowhere is made where the link leads |
| UpgradeCopy.WalkIsExact | pkg/upgrade/upgrade.go:452-498 | the walk makes exactly the regular files, links and directories with no skipped path on the way to them |
| UpgradeSafety.WalkApart | pkg/upgrade/upgrade.go:452-498 | in a release with unique names and no name that is another's backup, no copy is in the way of another |
| UpgradeSafety.NoCollisionsRest | pkg/upgrade/upgrade.go:452-498 | after each successful copy the rest of the release still fits onto the disk |
| UpgradeSafety.UpgradeIsOldOrNew | pkg/upgrade/upgrade.go:452-556 | for every list of copies that fits and every failure point, everything that existed is old or new in full, if its own copy is recoverable |
| UpgradeSafety.UpgradeIsSafe | pkg/upgrade/upgrade.go:452-556 | the same for every release tree that fits onto the disk, where links at destinations may lead on through other links, and every set of skipped paths |
| UpgradeSafety.OthersUnchanged | pkg/upgrade/upgrade.go:452-556 | on success everything else is unchanged, except new directories and backups that could not be removed |
| UpgradeSafety.UpgradeInstalls | pkg/upgrade/upgrade.go:452-556 | on success every file, link and directory of the tree that is not skipped is in its place, with its new content or target |
| UpgradeCopy.Upgrader.CopyFile | pkg/upgrade/upgrade.go:509-556 | the disk after a copy with its deferred clean-up, on every exit, whatever is at the destination |
| UpgradeCopy.Upgrader.CopyLink | pkg/upgrade/upgrade.go:477-490 | the disk after replacing a path by a link, on every exit |
| UpgradeCopy.Upgrader.CopyRecursive | pkg/upgrade/upgrade.go:452-498 | the walk performs the copies of the tree in order up to the first failure |
| Ports.ScanIsExact | pkg/network/portm/allocator.go:58-72 | the scan returns the first port that is neither held nor refused, and no-free-port exactly when all from its start to the end are |
| Ports.FailsIffHeldFromStart | pkg/network/portm/allocator.go:36-73 | with a working store, no-free-port means exactly that |
| Ports.MissesFreePortIff | pkg/network/portm/allocator.go:51-72 | a free port is missed if and only if the last reserved port lies before the end and everything from it on is held; a fresh namespace or one that reached the end misses none |
| Ports.EveryPortInRange | pkg/network/portm/allocator.go:36-81 | in every run of reservations and releases each port returned is in the range and was not held |
| Ports.NeverHandedOutTwice | pkg/network/portm/allocator.go:36-81 | in every run a port returned twice in a namespace was released in between |
| Ports.ReleaseUndoesReserve | pkg/network/portm/allocator.go:36-81 | a reservation adds exactly its port to what the namespace holds and remembers it as the last; releasing it gives every namespace back what it held |
| Ports.ReleaseFrees | pkg/network/portm/allocator.go:75-81 | a release gives back that port and nothing else |
| Ports.LowestFreeIsTaken | pkg/network/portm/allocator.go:51-72 | a namespace without a last port, or whose last port is the end of the range, gets its lowest free port |
| Ports.NextFreeIsTaken | pkg/network/portm/allocator.go:51-72 | any other gets the lowest free one from its last port on |
| Ports.StarvesForever | pkg/network/portm/allocator.go:51-72 | a namespace that misses its free ports gets none in any run that releases only below its last port |
| Ports.StarvedAfterReuse | pkg/network/portm/allocator.go:51-72 | a concrete run of six calls that leads there |
| Ports.Contains | pkg/network/portm/allocator.go:83-90 | membership in the listing |
| Ports.Allocator.ReservePort | pkg/network/portm/allocator.go:36-73 | store and outcome after a reservation, with every failure of the store and every port it refuses |
| Ports.Allocator.ReleasePort | pkg/network/portm/allocator.go:75-81 | store after a release |

## Left out

- Conservation and restart are stated for the nine counters other than `networks`: a live network counter depends on a lookup that knows only one of the two network types (pkg/provision/primitives/cache/cache.go:290-311); network counts are stated for Sync.
- FaithfulRuns.CapacityIsConserved: assumes that a sum over the cache stays below 2^64, that an id keeps its type and data, that a migrating id is not cached yet, and that a restart finds only files it can read with reservations that decode, are ok and have not expired; the exact conditions step by step are the if-and-only-if lemmas of `Conservation` and `EngineRuns`.
- MemoryAdmission.MemoryStaysWithinBudget: is about cached workloads; what it means for deployed ones, and when it does not carry over, is in `DeployedMemory`. It rests on the same assumptions about ids and restarts; the kernel reports at most the installed memory as available.
- DeployedMemory.DeployedMemoryStaysWithinBudget: a workload counts as belonging to the reservation that deployed it or took it over; that a second migration in a row asks for the workload by an id it does not run under is not modelled.
- Floating point: sizes go through 64-bit floats in the source and are whole numbers here, which agree below 2^53 bytes; a tenth of the memory is rounded up to GiB exactly.
- Decoding of JSON and the network id digest: a reservation carries what each decoder yields or that it fails, and the digest is a function parameter.
- Partly written cache files and `updateReservationResults`: an addition to the cache happens or does not.
- The lock files, contexts, logging, feedback to the explorer, signing of results and statistics of the engine.
- Fine-grained races of the failure cache of the machine monitor with its expiry, and of `DecommissionCached` with a running job: each handler is one atomic step.
- Overflow of `lastID + 1` in the poll source, and time: retries, midnights and expiries are steps that may happen at any moment.
- Libraries' sorting: `Sorting` is an insertion sort; the source's sort may order equal keys differently, and no theorem depends on their order.
- StorageInvariants.SearchExact: assumes that mounting, probing and unmounting succeed, which leaves out pools with a namespace whose header was not written to its end; the search with failures is `StorageInvariants.ScanEnds` for the unmounted pools and `StorageInvariants.MountedFitsExact` for the mounted ones.
- StorageCreation.CreateIsExact: assumes working commands and a name that no pool has; `StorageCreation.TriedInTurn` and `StorageQuotas.CreateFilesystemQuotas` hold whatever fails.
- CapacityUnits.CustomMachineAdds: is stated for custom sizes whose memory and disk, and five times the memory, stay below 2^64 bytes; beyond that the products wrap.
- StorageQuotas.OvercommitIffWrap: is stated where the pool and what is reserved on it without a quota stay below 2^64 bytes together; beyond that a check that wraps can leave the quotas within the pool (`StorageQuotas.WrapCanBeHarmless`).
- The cache volume, the disk-image volumes, the periodic power-down of single disks and the statistics of the storage module; no bound for 0-db namespaces or disk images against the whole pool is claimed.
- ZdbAllocation.AllocationIsReserved: does not speak of the namespace called `default`, which the source never counts.
- Devices.TypedThroughout: the source sets types in place in the tree; the model returns the tree with types set.
- Devices.NewPoolsAreSound: remounting existing pools and mounting the new ones are not modelled.
- Dmi.ParseDmi: starts from lines; indentation is counted in characters where the source counts bytes, and the printable name of a section type is not kept.
- UpgradeExact.FileIsOldOrNewIff: assumes that the name of the backup is free; an older backup there is replaced, and what was in it is not spoken of.
- UpgradeSafety.UpgradeIsSafe: assumes that the release fits onto the disk, which is false of the releases in `UpgradeGaps` and is not shown to be necessary; link targets are paths from the root without `..`, file modes are not kept, and a failure while parent directories are made leaves none of them.
- Restarting the services, the version check and the watcher of repositories in the upgrade daemon.
- Ports: the store is its interface contract; the store on the file system, whose listing trips over its own bookkeeping file, is not modelled.
- Networking, containers, the hypervisor command line, the message bus stubs, the commands and user interfaces.
