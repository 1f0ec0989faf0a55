# CloudStack network orchestration, OVF volume handling and the config drive element, in Dafny

This project models three parts of Apache CloudStack's management and storage code:

- **The network orchestrator.** Its core models:
  - how NICs are allocated to a VM and given device ids;
  - the NIC lifecycle: prepare, reserve, release, remove and placeholder NICs, with the per-network active-NIC count;
  - network setup by the design providers ("gurus");
  - network implement, shutdown and destroy under the network lock table;
  - the service-to-provider finalisation and element dispatch;
  - the network garbage collector's pass.
- **The OVF helper.** It models the reading of an OVF descriptor into data-disk records, and the rewriting of a descriptor so that it keeps one disk.
- **The config drive network element.** It models the element's own decision logic.

The collaborators are represented by their answers, which become parameters:

- DAOs;
- design providers;
- network elements;
- the lock table;
- the state machine table;
- secondary storage.

Each operation is therefore a deterministic function of its inputs.

Where the source updates objects in place, the model uses classes whose methods are proved equal to pure specification functions:

- `NicLifecycle.NicStore` stands for the NIC rows and the network counters;
- `NetworkLifecycle.Network` stands for a network row with its lock count;
- `ConfigDrive.VmProfile` stands for a VM profile's disk list.

Loops are modelled as `while` loops. Each one is proved against a specification function (most are recursive; the collector's next map is a map comprehension), and the properties are proved as lemmas about those functions.

Modules:

- `Base`: shared enumerations and the state-machine table. The network state machine is an abstract map, and a missing entry is a rejected transition.
- `NicAllocation`: `allocate`, `allocateNic` and `applyProfileToNic`.
- `NicLifecycle`: `updateNic`, `prepareNic`, `releaseNic`, `removeNic`, `removeVmSecondaryIpsOfNic` and `savePlaceholderNic`.
- `ProviderDispatch`: the offering finalisation, the element lookup and the element loops of implement, prepare, shutdown and destroy.
- `NetworkLifecycle`:
  - `setupNetwork`, `implementNetwork`, `shutdownNetwork` and `destroyNetwork`;
  - the lock table (a re-entrant hold count);
  - the state checks around these operations.
- `NetworkGc`: one pass of the network garbage collector and its behaviour across passes.
- `Ovf`: `getOVFVolumeInfo`, `getDisk`, the parent-chain walk of `getControllerType` and `rewriteOVFFile`.
- `ConfigDrive`: `ConfigDriveNetworkElement`'s local decisions.

Where the behaviour described for the system and the code differ, the model follows the code:

- `updateNic` changes the active-NIC count only for NICs of User VMs.
- `allocate` guarantees at most one default NIC, not exactly one. A batch of one NIC is promoted to default.
- `setupNetwork` commits one transaction per design provider, not one for the whole setup.

## Model

| member | source | states |
|---|---|---|
| Base.Transit | engine/orchestration/src/org/apache/cloudstack/engine/orchestration/NetworkOrchestrator.java:3291-3293 | A transition succeeds exactly when the table has an entry for (state, event), and yields that entry |
| NicAllocation.ApplyProfileToNic | engine/orchestration/src/org/apache/cloudstack/engine/orchestration/NetworkOrchestrator.java:853-892 | A device id from the profile is used as given and leaves the cursor alone. Otherwise the row takes the cursor and the cursor advances by one. Addresses come from the profile. MAC, URIs and strategy come from the profile only when it has them. The row ends Allocated with the profile's default flag |
| NicAllocation.AllocateNic | engine/orchestration/src/org/apache/cloudstack/engine/orchestration/NetworkOrchestrator.java:815-851 | Gives no NIC exactly when the design provider declines. Otherwise the NIC is on the network, carries the requested default flag, and has the provider's device id or the cursor |
| NicAllocation.BatchSize | engine/orchestration/src/org/apache/cloudstack/engine/orchestration/NetworkOrchestrator.java:733-742 | The occupancy array's size is the number of slots the batch expands to, at least one per network |
| NicAllocation.SkipTaken | engine/orchestration/src/org/apache/cloudstack/engine/orchestration/NetworkOrchestrator.java:766-768 | The cursor loop stops at the first free id, which is always in range. The source's index-before-bound test therefore never fails |
| NicAllocation.PlaceNic | engine/orchestration/src/org/apache/cloudstack/engine/orchestration/NetworkOrchestrator.java:760-799 | One slot of the loop equals the step function, and marks exactly one more device id as taken |
| NicAllocation.Allocate | engine/orchestration/src/org/apache/cloudstack/engine/orchestration/NetworkOrchestrator.java:727-811 | The loop over the batch computes the specification of allocate |
| NicAllocation.AllocateProperties | engine/orchestration/src/org/apache/cloudstack/engine/orchestration/NetworkOrchestrator.java:727-811 | Every slot gets one Allocated NIC on its network. Device ids are distinct, non-negative and below the batch size, and a provider's own id is kept. At most one NIC is default. A one-NIC batch returns its NIC as default. Two requested defaults or two equal explicit ids always fail |
| NicAllocation.AllocateFailureCauses | engine/orchestration/src/org/apache/cloudstack/engine/orchestration/NetworkOrchestrator.java:770-803 | Each failure of allocate has its cause in the batch: a declined allocation, an explicit id out of range, a repeated id, or two defaults |
| NicAllocation.SequentialDeviceIds | engine/orchestration/src/org/apache/cloudstack/engine/orchestration/NetworkOrchestrator.java:760-799 | When no provider picks a device id, the NICs get ids 0, 1, 2, ... in slot order and the batch succeeds |
| NicAllocation.AsWrittenGuardAdmitsOutOfRange | engine/orchestration/src/org/apache/cloudstack/engine/orchestration/NetworkOrchestrator.java:781 | A one-NIC batch whose provider reports device id 1 passes the `>` guard as written. The id is not an index of the array. The corrected guard rejects it |
| NicAllocation.AsWrittenGuardAdmitsNegative | engine/orchestration/src/org/apache/cloudstack/engine/orchestration/NetworkOrchestrator.java:781-784 | A one-NIC batch whose provider reports device id -1 passes the `>` guard as written, and the id is then used as an index. The corrected guard rejects it |
| NicLifecycle.AfterUpdateNic | engine/orchestration/src/org/apache/cloudstack/engine/orchestration/NetworkOrchestrator.java:1295-1312 | Stores the row. The network's active count changes by `count` only for User VMs. The network is flagged for collection for User VMs and for routers on Guest networks. Nothing else changes |
| NicLifecycle.ApplyReservation | engine/orchestration/src/org/apache/cloudstack/engine/orchestration/NetworkOrchestrator.java:1371-1384 | A reserved row takes the profile's addresses and URIs and ends Reserved |
| NicLifecycle.ApplyProfileToNicForRelease | engine/orchestration/src/org/apache/cloudstack/engine/orchestration/NetworkOrchestrator.java:894-906 | The released row takes the profile's addresses and URIs, and its strategy only when the profile has one |
| NicLifecycle.ReleaseHeld | engine/orchestration/src/org/apache/cloudstack/engine/orchestration/NetworkOrchestrator.java:1632-1659 | The state and strategy cases of releaseNic, and whether the elements are notified |
| NicLifecycle.PlaceholderNic | engine/orchestration/src/org/apache/cloudstack/engine/orchestration/NetworkOrchestrator.java:3408-3417 | A placeholder row is on the network, Reserved, with the PlaceHolder strategy and the given addresses |
| NicLifecycle.NicStore.constructor | engine/orchestration/src/org/apache/cloudstack/engine/orchestration/NetworkOrchestrator.java:1295-1312 | An empty store of NIC rows and counters |
| NicLifecycle.NicStore.UpdateNic | engine/orchestration/src/org/apache/cloudstack/engine/orchestration/NetworkOrchestrator.java:1295-1312 | The new state is that of updateNic's specification |
| NicLifecycle.NicStore.PrepareNic | engine/orchestration/src/org/apache/cloudstack/engine/orchestration/NetworkOrchestrator.java:1347-1414 | The new state and result are those of prepareNic's specification |
| NicLifecycle.NicStore.ReserveNic | engine/orchestration/src/org/apache/cloudstack/engine/orchestration/NetworkOrchestrator.java:1353-1393 | The row part of prepareNic, up to and including updateNic |
| NicLifecycle.NicStore.ReleaseNic | engine/orchestration/src/org/apache/cloudstack/engine/orchestration/NetworkOrchestrator.java:1623-1690 | The new state is that of releaseNic's specification |
| NicLifecycle.NicStore.ReleaseRow | engine/orchestration/src/org/apache/cloudstack/engine/orchestration/NetworkOrchestrator.java:1627-1661 | The row part of releaseNic, with whether the elements are notified |
| NicLifecycle.NicStore.RemoveSecondaryIps | engine/orchestration/src/org/apache/cloudstack/engine/orchestration/NetworkOrchestrator.java:3391-3406 | Deletes exactly the secondary address rows of the NIC |
| NicLifecycle.NicStore.RemoveNic | engine/orchestration/src/org/apache/cloudstack/engine/orchestration/NetworkOrchestrator.java:1709-1768 | The new state is that of removeNic's specification |
| NicLifecycle.NicStore.SavePlaceholderNic | engine/orchestration/src/org/apache/cloudstack/engine/orchestration/NetworkOrchestrator.java:3408-3417 | Persists the placeholder row under a fresh id and changes no count |
| NicLifecycle.PrepareNicCounts | engine/orchestration/src/org/apache/cloudstack/engine/orchestration/NetworkOrchestrator.java:1347-1414 | Unless the reserve fails, the NIC ends Reserved and a User VM's network count grows by one, even when an element then fails. Success means every in-scope element was enabled and prepared. A failing reserve leaves the NIC Reserving and the count unchanged |
| NicLifecycle.ReleaseNicRule | engine/orchestration/src/org/apache/cloudstack/engine/orchestration/NetworkOrchestrator.java:1623-1690 | Gives releaseNic's effect on the NIC state and the active count, for each strategy and state. A Start-strategy NIC whose release is refused stays Releasing |
| NicLifecycle.PrepareReleaseBalance | engine/orchestration/src/org/apache/cloudstack/engine/orchestration/NetworkOrchestrator.java:1347-1690 | Preparing and then releasing an Allocated NIC leaves it Allocated, with the network's count where it was |
| NicLifecycle.RemoveLeavesNothing | engine/orchestration/src/org/apache/cloudstack/engine/orchestration/NetworkOrchestrator.java:1709-1768 | After removal, no row and no secondary address of the NIC remain. Every other NIC and its addresses are unchanged |
| NicLifecycle.LifecycleCount | engine/orchestration/src/org/apache/cloudstack/engine/orchestration/NetworkOrchestrator.java:1347-1768 | A User VM's Start-strategy NIC goes through prepare, release and remove. If the provider releases it, the count returns to where it was. If the provider refuses, the count keeps the removed NIC |
| NicLifecycle.PlaceholderNeverCounted | engine/orchestration/src/org/apache/cloudstack/engine/orchestration/NetworkOrchestrator.java:3408-3417 | A placeholder NIC is saved Reserved and counted nowhere. Releasing it later leaves it Allocated. For a non-User VM, removing it afterwards leaves no row, link or count changed. For a User VM, the release lowers the network's count by one, a count its save never raised |
| ProviderDispatch.FinalizeServicesAndProvidersForNetwork | engine/orchestration/src/org/apache/cloudstack/engine/orchestration/NetworkOrchestrator.java:3148-3185 | The loop over the offering's rows computes the finalisation specification |
| ProviderDispatch.FinalizeProperties | engine/orchestration/src/org/apache/cloudstack/engine/orchestration/NetworkOrchestrator.java:3148-3185 | Succeeds exactly when each service's first row resolves to a provider, enabled on the physical network when one is given. The map's keys are then exactly the offering's services, each mapped to its first row's provider or the default unique provider |
| ProviderDispatch.ProvidersOf | engine/orchestration/src/org/apache/cloudstack/engine/orchestration/NetworkOrchestrator.java:3299-3312 | The providers of a service are exactly those of the network's rows for it |
| ProviderDispatch.ElementsForService | engine/orchestration/src/org/apache/cloudstack/engine/orchestration/NetworkOrchestrator.java:3323-3344 | Gives null when the service has no provider, or more than one while it is not Lb. Otherwise gives its providers |
| ProviderDispatch.ElementForFinalizedService | engine/orchestration/src/org/apache/cloudstack/engine/orchestration/NetworkOrchestrator.java:3148-3344 | Rows written from a finalised map give each service of the map exactly one element, the one the map chose |
| ProviderDispatch.RunElements | engine/orchestration/src/org/apache/cloudstack/engine/orchestration/NetworkOrchestrator.java:1117-1140 | The implement/prepare loop stops at the first in-scope element that is disabled or refuses. There is none exactly when all are enabled and accept |
| ProviderDispatch.AggregateElementResults | engine/orchestration/src/org/apache/cloudstack/engine/orchestration/NetworkOrchestrator.java:2286-2310 | The shutdown/destroy loop calls every in-scope element in order. The result is true exactly when every one succeeded |
| ProviderDispatch.CallUntilFailure | engine/orchestration/src/org/apache/cloudstack/engine/orchestration/NetworkOrchestrator.java:1142-1178 | The prepare, complete and cleanup loops call the batching elements in order, up to and including the first whose call fails or throws, and report that element |
| ProviderDispatch.AggregatedBracket | engine/orchestration/src/org/apache/cloudstack/engine/orchestration/NetworkOrchestrator.java:1096-1178 | No completion comes after a cleanup. Every prepared element has its cleanup called later exactly when the source NAT assignment threw or the implement loop stopped before any prepare, or no prepare threw and no cleanup but the last one threw. A throwing prepare (before the try block) skips all cleanups; a throwing cleanup skips the later ones |
| ProviderDispatch.ImplementSucceedsIff | engine/orchestration/src/org/apache/cloudstack/engine/orchestration/NetworkOrchestrator.java:1085-1178 | Implementing succeeds exactly when a needed source NAT address that was missing is assigned without an exception, every in-scope element is enabled and its implement returns true, the rules are reprogrammed, and every in-scope batching element prepares, completes and cleans up without failing |
| ProviderDispatch.ImplementFailureKinds | engine/orchestration/src/org/apache/cloudstack/engine/orchestration/NetworkOrchestrator.java:1096-1178 | The run ends before any element exactly when a source NAT address is needed, missing, and its assignment throws (InsufficientAddressCapacityException and the like). A disabled or refusing element is reported with its index (a CloudRuntimeException). An implement that throws, a prepare that throws and a cleanup that throws are each reported with their element, whose answer was that throw; a cleanup's throw wins over an earlier failure of the try block |
| NetworkLifecycle.TransitOr | engine/orchestration/src/org/apache/cloudstack/engine/orchestration/NetworkOrchestrator.java:3291-3293 | Gives the table's target when the transition exists, and the fallback state otherwise |
| NetworkLifecycle.ShutdownSpec | engine/orchestration/src/org/apache/cloudstack/engine/orchestration/NetworkOrchestrator.java:2156-2255 | shutdownNetwork's early exits, lock and re-check, then the held section |
| NetworkLifecycle.ImplementSpec | engine/orchestration/src/org/apache/cloudstack/engine/orchestration/NetworkOrchestrator.java:983-1082 | implementNetwork's early exit, lock, attempt, rollback and release |
| NetworkLifecycle.DestroySpec | engine/orchestration/src/org/apache/cloudstack/engine/orchestration/NetworkOrchestrator.java:2315-2452 | destroyNetwork's refusals, its shutdown, and its removal with the counter update |
| NetworkLifecycle.Network.constructor | engine/orchestration/src/org/apache/cloudstack/engine/orchestration/NetworkOrchestrator.java:629-724 | A freshly designed network is Allocated, not locked, with no active NICs |
| NetworkLifecycle.Network.ShutdownNetwork | engine/orchestration/src/org/apache/cloudstack/engine/orchestration/NetworkOrchestrator.java:2156-2255 | The new row and result are those of shutdownNetwork's specification, and the lock count is restored |
| NetworkLifecycle.Network.ShutdownUnderLock | engine/orchestration/src/org/apache/cloudstack/engine/orchestration/NetworkOrchestrator.java:2179-2246 | The held section of shutdownNetwork |
| NetworkLifecycle.Network.ImplementNetwork | engine/orchestration/src/org/apache/cloudstack/engine/orchestration/NetworkOrchestrator.java:983-1082 | The new row and result are those of implementNetwork's specification, and the lock count is restored |
| NetworkLifecycle.Network.ImplementGranted | engine/orchestration/src/org/apache/cloudstack/engine/orchestration/NetworkOrchestrator.java:995-1081 | implementNetwork once the lock is granted, including the release in the finally block |
| NetworkLifecycle.Network.AcquireLock | engine/orchestration/src/org/apache/cloudstack/engine/orchestration/NetworkOrchestrator.java:995-1006 | One more hold, and the row as re-read under the lock |
| NetworkLifecycle.Network.ReleaseLock | engine/orchestration/src/org/apache/cloudstack/engine/orchestration/NetworkOrchestrator.java:1077 | One hold fewer |
| NetworkLifecycle.Network.ImplementWithLock | engine/orchestration/src/org/apache/cloudstack/engine/orchestration/NetworkOrchestrator.java:1008-1075 | The try block and the finally block's rollback |
| NetworkLifecycle.Network.ImplementUnderLock | engine/orchestration/src/org/apache/cloudstack/engine/orchestration/NetworkOrchestrator.java:1008-1054 | The try block of implementNetwork |
| NetworkLifecycle.Network.RollBack | engine/orchestration/src/org/apache/cloudstack/engine/orchestration/NetworkOrchestrator.java:1055-1075 | The failure state, then shutdownNetwork under the held lock |
| NetworkLifecycle.Network.DestroyNetwork | engine/orchestration/src/org/apache/cloudstack/engine/orchestration/NetworkOrchestrator.java:2315-2452 | The new row and result are those of destroyNetwork's specification |
| NetworkLifecycle.ImplementOutcomes | engine/orchestration/src/org/apache/cloudstack/engine/orchestration/NetworkOrchestrator.java:983-1082 | An implemented network is returned untouched. A timed-out lock changes nothing. Otherwise the attempt succeeds exactly when the state machine has the path, the provider answers and all elements implement; the row then carries this reservation id and the provider's layout. Every outcome releases the lock |
| NetworkLifecycle.ImplementIdempotent | engine/orchestration/src/org/apache/cloudstack/engine/orchestration/NetworkOrchestrator.java:983-1082 | A successful implement ends Implemented, and implementing again changes nothing |
| NetworkLifecycle.FailedImplementRollsBack | engine/orchestration/src/org/apache/cloudstack/engine/orchestration/NetworkOrchestrator.java:1055-1075 | Under any state-machine table, implement fails exactly when the attempt fails. The row is then what shutdownNetwork makes of the attempt's row in its failure state: Shutdown for a shared-with-services network, else OperationFailed's target, else unchanged |
| NetworkLifecycle.FailedImplementUsualTable | engine/orchestration/src/org/apache/cloudstack/engine/orchestration/NetworkOrchestrator.java:1055-1075 | Under the usual table, an Allocated network whose implement fails is rolled back through Shutdown. It ends Allocated with the collector flag cleared when the rollback's elements shut down, and Implemented otherwise |
| NetworkLifecycle.SharedRollbackShutsDown | engine/orchestration/src/org/apache/cloudstack/engine/orchestration/NetworkOrchestrator.java:1055-1075 | A shared-with-services network's rollback shuts it down: the result is the elements' success; a success ends Setup with the profile's layout and the collector flag cleared; a failure follows OperationFailed or ends Implemented |
| NetworkLifecycle.ShutdownOutcomes | engine/orchestration/src/org/apache/cloudstack/engine/orchestration/NetworkOrchestrator.java:2156-2255 | An Allocated network is reported shut down and left alone. Networks in other states, or with a timed-out lock, are refused. Otherwise the result is the elements' aggregate success, and a success ends in Setup or Allocated |
| NetworkLifecycle.ShutdownFallbacks | engine/orchestration/src/org/apache/cloudstack/engine/orchestration/NetworkOrchestrator.java:2179-2240 | Under any table: on success (outside the shared-with-services Advanced case) the network follows OperationSucceeded, or ends Allocated with restartRequired cleared when the table rejects it; on failure it follows OperationFailed, or ends Implemented when that is rejected |
| NetworkLifecycle.DestroyOutcomes | engine/orchestration/src/org/apache/cloudstack/engine/orchestration/NetworkOrchestrator.java:2315-2459 | A network is removed only when all of the following hold:<br>- its user VMs are expunged;<br>- the cleanup, every element's destroy and the VLAN deletion succeed;<br>- it was shut down to Allocated or Setup, unless forced.<br>The account counter drops exactly for networks that count against it |
| NetworkLifecycle.SetupNetwork | engine/orchestration/src/org/apache/cloudstack/engine/orchestration/NetworkOrchestrator.java:629-724 | The design loop computes setupNetwork's specification |
| NetworkLifecycle.SetupOutcomes | engine/orchestration/src/org/apache/cloudstack/engine/orchestration/NetworkOrchestrator.java:622-724 | Existing networks are returned when found. Otherwise there is one persisted network for each design provider that does not decline, in provider order: a reused predefined network for an existing design, else a new row with the next sequence id, all related to the first. The list is never empty. Under the lock, with no existing network returned, no network is designed exactly when every provider declines. A new design without a predefined network fails |
| NetworkLifecycle.DesignedCovers | engine/orchestration/src/org/apache/cloudstack/engine/orchestration/NetworkOrchestrator.java:665-708 | The design loop from any provider on keeps the networks already recorded and adds one record per provider that does not decline, matching that provider's design |
| NetworkLifecycle.DesignedNoneNeedsNew | engine/orchestration/src/org/apache/cloudstack/engine/orchestration/NetworkOrchestrator.java:665-708 | The design loop fails only on a new design met without a predefined network |
| NetworkGc.ShutdownListMembers | engine/orchestration/src/org/apache/cloudstack/engine/orchestration/NetworkOrchestrator.java:2504-2534 | A network is shut down exactly when it is a ready candidate seen idle before and its wait has elapsed |
| NetworkGc.ReallyRun | engine/orchestration/src/org/apache/cloudstack/engine/orchestration/NetworkOrchestrator.java:2502-2561 | The pass's loop computes the shutdown list and the next first-idle map |
| NetworkGc.RecordedTimeStartsIdleRun | engine/orchestration/src/org/apache/cloudstack/engine/orchestration/NetworkOrchestrator.java:2504-2534 | The recorded time is that of the pass that began the network's current unbroken idle run |
| NetworkGc.ShutdownOnlyAfterWait | engine/orchestration/src/org/apache/cloudstack/engine/orchestration/NetworkOrchestrator.java:2504-2534 | A network is shut down only after an unbroken idle run at least `wait` long, and never on its first idle pass |
| NetworkGc.IdleNetworkKeepsFirstTime | engine/orchestration/src/org/apache/cloudstack/engine/orchestration/NetworkOrchestrator.java:2504-2534 | An idle network keeps its first idle time while the wait has not elapsed |
| NetworkGc.ShutdownOnFirstDuePass | engine/orchestration/src/org/apache/cloudstack/engine/orchestration/NetworkOrchestrator.java:2504-2534 | An idle network is shut down on the first pass at which its wait has elapsed |
| Ovf.WrapLong | services/secondary-storage/server/src/org/apache/cloudstack/storage/resource/OVFHelper.java:96-108 | The result is in the long range, and equal to the input modulo 2^64 |
| Ovf.ParseLong | services/secondary-storage/server/src/org/apache/cloudstack/storage/resource/OVFHelper.java:69 | Accepts exactly a sign and decimal digits whose value fits a long |
| Ovf.ParentOf | services/secondary-storage/server/src/org/apache/cloudstack/storage/resource/OVFHelper.java:155-183 | Finds the first item whose trimmed instance id is the item's last rasd:Parent |
| Ovf.FindHost | services/secondary-storage/server/src/org/apache/cloudstack/storage/resource/OVFHelper.java:133-141 | Finds the first item with a host resource naming the disk as file or as disk |
| Ovf.ControllerType | services/secondary-storage/server/src/org/apache/cloudstack/storage/resource/OVFHelper.java:132-153 | The bounded walk computes getControllerType's specification |
| Ovf.ParentWalkEndsIffAcyclic | services/secondary-storage/server/src/org/apache/cloudstack/storage/resource/OVFHelper.java:142-146 | The walk bounded by the number of items finds no end exactly when the source's unbounded loop never ends |
| Ovf.AcceptedEntries | services/secondary-storage/server/src/org/apache/cloudstack/storage/resource/OVFHelper.java:59-78 | Keeps exactly the File entries ending in vmdk or iso, in order |
| Ovf.CollectFiles | services/secondary-storage/server/src/org/apache/cloudstack/storage/resource/OVFHelper.java:58-78 | The File loop with its toggle computes the file specification |
| Ovf.ReadFilesProperties | services/secondary-storage/server/src/org/apache/cloudstack/storage/resource/OVFHelper.java:58-78 | Keeps the accepted entries in order. The first is bootable and no other is. An entry is iso exactly when its href ends in iso. The loop fails exactly on a bad size |
| Ovf.ScaleRules | services/secondary-storage/server/src/org/apache/cloudstack/storage/resource/OVFHelper.java:96-108 | Zero is never scaled. The multiplier is 1, 2^10, 2^20 or 2^30 by unit name in any case. A product that fits a long is exact |
| Ovf.MultiplierIgnoresCase | services/secondary-storage/server/src/org/apache/cloudstack/storage/resource/OVFHelper.java:99-105 | Unit names that differ only in letter case select the same multiplier |
| Ovf.CollectDisks | services/secondary-storage/server/src/org/apache/cloudstack/storage/resource/OVFHelper.java:79-111 | The Disk loop computes the disk specification |
| Ovf.ReadDisksProperties | services/secondary-storage/server/src/org/apache/cloudstack/storage/resource/OVFHelper.java:79-111 | Reads every entry in order, and fails exactly when some entry fails |
| Ovf.ReadDiskRules | services/secondary-storage/server/src/org/apache/cloudstack/storage/resource/OVFHelper.java:80-110 | An absent capacity is zero and a nonzero one is scaled. The populated size is required. The controller is the top of the chain above the hosting item |
| Ovf.FindDisk | services/secondary-storage/server/src/org/apache/cloudstack/storage/resource/OVFHelper.java:277-284 | Finds the first disk whose fileRef is the id, or none when no disk has it |
| Ovf.GetDisk | services/secondary-storage/server/src/org/apache/cloudstack/storage/resource/OVFHelper.java:277-284 | The scan returns the first match |
| Ovf.BuildDataDisks | services/secondary-storage/server/src/org/apache/cloudstack/storage/resource/OVFHelper.java:118-129 | The output loop computes the record specification |
| Ovf.DataDisksProperties | services/secondary-storage/server/src/org/apache/cloudstack/storage/resource/OVFHelper.java:118-129 | Makes one record per accepted file, in order, and fails exactly when one fails |
| Ovf.ToDataDiskRules | services/secondary-storage/server/src/org/apache/cloudstack/storage/resource/OVFHelper.java:120-128 | The path is the directory, "/" and the href. Without a disk, the record has the file size and no controller. With a disk, it has the disk's capacity and controller. A disk without a controller is an error |
| Ovf.GetOvfVolumeInfo | services/secondary-storage/server/src/org/apache/cloudstack/storage/resource/OVFHelper.java:46-130 | Computes getOVFVolumeInfo's specification |
| Ovf.VolumeInfoOutcomes | services/secondary-storage/server/src/org/apache/cloudstack/storage/resource/OVFHelper.java:46-130 | Gives null exactly for a null or empty path. Otherwise gives one record per accepted entry, in order, in the descriptor's directory. The first record is bootable and no other is. iso follows the href, and the file size is the file's own |
| Ovf.KeepFile | services/secondary-storage/server/src/org/apache/cloudstack/storage/resource/OVFHelper.java:212-223 | Finds the id of the last File entry whose href is the disk name, or none when there is no such entry |
| Ovf.KeepDisk | services/secondary-storage/server/src/org/apache/cloudstack/storage/resource/OVFHelper.java:224-238 | Finds the disk id of the last Disk entry referring to the kept file |
| Ovf.ItemRemovals | services/secondary-storage/server/src/org/apache/cloudstack/storage/resource/OVFHelper.java:239-253 | An item is removed exactly when one of its host resources does not name the kept disk |
| Ovf.SelectRemovals | services/secondary-storage/server/src/org/apache/cloudstack/storage/resource/OVFHelper.java:212-253 | The three selection loops compute the removal list |
| Ovf.RewriteOvfFile | services/secondary-storage/server/src/org/apache/cloudstack/storage/resource/OVFHelper.java:204-275 | Gives the descriptor without the selected elements, or an error when it cannot be parsed |
| Ovf.RewriteKeeps | services/secondary-storage/server/src/org/apache/cloudstack/storage/resource/OVFHelper.java:204-275 | Keeps exactly:<br>- the named File entries;<br>- the Disks referring to the kept file (all Disks when no file is kept);<br>- the Items whose host resources all name the kept disk |
| ConfigDrive.Implement | server/src/com/cloud/network/element/ConfigDriveNetworkElement.java:119-123 | Accepts exactly for Guest traffic |
| ConfigDrive.ShutdownOrDestroy | server/src/com/cloud/network/element/ConfigDriveNetworkElement.java:153-161 | Always succeeds |
| ConfigDrive.Release | server/src/com/cloud/network/element/ConfigDriveNetworkElement.java:131-151 | A non-default NIC is released without a storage call. For the default NIC, the element asks to delete the ISO and fails when no endpoint is available |
| ConfigDrive.SaveVmSecret | server/src/com/cloud/network/element/ConfigDriveNetworkElement.java:207-238 | Refuses a running VM. Otherwise answers whether the traffic is Guest |
| ConfigDrive.Capabilities | server/src/com/cloud/network/element/ConfigDriveNetworkElement.java:168-177 | Offers only the UserData service, with no capability values |
| ConfigDrive.ConfigDriveDiskOnce | server/src/com/cloud/network/element/ConfigDriveNetworkElement.java:337-357 | Existing disks are kept and the ISO disk is appended only when missing. The path is then held exactly once, and a second call changes nothing |
| ConfigDrive.VmProfile.constructor | server/src/com/cloud/network/element/ConfigDriveNetworkElement.java:337-357 | A profile with the given name, uuid, state and disks |
| ConfigDrive.VmProfile.AddConfigDriveDisk | server/src/com/cloud/network/element/ConfigDriveNetworkElement.java:337-357 | The disks become those of the disk specification |
| ConfigDrive.VmProfile.PrepareMigration | server/src/com/cloud/network/element/ConfigDriveNetworkElement.java:282-291 | For the default NIC with ConfigDrive user data, the ISO disk is attached and the answer is false. Otherwise nothing changes and the answer is true |
| ConfigDrive.VmProfile.CreateConfigDriveIso | server/src/com/cloud/network/element/ConfigDriveNetworkElement.java:301-335 | Refuses a running VM. Otherwise the endpoint must exist and accept the ISO, and the ISO disk is then attached |
| ConfigDrive.VmProfile.AddPasswordAndUserdata | server/src/com/cloud/network/element/ConfigDriveNetworkElement.java:199-205 | Applies to Guest traffic and User VMs only, then creates the ISO |
| ConfigDrive.UserDataDelivery | server/src/com/cloud/network/element/ConfigDriveNetworkElement.java:199-205 | The drive is delivered exactly to a stopped User VM on a guest network whose store accepts the ISO |
| ConfigDrive.ShutdownNeverBlamed | server/src/com/cloud/network/element/ConfigDriveNetworkElement.java:153-161 | In the orchestrator's shutdown loop, success depends only on the other elements |
| ConfigDrive.ImplementRefusesOnlyOffGuest | server/src/com/cloud/network/element/ConfigDriveNetworkElement.java:119-123 | The element stops the implement loop only when the offering is not Guest |

## Left out

- **Excluded operations.** These are outside the core:
  - configure and processConnect;
  - the VM migration paths of the orchestrator;
  - createGuestNetwork validation;
  - the message bus;
  - resource-limit accounting;
  - event publishing (postStateTransitionEvent).
- **Concurrency and persistence.** These are not modelled:
  - the GC scheduled executor and its global lock (a pass is modelled as one call);
  - DB transactions (each is one atomic step);
  - the soft delete of a NIC row (modelled as removal).
- **Opaque collaborator results.** These become boolean answers:
  - the network state machine table (an abstract map);
  - rule reprogramming, where a throw is treated like a false answer;
  - each element's completeAggregatedExecution, where a throw is treated like a false answer (both end the try block with an exception that implementNetwork does not catch);
  - resource cleanup;
  - shutdown of network resources;
  - VLAN deletion.
- ProviderDispatch.ImplementElementsAndResources: an element whose implement, prepareAggregatedExecution or cleanupAggregatedExecution throws is taken to throw a checked exception (ResourceUnavailableException and the like), which implementNetwork does not catch. An element that throws a CloudRuntimeException itself would be caught there and turned into a null result; the model does not tell the two kinds of throw apart.
- NicStore.ReleaseNic: the elements' release calls that follow the committed row update are represented only by the `notifyElements` flag. An element whose release throws (ConcurrentOperationException, ResourceUnavailableException) skips the elements after it and leaves releaseNic with that exception; the model has no such outcome. The rows and counts are the same either way, since they are committed before the elements are called.
- **removeNic's DHCP subnet cleanup.** This path is not part of this model.
- **Inside setupNetwork's persist step:**
  - finalizeServicesAndProvidersForNetwork is modelled separately, and setupNetwork does not call it;
  - an UnsupportedServiceException raised there is not modelled;
  - domain ACL rows are not modelled;
  - finalizeNetworkDesign is not modelled.
- **setupNetwork without a predefined network.** The overload without a predefined network passes null. The check of existing networks short-circuits on the null, but a new design then fails inside the persist transaction, where the new row reads the network domain of that null. The model reports this as `PredefinedMissing`.
- **OVF XML parsing and output.** Parsing the XML (DOM), the Transformer and writing the output file become a parsed `Descriptor` value, or None when the file cannot be read.
- **Ovf.ParseLong.** It accepts ASCII digits only. Java also accepts other Unicode decimal digits.
- **Ovf.EqualsIgnoreCase.** It folds ASCII letters only.
- **rewriteOVFFile with a null disk name.** This is not modelled. The disk name is always a string.
- **OVF absent attributes.** The DOM returns "" for an absent attribute. As a result, the `allocationUnits != null` test is always true. An absent populatedSize is a NumberFormatException, reported as an error.
- **OVF cyclic parent chains.** In the source, a cyclic rasd:Parent chain loops forever. The model's walk is bounded and reports `ParentCycle` instead. `Ovf.ParentWalkEndsIffAcyclic` proves that this is exactly the never-ending case.
- **OVF record path.** A descriptor path without a parent directory yields a record path beginning with "null". The separator is modelled as "/".
- **configureConfigDriveData.** Its DAO lookups are left out. Only its User-VM check is modelled.
- **createConfigDriveIso's lookups.** The host and log lookups are left out, including the failure when a VM's host is missing.
- **Building and transferring the ISO.** Both are storage answers (`endpointAvailable`, `created`).
- **ConfigDrive.Release.** The delete command is modelled on the path "/" + the ISO path. Attach and create use the ISO path without the leading "/". The model keeps this difference as the source has it.

## Findings

| source | as written | input that shows it | evidently intended | confidence | as-written member | corrected member |
|---|---|---|---|---|---|---|
| engine/orchestration/src/org/apache/cloudstack/engine/orchestration/NetworkOrchestrator.java:781 | The device id guard is `devId > deviceIds.length` | A batch of one NIC whose design provider returns device id 1 (or -1). It passes the guard, and `deviceIds[1]` (or `deviceIds[-1]`) on a one-entry array is out of bounds | rejecting `devId < 0` as well as `devId >= deviceIds.length`, so every id that is not an index is rejected | not executed | NicAllocation.AsWrittenGuardAdmitsOutOfRange | NicAllocation.AllocateProperties |
