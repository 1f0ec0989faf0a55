/**
 * The ConfigDrive network element: the provider of the UserData service
 * that hands a VM its user data, password and SSH key on an ISO disk
 * built on secondary storage. Its decisions are local: it serves guest
 * traffic only, refuses to change a running VM's data, leaves non-default
 * NICs alone, and attaches the config drive ISO to a VM profile at most
 * once.
 *
 * Secondary storage is reached through an endpoint that may be missing;
 * whether one exists and what it answers are parameters.
 */
module ConfigDrive {
  import opened Base
  import PD = ProviderDispatch

  /** ConfigDrive.CONFIGDRIVEDIR and ConfigDrive.CONFIGDRIVEFILENAME. */
  const CONFIG_DRIVE_DIR: string := "configdrive"
  const CONFIG_DRIVE_FILENAME: string := "configdrive.iso"

  /** The disk sequence number of the config drive disk. */
  const CONFIG_DRIVE_DISK_SEQ: int := 4

  /** The provider name the element registers under. */
  const PROVIDER: string := "ConfigDrive"

  /** The element as the orchestrator's dispatch sees it; it does not batch commands. */
  const ELEMENT: PD.Element := PD.Element(PROVIDER, false)

  datatype VmState = Running | Stopped | OtherVmState

  datatype VolumeType = Iso | Root | DataDisk

  /** DiskTO: the path, the device sequence number, the volume type and the uuid of the VM it belongs to. */
  datatype DiskTo = DiskTo(path: string, diskSeq: int, volumeType: VolumeType, ownerUuid: string)

  /** Where the config drive ISO of a VM lives on secondary storage, relative to the store. */
  function IsoPath(instanceName: string): string
  {
    CONFIG_DRIVE_DIR + "/" + instanceName + "/" + CONFIG_DRIVE_FILENAME
  }

  /** canHandle: only guest traffic. */
  predicate CanHandle(traffic: TrafficType)
  {
    traffic == Guest
  }

  /** implement: the element serves networks whose offering carries guest traffic. */
  function Implement(offeringTraffic: TrafficType): (r: bool)
    ensures r <==> offeringTraffic == Guest
  {
    CanHandle(offeringTraffic)
  }

  /** shutdown and destroy leave the clean-up to the agent and always succeed. */
  function ShutdownOrDestroy(): (r: PD.ElementAnswer)
    ensures r.Succeeded?
  {
    PD.Succeeded
  }

  /** A call the element makes to secondary storage. */
  datatype StorageCall = NoCall | DeleteIso(path: string)

  /**
   * release: a non-default NIC is released at once; for the default NIC
   * the element asks secondary storage to delete the ISO, and fails when
   * no endpoint for the store is available.
   */
  function Release(isDefaultNic: bool, instanceName: string, endpointAvailable: bool, deleted: bool):
    (r: (bool, StorageCall))
    ensures !isDefaultNic ==> r == (true, NoCall)
    ensures isDefaultNic && !endpointAvailable ==> r == (false, NoCall)
    ensures isDefaultNic && endpointAvailable ==> r == (deleted, DeleteIso("/" + IsoPath(instanceName)))
  {
    if !isDefaultNic then (true, NoCall)
    else if !endpointAvailable then (false, NoCall)
    else (deleted, DeleteIso("/" + IsoPath(instanceName)))
  }

  /** Saving a password, SSH key or user data while the VM runs throws CloudRuntimeException. */
  datatype SaveOutcome = Saved(result: bool) | VmMustBeStopped

  /**
   * savePassword, saveSSHKey and saveUserData (the same guard): refuse a
   * running VM (vmState None is a null profile), otherwise answer whether
   * the network carries guest traffic.
   */
  function SaveVmSecret(vmState: Option<VmState>, traffic: TrafficType): (r: SaveOutcome)
    ensures r == VmMustBeStopped <==> vmState == Some(Running)
    ensures r.Saved? ==> (r.result <==> traffic == Guest)
  {
    if vmState.Some? && vmState.value == Running then VmMustBeStopped
    else Saved(CanHandle(traffic))
  }

  /** getCapabilities: the UserData service, with no capability values. */
  function Capabilities(): (r: map<string, Option<map<string, string>>>)
    ensures r.Keys == {PD.UserData} && r[PD.UserData].None?
  {
    map[PD.UserData := None]
  }

  /** The disks of the profile after addConfigDriveDisk. */
  function WithConfigDriveDisk(disks: seq<DiskTo>, instanceName: string, uuid: string): seq<DiskTo>
  {
    if exists i :: 0 <= i < |disks| && disks[i].path == IsoPath(instanceName) then disks
    else disks + [DiskTo(IsoPath(instanceName), CONFIG_DRIVE_DISK_SEQ, Iso, uuid)]
  }

  /** The number of disks at the path. */
  function CountAt(disks: seq<DiskTo>, path: string): nat
  {
    if |disks| == 0 then 0
    else CountAt(disks[..|disks| - 1], path) + (if disks[|disks| - 1].path == path then 1 else 0)
  }

  lemma {:induction false} CountAtZero(disks: seq<DiskTo>, path: string)
    ensures CountAt(disks, path) == 0 <==> forall i :: 0 <= i < |disks| ==> disks[i].path != path
  {
    if |disks| > 0 {
      var init := disks[..|disks| - 1];
      CountAtZero(init, path);
      assert forall i :: 0 <= i < |init| ==> init[i] == disks[i];
    }
  }

  /**
   * addConfigDriveDisk keeps the profile's disks as they are and appends
   * the config drive ISO disk only when no disk has its path, so the path
   * is then held by exactly one disk, and a second call changes nothing.
   */
  lemma ConfigDriveDiskOnce(disks: seq<DiskTo>, instanceName: string, uuid: string)
    ensures var after := WithConfigDriveDisk(disks, instanceName, uuid);
            var path := IsoPath(instanceName);
            after[..|disks|] == disks
            && CountAt(after, path) == (if CountAt(disks, path) == 0 then 1 else CountAt(disks, path))
            && (CountAt(disks, path) == 0 ==> after[|disks|] == DiskTo(path, CONFIG_DRIVE_DISK_SEQ, Iso, uuid))
            && WithConfigDriveDisk(after, instanceName, uuid) == after
  {
    var path := IsoPath(instanceName);
    CountAtZero(disks, path);
    if CountAt(disks, path) == 0 {
      ConfigDriveDiskAppended(disks, instanceName, uuid);
    } else {
      assert WithConfigDriveDisk(disks, instanceName, uuid) == disks;
    }
  }

  /** With no disk at the ISO path, the ISO disk is appended and is then the only disk there. */
  lemma ConfigDriveDiskAppended(disks: seq<DiskTo>, instanceName: string, uuid: string)
    requires forall i :: 0 <= i < |disks| ==> disks[i].path != IsoPath(instanceName)
    ensures var after := WithConfigDriveDisk(disks, instanceName, uuid);
            after == disks + [DiskTo(IsoPath(instanceName), CONFIG_DRIVE_DISK_SEQ, Iso, uuid)]
            && CountAt(after, IsoPath(instanceName)) == 1
            && WithConfigDriveDisk(after, instanceName, uuid) == after
  {
    var path := IsoPath(instanceName);
    var after := disks + [DiskTo(path, CONFIG_DRIVE_DISK_SEQ, Iso, uuid)];
    assert after[..|disks|] == disks;
    CountAtZero(disks, path);
    assert after[|disks|].path == path;
  }

  /** The part of a VirtualMachineProfile the element reads and changes. */
  class VmProfile {
    const instanceName: string
    const uuid: string
    const state: VmState
    var disks: seq<DiskTo>

    constructor(instanceName: string, uuid: string, state: VmState, disks: seq<DiskTo>)
      ensures this.instanceName == instanceName && this.uuid == uuid && this.state == state && this.disks == disks
    {
      this.instanceName := instanceName;
      this.uuid := uuid;
      this.state := state;
      this.disks := disks;
    }

    /** addConfigDriveDisk: look for a disk at the ISO path; append the ISO disk when there is none. */
    method AddConfigDriveDisk()
      modifies this
      ensures disks == WithConfigDriveDisk(old(disks), instanceName, uuid)
    {
      var isoAvailable := false;
      var isoPath := IsoPath(instanceName);
      var i := 0;
      while i < |disks|
        invariant 0 <= i <= |disks|
        invariant !isoAvailable
        invariant forall j :: 0 <= j < i ==> disks[j].path != isoPath
      {
        if disks[i].path == isoPath {
          isoAvailable := true;
          break;
        }
        i := i + 1;
      }
      if !isoAvailable {
        disks := disks + [DiskTo(isoPath, CONFIG_DRIVE_DISK_SEQ, Iso, uuid)];
      }
    }

    /**
     * prepareMigration: for the default NIC of a network whose user data
     * provider is ConfigDrive, attach the ISO disk and answer false;
     * otherwise answer true and change nothing.
     */
    method PrepareMigration(isDefaultNic: bool, userDataByConfigDrive: bool) returns (r: bool)
      modifies this
      ensures r <==> !(isDefaultNic && userDataByConfigDrive)
      ensures disks == if r then old(disks) else WithConfigDriveDisk(old(disks), instanceName, uuid)
    {
      if isDefaultNic && userDataByConfigDrive {
        AddConfigDriveDisk();
        return false;
      }
      return true;
    }

    /**
     * createConfigDriveIso: refused for a running VM; otherwise the store's
     * endpoint must exist and accept the ISO, after which the ISO disk is
     * attached.
     */
    method CreateConfigDriveIso(endpointAvailable: bool, created: bool) returns (r: IsoOutcome)
      modifies this
      ensures r == IsoSpec(state, endpointAvailable, created)
      ensures disks == if r == IsoCreated then WithConfigDriveDisk(old(disks), instanceName, uuid) else old(disks)
    {
      if state == Running {
        return VmRunning;
      }
      if !endpointAvailable {
        return StoreUnavailable;
      }
      if !created {
        return IsoCreationFailed;
      }
      AddConfigDriveDisk();
      return IsoCreated;
    }

    /**
     * addPasswordAndUserdata: guest traffic only, a User VM only (the
     * configuration of the VM data), then the ISO is created.
     */
    method AddPasswordAndUserdata(traffic: TrafficType, vmType: VmType, endpointAvailable: bool, created: bool)
      returns (r: UserDataOutcome)
      modifies this
      ensures r == UserDataSpec(traffic, vmType, state, endpointAvailable, created)
      ensures disks == if r == Delivered then WithConfigDriveDisk(old(disks), instanceName, uuid) else old(disks)
    {
      if !CanHandle(traffic) || vmType != User {
        return NotDelivered;
      }
      var iso := CreateConfigDriveIso(endpointAvailable, created);
      if iso != IsoCreated {
        return IsoFailed(iso);
      }
      return Delivered;
    }
  }

  datatype IsoOutcome =
    | IsoCreated
    | VmRunning           // CloudRuntimeException
    | StoreUnavailable    // ResourceUnavailableException: no endpoint for the store
    | IsoCreationFailed   // ResourceUnavailableException: the store refused the ISO

  function IsoSpec(state: VmState, endpointAvailable: bool, created: bool): IsoOutcome
  {
    if state == Running then VmRunning
    else if !endpointAvailable then StoreUnavailable
    else if !created then IsoCreationFailed
    else IsoCreated
  }

  datatype UserDataOutcome = Delivered | NotDelivered | IsoFailed(failure: IsoOutcome)

  function UserDataSpec(traffic: TrafficType, vmType: VmType, state: VmState, endpointAvailable: bool, created: bool):
    UserDataOutcome
  {
    if !CanHandle(traffic) || vmType != User then NotDelivered
    else
      var iso := IsoSpec(state, endpointAvailable, created);
      if iso == IsoCreated then Delivered else IsoFailed(iso)
  }

  /**
   * The config drive is delivered exactly to a stopped User VM on a guest
   * network when the store accepts the ISO; a running VM is refused before
   * the store is asked.
   */
  lemma UserDataDelivery(traffic: TrafficType, vmType: VmType, state: VmState, endpointAvailable: bool, created: bool)
    ensures UserDataSpec(traffic, vmType, state, endpointAvailable, created) == Delivered
            <==> traffic == Guest && vmType == User && state != Running && endpointAvailable && created
    ensures traffic == Guest && vmType == User && state == Running ==>
              UserDataSpec(traffic, vmType, state, endpointAvailable, created) == IsoFailed(VmRunning)
  {
  }

  /**
   * In the orchestrator's shutdown and destroy loops the element's answer
   * never fails the network: the loop succeeds iff every other element of
   * the network's providers succeeds.
   */
  lemma ShutdownNeverBlamed(elements: seq<PD.Element>, providers: seq<string>, answers: seq<PD.ElementAnswer>, k: nat)
    requires |answers| == |elements| && k < |elements| && elements[k] == ELEMENT
    requires answers[k] == ShutdownOrDestroy()
    ensures PD.AllSucceeded(elements, providers, answers)
            <==> forall i :: 0 <= i < |elements| && i != k && PD.InScope(elements[i], providers) ==> answers[i] == PD.Succeeded
  {
  }

  /**
   * In the orchestrator's implement loop the element stops the loop by
   * refusing only when the offering does not carry guest traffic.
   */
  lemma ImplementRefusesOnlyOffGuest(elements: seq<PD.Element>, providers: seq<string>, enabled: seq<bool>,
                                     accepted: seq<bool>, k: nat, offeringTraffic: TrafficType)
    requires |enabled| == |elements| == |accepted| && k < |elements| && elements[k] == ELEMENT
    requires accepted[k] == Implement(offeringTraffic)
    ensures var f := PD.FirstFailure(elements, providers, enabled, accepted, 0);
            f.Some? && f.value == PD.ElementRefused(k) ==> offeringTraffic != Guest
  {
  }
}
