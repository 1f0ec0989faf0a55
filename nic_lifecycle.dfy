/**
 * The NIC reservation lifecycle of the network orchestrator: prepareNic,
 * releaseNic, removeNic, savePlaceholderNic and the shared updateNic, over
 * a table of NIC rows, the per-network count of active NICs, the set of
 * networks flagged for garbage collection, the NICs' secondary addresses
 * and the VM-to-network map.
 *
 * Each operation is a method of NicStore that changes the table step by
 * step as the source does, proved equal to a function on a snapshot of the
 * table (Db); the lifecycle properties are lemmas about those functions.
 * The design provider's reserve and release answers and the network
 * elements' answers are parameters.
 */
module NicLifecycle {

  import opened Base
  import opened NicAllocation
  import PD = ProviderDispatch

  /** A snapshot of the rows the NIC lifecycle reads and writes. */
  datatype Db = Db(
    nics: map<int, Nic>,             // live NIC rows by id
    activeNics: map<int, int>,       // active-NIC count per network (absent: 0)
    checkForGc: set<int>,            // networks flagged for the idle-network collector
    secondaryIps: map<int, int>,     // secondary address row id -> its NIC id
    vmNetworks: set<(int, int)>)     // (VM id, network id) rows of the VM-to-network map

  /** The active-NIC count of a network. */
  function Active(db: Db, networkId: int): int
  {
    if networkId in db.activeNics then db.activeNics[networkId] else 0
  }

  /** updateNic flags the network for collection for User VMs, and for routers on Guest networks. */
  predicate FlagsGc(nic: Nic, traffic: TrafficType)
  {
    nic.vmType == Some(User) || (nic.vmType == Some(DomainRouter) && traffic == Guest)
  }

  /**
   * updateNic: store the row; change the network's active-NIC count by
   * `count` only when the NIC belongs to a User VM; flag the network for
   * collection as FlagsGc says. Nothing else changes.
   */
  function AfterUpdateNic(db: Db, nicId: int, nic: Nic, count: int, traffic: TrafficType): (r: Db)
    ensures r.nics == db.nics[nicId := nic]
    ensures Active(r, nic.networkId) == Active(db, nic.networkId) + (if nic.vmType == Some(User) then count else 0)
    ensures forall n :: n != nic.networkId ==> Active(r, n) == Active(db, n)
    ensures r.checkForGc == if FlagsGc(nic, traffic) then db.checkForGc + {nic.networkId} else db.checkForGc
    ensures r.secondaryIps == db.secondaryIps && r.vmNetworks == db.vmNetworks
  {
    var net := nic.networkId;
    db.(nics := db.nics[nicId := nic],
        activeNics := if nic.vmType == Some(User) then db.activeNics[net := Active(db, net) + count] else db.activeNics,
        checkForGc := if FlagsGc(nic, traffic) then db.checkForGc + {net} else db.checkForGc)
  }

  // ---------------------------------------------------------------------
  // prepareNic
  // ---------------------------------------------------------------------

  datatype PrepareResult =
    | PrepareOk(profile: Nic)
    | PrepareNicMissing                              // the row lookup returned null
    | ReserveFailed                                  // the design provider's reserve threw
    | PrepareElementFailed(failure: PD.ElementFailure) // CloudRuntimeException / InsufficientAddressCapacityException

  /** The row after the design provider reserved it: addresses and URIs from its profile, state Reserved. */
  function ApplyReservation(nic: Nic, p: NicProfile): (r: Nic)
    ensures r.state == Reserved && r.networkId == nic.networkId && r.vmType == nic.vmType
    ensures r.deviceId == nic.deviceId && r.isDefault == nic.isDefault && r.reservationId == nic.reservationId
    ensures r.strategy == if p.strategy.Some? then p.strategy else nic.strategy
  {
    nic.(ipv4 := p.ipv4, ipv6 := p.ipv6, mac := p.mac, isolationUri := p.isolationUri,
         broadcastUri := p.broadcastUri, state := Reserved,
         strategy := if p.strategy.Some? then p.strategy else nic.strategy)
  }

  /**
   * prepareNic: a Start-strategy NIC is stored as Reserving with the
   * reservation id, then reserved by the design provider (a failing
   * reserve leaves it Reserving); any other NIC goes straight to Reserved.
   * Either way updateNic counts it (+1); only then are the network's
   * elements asked to prepare, and their failure does not undo the count.
   */
  function AfterPrepareNic(db: Db, nicId: int, reservationId: string, reserve: Option<NicProfile>, traffic: TrafficType,
                           elements: seq<PD.Element>, providers: seq<string>, enabled: seq<bool>, accepted: seq<bool>):
    (Db, PrepareResult)
    requires |enabled| == |elements| == |accepted|
  {
    if nicId !in db.nics then (db, PrepareNicMissing)
    else
      var reserved := ReserveRow(db, nicId, reservationId, reserve, traffic);
      if reserved.1.None? then (reserved.0, ReserveFailed)
      else
        var failure := PD.FirstFailure(elements, providers, enabled, accepted, 0);
        (reserved.0, if failure.Some? then PrepareElementFailed(failure.value) else PrepareOk(reserved.1.value))
  }

  /** The row part of prepareNic: the reserved row, or None when the design provider's reserve failed. */
  function ReserveRow(db: Db, nicId: int, reservationId: string, reserve: Option<NicProfile>, traffic: TrafficType):
    (Db, Option<Nic>)
    requires nicId in db.nics
  {
    var nic := db.nics[nicId];
    var reserving := nic.(state := Reserving, reservationId := Some(reservationId));
    if nic.strategy == Some(Start) && reserve.None? then
      (db.(nics := db.nics[nicId := reserving]), None)
    else
      var reserved := if nic.strategy == Some(Start) then ApplyReservation(reserving, reserve.value) else nic.(state := Reserved);
      (AfterUpdateNic(db, nicId, reserved, 1, traffic), Some(reserved))
  }

  // ---------------------------------------------------------------------
  // releaseNic
  // ---------------------------------------------------------------------

  datatype ReleaseResult =
    | Released(notifyElements: bool)   // the elements are asked to release the NIC
    | ReleaseLockFailed                // the row lock returned null: ConcurrentOperationException

  /** applyProfileToNicForRelease: addresses and URIs from the released profile, strategy only when it has one. */
  function ApplyProfileToNicForRelease(vo: Nic, p: NicProfile): (r: Nic)
    ensures r.ipv4 == p.ipv4 && r.ipv6 == p.ipv6 && r.mac == p.mac
    ensures r.broadcastUri == p.broadcastUri && r.isolationUri == p.isolationUri
    ensures r.strategy == if p.strategy.Some? then p.strategy else vo.strategy
    ensures r.state == vo.state && r.networkId == vo.networkId && r.vmType == vo.vmType && r.deviceId == vo.deviceId
  {
    vo.(ipv4 := p.ipv4, ipv6 := p.ipv6, mac := p.mac,
        strategy := if p.strategy.Some? then p.strategy else vo.strategy,
        broadcastUri := p.broadcastUri, isolationUri := p.isolationUri)
  }

  /**
   * The part of releaseNic that depends on the NIC's state and strategy;
   * the boolean says whether the network's elements are asked to release it.
   */
  function ReleaseHeld(db: Db, nicId: int, release: Option<NicProfile>, traffic: TrafficType): (r: (Db, bool))
    requires nicId in db.nics
    ensures var nic := db.nics[nicId];
            var net := nic.networkId;
            var held := nic.state == Reserved || nic.state == Reserving;
            var start := nic.strategy == Some(Start);
            && r.0.nics.Keys == db.nics.Keys
            && (forall id :: id in db.nics && id != nicId ==> r.0.nics[id] == db.nics[id])
            && (forall n :: n != net ==> Active(r.0, n) == Active(db, n))
            && r.0.vmNetworks == db.vmNetworks && r.0.secondaryIps == db.secondaryIps
            && r.1 == (held && start)
            && (!held ==> r.0 == db)
            && (held && start && release.None? ==>
                  r.0.nics[nicId] == nic.(state := Releasing) && Active(r.0, net) == Active(db, net))
            && (held && start && release.Some? ==>
                  r.0.nics[nicId].state == NicAllocated
                  && Active(r.0, net) == Active(db, net) + (if nic.state == Reserved then CountDelta(nic, -1) else 0))
            && (held && !start ==>
                  r.0.nics[nicId] == nic.(state := NicAllocated) && Active(r.0, net) == Active(db, net) + CountDelta(nic, -1))
  {
    var nic := db.nics[nicId];
    var original := nic.state;
    if original != Reserved && original != Reserving then (db, false)
    else if nic.strategy != Some(Start) then (AfterUpdateNic(db, nicId, nic.(state := NicAllocated), -1, traffic), false)
    else
      var releasing := nic.(state := Releasing);
      var dbR := db.(nics := db.nics[nicId := releasing]);
      if release.None? then (dbR, true)
      else
        var freed := ApplyProfileToNicForRelease(releasing, release.value).(state := NicAllocated);
        if original == Reserved then (AfterUpdateNic(dbR, nicId, freed, -1, traffic), true)
        else (dbR.(nics := dbR.nics[nicId := freed]), true)
  }

  /**
   * releaseNic. `release` is the design provider's answer: the released
   * profile when it returned true, None when it returned false. A User
   * VM's entry for the network leaves the VM-to-network map.
   */
  function AfterReleaseNic(db: Db, vmId: int, vmType: VmType, nicId: int, release: Option<NicProfile>, traffic: TrafficType):
    (Db, ReleaseResult)
  {
    if nicId !in db.nics then (db, ReleaseLockFailed)
    else
      var held := ReleaseHeld(db, nicId, release, traffic);
      var net := db.nics[nicId].networkId;
      var db2 := if vmType == User then held.0.(vmNetworks := held.0.vmNetworks - {(vmId, net)}) else held.0;
      (db2, Released(held.1))
  }

  // ---------------------------------------------------------------------
  // removeNic and savePlaceholderNic
  // ---------------------------------------------------------------------

  datatype RemoveResult =
    | Removed(notifyElements: bool)   // a Create-strategy NIC is released on the elements
    | RemoveNicMissing                // the row lookup returned null

  /** The secondary address rows of a NIC. */
  function SecondaryIpsOf(db: Db, nicId: int): set<int>
  {
    set id | id in db.secondaryIps && db.secondaryIps[id] == nicId
  }

  /**
   * removeNic: a Start-strategy NIC not yet back in Allocated is released
   * first (a failure there is only logged); the row is then marked
   * Deallocating, removed, and its secondary addresses removed.
   */
  function AfterRemoveNic(db: Db, vmId: int, vmType: VmType, nicId: int, release: Option<NicProfile>, traffic: TrafficType):
    (Db, RemoveResult)
  {
    if nicId !in db.nics then (db, RemoveNicMissing)
    else
      var nic := db.nics[nicId];
      var db1 := if nic.strategy == Some(Start) && nic.state != NicAllocated
                 then AfterReleaseNic(db, vmId, vmType, nicId, release, traffic).0 else db;
      var db2 := db1.(nics := db1.nics - {nicId},
                      secondaryIps := WithoutNic(db1.secondaryIps, nicId, {}));
      (db2, Removed(nic.strategy == Some(Create)))
  }

  /** savePlaceholderNic: a PlaceHolder-strategy row for the network, born Reserved. */
  function PlaceholderNic(networkId: int, ipv4: Option<string>, ipv6: Option<string>, vmType: VmType): (r: Nic)
    ensures r.state == Reserved && r.strategy == Some(PlaceHolder) && r.networkId == networkId
    ensures r.ipv4 == ipv4 && r.ipv6 == ipv6 && r.vmType == Some(vmType)
  {
    NewNic(networkId, Some(vmType)).(ipv4 := ipv4, ipv6 := ipv6, strategy := Some(PlaceHolder), state := Reserved)
  }

  /** The secondary address rows that survive removing a NIC's rows, except those still pending. */
  function WithoutNic(rows: map<int, int>, nicId: int, pending: set<int>): map<int, int>
  {
    map id | id in rows && (rows[id] != nicId || id in pending) :: rows[id]
  }

  lemma WithoutNicAll(rows: map<int, int>, nicId: int, pending: set<int>)
    requires pending == set id | id in rows && rows[id] == nicId
    ensures WithoutNic(rows, nicId, pending) == rows
  {
  }

  lemma WithoutNicStep(rows: map<int, int>, nicId: int, pending: set<int>, ip: int)
    requires ip in rows && rows[ip] == nicId
    ensures WithoutNic(rows, nicId, pending) - {ip} == WithoutNic(rows, nicId, pending - {ip})
  {
    var before := WithoutNic(rows, nicId, pending);
    var after := WithoutNic(rows, nicId, pending - {ip});
    assert (before - {ip}).Keys == after.Keys;
  }

  // ---------------------------------------------------------------------
  // The table
  // ---------------------------------------------------------------------

  /** updateNic overwrites the row, so an earlier write of the same row leaves no trace. */
  lemma UpdateNicOverwrites(db: Db, nicId: int, earlier: Nic, nic: Nic, count: int, traffic: TrafficType)
    ensures AfterUpdateNic(db.(nics := db.nics[nicId := earlier]), nicId, nic, count, traffic)
            == AfterUpdateNic(db, nicId, nic, count, traffic)
  {
    assert db.nics[nicId := earlier][nicId := nic] == db.nics[nicId := nic];
  }

  class NicStore {
    var nics: map<int, Nic>
    var activeNics: map<int, int>
    var checkForGc: set<int>
    var secondaryIps: map<int, int>
    var vmNetworks: set<(int, int)>
    /** The id the next persisted row receives. */
    var nextNicId: int

    function State(): Db
      reads this
    {
      Db(nics, activeNics, checkForGc, secondaryIps, vmNetworks)
    }

    /** Row ids are below the next id to hand out. */
    ghost predicate Valid()
      reads this
    {
      forall id :: id in nics ==> id < nextNicId
    }

    constructor ()
      ensures Valid() && State() == Db(map[], map[], {}, map[], {})
    {
      nics := map[];
      activeNics := map[];
      checkForGc := {};
      secondaryIps := map[];
      vmNetworks := {};
      nextNicId := 1;
    }

    method UpdateNic(nicId: int, nic: Nic, count: int, traffic: TrafficType)
      modifies this
      ensures State() == AfterUpdateNic(old(State()), nicId, nic, count, traffic)
      ensures nextNicId == old(nextNicId)
    {
      nics := nics[nicId := nic];
      if nic.vmType == Some(User) {
        var current := if nic.networkId in activeNics then activeNics[nic.networkId] else 0;
        activeNics := activeNics[nic.networkId := current + count];
      }
      if nic.vmType == Some(User) || (nic.vmType == Some(DomainRouter) && traffic == Guest) {
        checkForGc := checkForGc + {nic.networkId};
      }
    }

    method PrepareNic(nicId: int, reservationId: string, reserve: Option<NicProfile>, traffic: TrafficType,
                      elements: seq<PD.Element>, providers: seq<string>, enabled: seq<bool>, accepted: seq<bool>)
      returns (result: PrepareResult)
      requires |enabled| == |elements| == |accepted|
      requires Valid()
      modifies this
      ensures Valid() && nextNicId == old(nextNicId)
      ensures (State(), result) == AfterPrepareNic(old(State()), nicId, reservationId, reserve, traffic,
                                                   elements, providers, enabled, accepted)
    {
      if nicId !in nics {
        return PrepareNicMissing;
      }
      var reserved := ReserveNic(nicId, reservationId, reserve, traffic);
      if reserved.None? {
        return ReserveFailed;
      }
      var failure := PD.RunElements(elements, providers, enabled, accepted);
      if failure.Some? {
        return PrepareElementFailed(failure.value);
      }
      return PrepareOk(reserved.value);
    }

    /** The row part of prepareNic, up to and including updateNic. */
    method ReserveNic(nicId: int, reservationId: string, reserve: Option<NicProfile>, traffic: TrafficType)
      returns (reserved: Option<Nic>)
      requires Valid() && nicId in nics
      modifies this
      ensures Valid() && nextNicId == old(nextNicId)
      ensures (State(), reserved) == ReserveRow(old(State()), nicId, reservationId, reserve, traffic)
    {
      var nic := nics[nicId];
      if nic.strategy == Some(Start) {
        nic := nic.(state := Reserving, reservationId := Some(reservationId));
        nics := nics[nicId := nic];
        if reserve.None? {
          return None;
        }
        var profile := reserve.value;
        nic := nic.(ipv4 := profile.ipv4, ipv6 := profile.ipv6, mac := profile.mac,
                    isolationUri := profile.isolationUri, broadcastUri := profile.broadcastUri, state := Reserved);
        if profile.strategy.Some? {
          nic := nic.(strategy := profile.strategy);
        }
        assert nic == ApplyReservation(old(nics)[nicId].(state := Reserving, reservationId := Some(reservationId)), profile);
        UpdateNicOverwrites(old(State()), nicId, nics[nicId], nic, 1, traffic);
        UpdateNic(nicId, nic, 1, traffic);
      } else {
        nic := nic.(state := Reserved);
        UpdateNic(nicId, nic, 1, traffic);
      }
      return Some(nic);
    }

    method ReleaseNic(vmId: int, vmType: VmType, nicId: int, release: Option<NicProfile>, traffic: TrafficType)
      returns (result: ReleaseResult)
      requires Valid()
      modifies this
      ensures Valid() && nextNicId == old(nextNicId)
      ensures (State(), result) == AfterReleaseNic(old(State()), vmId, vmType, nicId, release, traffic)
    {
      if nicId !in nics {
        return ReleaseLockFailed;
      }
      var networkId := nics[nicId].networkId;
      var notify := ReleaseRow(nicId, release, traffic);
      if vmType == User {
        vmNetworks := vmNetworks - {(vmId, networkId)};
      }
      return Released(notify);
    }

    /** The row part of releaseNic: everything but the VM-to-network map. */
    method ReleaseRow(nicId: int, release: Option<NicProfile>, traffic: TrafficType) returns (notify: bool)
      requires Valid() && nicId in nics
      modifies this
      ensures Valid() && nextNicId == old(nextNicId)
      ensures (State(), notify) == ReleaseHeld(old(State()), nicId, release, traffic)
    {
      var nic := nics[nicId];
      var originalState := nic.state;
      notify := false;
      if originalState == Reserved || originalState == Reserving {
        if nic.strategy == Some(Start) {
          nic := nic.(state := Releasing);
          nics := nics[nicId := nic];
          if release.Some? {
            nic := ApplyProfileToNicForRelease(nic, release.value);
            nic := nic.(state := NicAllocated);
            if originalState == Reserved {
              UpdateNic(nicId, nic, -1, traffic);
            } else {
              nics := nics[nicId := nic];
            }
          }
          notify := true;
        } else {
          nic := nic.(state := NicAllocated);
          UpdateNic(nicId, nic, -1, traffic);
        }
      }
    }

    /** removeVmSecondaryIpsOfNic: delete each secondary address row of the NIC. */
    method RemoveSecondaryIps(nicId: int)
      modifies this
      ensures secondaryIps == WithoutNic(old(secondaryIps), nicId, {})
      ensures nics == old(nics) && activeNics == old(activeNics) && checkForGc == old(checkForGc)
      ensures vmNetworks == old(vmNetworks) && nextNicId == old(nextNicId)
    {
      var ipList := set id | id in secondaryIps && secondaryIps[id] == nicId;
      WithoutNicAll(secondaryIps, nicId, ipList);
      while ipList != {}
        invariant forall ip :: ip in ipList ==> ip in old(secondaryIps) && old(secondaryIps)[ip] == nicId
        invariant secondaryIps == WithoutNic(old(secondaryIps), nicId, ipList)
        invariant nics == old(nics) && activeNics == old(activeNics) && checkForGc == old(checkForGc)
        invariant vmNetworks == old(vmNetworks) && nextNicId == old(nextNicId)
        decreases ipList
      {
        assert exists x :: x in ipList by {
          if forall x :: x !in ipList {
            assert false;
          }
        }
        var ip :| ip in ipList;
        WithoutNicStep(old(secondaryIps), nicId, ipList, ip);
        secondaryIps := secondaryIps - {ip};
        ipList := ipList - {ip};
      }
    }

    method RemoveNic(vmId: int, vmType: VmType, nicId: int, release: Option<NicProfile>, traffic: TrafficType)
      returns (result: RemoveResult)
      requires Valid()
      modifies this
      ensures Valid() && nextNicId == old(nextNicId)
      ensures (State(), result) == AfterRemoveNic(old(State()), vmId, vmType, nicId, release, traffic)
    {
      if nicId !in nics {
        return RemoveNicMissing;
      }
      var nic := nics[nicId];
      if nic.strategy == Some(Start) && nic.state != NicAllocated {
        var _ := ReleaseNic(vmId, vmType, nicId, release, traffic);
      }
      DeleteRow(nicId);
      return Removed(nic.strategy == Some(Create));
    }

    /** The end of removeNic: the row, written back as Deallocating, is deleted, then its secondary addresses. */
    method DeleteRow(nicId: int)
      requires Valid() && nicId in nics
      modifies this
      ensures Valid() && nextNicId == old(nextNicId)
      ensures State() == old(State()).(nics := old(nics) - {nicId}, secondaryIps := WithoutNic(old(secondaryIps), nicId, {}))
    {
      nics := nics[nicId := nics[nicId].(state := Deallocating)];
      nics := nics - {nicId};
      RemoveSecondaryIps(nicId);
    }

    method SavePlaceholderNic(networkId: int, ipv4: Option<string>, ipv6: Option<string>, vmType: VmType)
      returns (id: int)
      requires Valid()
      modifies this
      ensures Valid() && id !in old(nics)
      ensures State() == old(State()).(nics := old(nics)[id := PlaceholderNic(networkId, ipv4, ipv6, vmType)])
    {
      id := nextNicId;
      nextNicId := nextNicId + 1;
      nics := nics[id := PlaceholderNic(networkId, ipv4, ipv6, vmType)];
    }
  }

  // ---------------------------------------------------------------------
  // Lifecycle properties
  // ---------------------------------------------------------------------

  /** The count change updateNic applies for a NIC: only User VMs are counted. */
  function CountDelta(nic: Nic, count: int): int
  {
    if nic.vmType == Some(User) then count else 0
  }

  /**
   * prepareNic: unless the NIC is missing or the design provider's reserve
   * fails, the NIC ends Reserved and its network's active count has grown
   * by one (for a User VM), also when an element then fails; the result is
   * a success exactly when every in-scope element was enabled and
   * prepared. A failing reserve leaves the NIC Reserving with the
   * reservation id and the count unchanged. No other NIC changes.
   */
  lemma PrepareNicCounts(db: Db, nicId: int, reservationId: string, reserve: Option<NicProfile>, traffic: TrafficType,
                         elements: seq<PD.Element>, providers: seq<string>, enabled: seq<bool>, accepted: seq<bool>)
    requires |enabled| == |elements| == |accepted|
    requires nicId in db.nics
    ensures var (db', result) := AfterPrepareNic(db, nicId, reservationId, reserve, traffic, elements, providers, enabled, accepted);
            var nic := db.nics[nicId];
            var net := nic.networkId;
            nicId in db'.nics && db'.nics.Keys == db.nics.Keys
            && (forall id :: id in db.nics && id != nicId ==> db'.nics[id] == db.nics[id])
            && (forall n :: n != net ==> Active(db', n) == Active(db, n))
            && (result == ReserveFailed <==> nic.strategy == Some(Start) && reserve.None?)
            && (result == ReserveFailed ==>
                  db'.nics[nicId].state == Reserving && db'.nics[nicId].reservationId == Some(reservationId)
                  && Active(db', net) == Active(db, net))
            && (result != ReserveFailed ==>
                  db'.nics[nicId].state == Reserved && Active(db', net) == Active(db, net) + CountDelta(nic, 1)
                  && (result.PrepareOk? <==>
                        forall i :: 0 <= i < |elements| && PD.InScope(elements[i], providers) ==> enabled[i] && accepted[i]))
  {
  }

  /**
   * releaseNic's effect on the NIC and its network's active count:
   * - a Start-strategy NIC in Reserved or Reserving goes to Releasing; if
   *   the design provider releases it, it ends Allocated, and the count
   *   drops by one only if it was Reserved; the elements are notified
   *   either way;
   * - any other NIC in Reserved or Reserving goes to Allocated with the
   *   count dropping by one;
   * - a NIC in any other state, and every other NIC, is left unchanged.
   */
  lemma ReleaseNicRule(db: Db, vmId: int, vmType: VmType, nicId: int, release: Option<NicProfile>, traffic: TrafficType)
    requires nicId in db.nics
    ensures var (db', result) := AfterReleaseNic(db, vmId, vmType, nicId, release, traffic);
            var nic := db.nics[nicId];
            var net := nic.networkId;
            var held := nic.state == Reserved || nic.state == Reserving;
            var start := nic.strategy == Some(Start);
            db'.nics.Keys == db.nics.Keys
            && (forall id :: id in db.nics && id != nicId ==> db'.nics[id] == db.nics[id])
            && (forall n :: n != net ==> Active(db', n) == Active(db, n))
            && result == Released(held && start)
            && (!held ==> db'.nics[nicId] == nic && Active(db', net) == Active(db, net))
            && (held && start && release.None? ==>
                  db'.nics[nicId] == nic.(state := Releasing) && Active(db', net) == Active(db, net))
            && (held && start && release.Some? ==>
                  db'.nics[nicId].state == NicAllocated
                  && Active(db', net) == Active(db, net) + (if nic.state == Reserved then CountDelta(nic, -1) else 0))
            && (held && !start ==>
                  db'.nics[nicId] == nic.(state := NicAllocated) && Active(db', net) == Active(db, net) + CountDelta(nic, -1))
            && db'.vmNetworks == (if vmType == User then db.vmNetworks - {(vmId, net)} else db.vmNetworks)
  {
    var _ := ReleaseHeld(db, nicId, release, traffic);
  }

  /** A NIC in Allocated, as allocate leaves it. */
  predicate AllocatedNic(db: Db, nicId: int)
  {
    nicId in db.nics && db.nics[nicId].state == NicAllocated
  }

  /**
   * Counter balance: preparing an Allocated NIC and then releasing it, with
   * the design provider reserving and releasing it, leaves the NIC
   * Allocated and its network's active count where it was, whatever the
   * elements answered and whatever the reservation strategy.
   */
  lemma PrepareReleaseBalance(db: Db, vmId: int, vmType: VmType, nicId: int, reservationId: string, reserved: NicProfile,
                              released: NicProfile, traffic: TrafficType,
                              elements: seq<PD.Element>, providers: seq<string>, enabled: seq<bool>, accepted: seq<bool>)
    requires |enabled| == |elements| == |accepted|
    requires AllocatedNic(db, nicId)
    requires db.nics[nicId].strategy == Some(Start) ==> reserved.strategy.None? || reserved.strategy == Some(Start)
    ensures var db1 := AfterPrepareNic(db, nicId, reservationId, Some(reserved), traffic, elements, providers, enabled, accepted).0;
            var db2 := AfterReleaseNic(db1, vmId, vmType, nicId, Some(released), traffic).0;
            var net := db.nics[nicId].networkId;
            db2.nics[nicId].state == NicAllocated && Active(db2, net) == Active(db, net)
  {
    PrepareNicCounts(db, nicId, reservationId, Some(reserved), traffic, elements, providers, enabled, accepted);
    var db1 := AfterPrepareNic(db, nicId, reservationId, Some(reserved), traffic, elements, providers, enabled, accepted).0;
    ReleaseNicRule(db1, vmId, vmType, nicId, Some(released), traffic);
  }

  /**
   * Removing a NIC leaves no row for it and no secondary address of it;
   * every other NIC row and every other NIC's secondary addresses are
   * unchanged.
   */
  lemma RemoveLeavesNothing(db: Db, vmId: int, vmType: VmType, nicId: int, release: Option<NicProfile>, traffic: TrafficType)
    requires nicId in db.nics
    ensures var db' := AfterRemoveNic(db, vmId, vmType, nicId, release, traffic).0;
            nicId !in db'.nics && SecondaryIpsOf(db', nicId) == {}
            && (forall id :: id in db.nics && id != nicId ==> id in db'.nics && db'.nics[id] == db.nics[id])
            && db'.nics.Keys == db.nics.Keys - {nicId}
            && (forall ip :: ip in db.secondaryIps && db.secondaryIps[ip] != nicId ==>
                  ip in db'.secondaryIps && db'.secondaryIps[ip] == db.secondaryIps[ip])
  {
    var nic := db.nics[nicId];
    var db1 := if nic.strategy == Some(Start) && nic.state != NicAllocated
               then AfterReleaseNic(db, vmId, vmType, nicId, release, traffic).0 else db;
    if nic.strategy == Some(Start) && nic.state != NicAllocated {
      ReleaseKeepsOtherRows(db, vmId, vmType, nicId, release, traffic);
    }
    DeleteRowLeavesNothing(db1, nicId);
  }

  /** Releasing a NIC keeps the set of rows, every other row and the secondary addresses. */
  lemma ReleaseKeepsOtherRows(db: Db, vmId: int, vmType: VmType, nicId: int, release: Option<NicProfile>, traffic: TrafficType)
    requires nicId in db.nics
    ensures var db1 := AfterReleaseNic(db, vmId, vmType, nicId, release, traffic).0;
            db1.nics.Keys == db.nics.Keys && db1.secondaryIps == db.secondaryIps
            && (forall id :: id in db.nics && id != nicId ==> db1.nics[id] == db.nics[id])
  {
    var held := ReleaseHeld(db, nicId, release, traffic);
    assert AfterReleaseNic(db, vmId, vmType, nicId, release, traffic).0.nics == held.0.nics;
  }

  /** The deletion step of removeNic: the row and its secondary addresses go, every other row stays. */
  lemma DeleteRowLeavesNothing(db: Db, nicId: int)
    ensures var db' := db.(nics := db.nics - {nicId}, secondaryIps := WithoutNic(db.secondaryIps, nicId, {}));
            nicId !in db'.nics && SecondaryIpsOf(db', nicId) == {}
            && (forall id :: id in db.nics && id != nicId ==> id in db'.nics && db'.nics[id] == db.nics[id])
            && db'.nics.Keys == db.nics.Keys - {nicId}
            && (forall ip :: ip in db.secondaryIps && db.secondaryIps[ip] != nicId ==>
                  ip in db'.secondaryIps && db'.secondaryIps[ip] == db.secondaryIps[ip])
  {
  }

  /**
   * The whole lifecycle of a Start-strategy NIC of a User VM: prepare,
   * release, remove. With a design provider that releases, the row is gone
   * and the network's count is back where it was; with one that refuses to
   * release, the row is gone too but the count keeps the NIC (it stayed
   * Releasing, which removeNic's release does not touch).
   */
  lemma LifecycleCount(db: Db, vmId: int, nicId: int, reservationId: string, reserved: NicProfile,
                       released: Option<NicProfile>, traffic: TrafficType,
                       elements: seq<PD.Element>, providers: seq<string>, enabled: seq<bool>, accepted: seq<bool>)
    requires |enabled| == |elements| == |accepted|
    requires AllocatedNic(db, nicId) && db.nics[nicId].strategy == Some(Start) && db.nics[nicId].vmType == Some(User)
    requires reserved.strategy.None? || reserved.strategy == Some(Start)
    ensures var db1 := AfterPrepareNic(db, nicId, reservationId, Some(reserved), traffic, elements, providers, enabled, accepted).0;
            var db2 := AfterReleaseNic(db1, vmId, User, nicId, released, traffic).0;
            var db3 := AfterRemoveNic(db2, vmId, User, nicId, released, traffic).0;
            var net := db.nics[nicId].networkId;
            nicId !in db3.nics
            && Active(db3, net) == Active(db, net) + (if released.Some? then 0 else 1)
  {
    var net := db.nics[nicId].networkId;
    PrepareNicCounts(db, nicId, reservationId, Some(reserved), traffic, elements, providers, enabled, accepted);
    var db1 := AfterPrepareNic(db, nicId, reservationId, Some(reserved), traffic, elements, providers, enabled, accepted).0;
    ReleaseNicRule(db1, vmId, User, nicId, released, traffic);
    var db2 := AfterReleaseNic(db1, vmId, User, nicId, released, traffic).0;
    assert db2.nics[nicId].state == (if released.Some? then NicAllocated else Releasing);
    if released.None? {
      ReleaseNicRule(db2, vmId, User, nicId, released, traffic);
    }
  }

  /**
   * A placeholder NIC is stored Reserved without being counted, and
   * releasing it moves it to Allocated. For a router or another system VM,
   * the placeholder's usual owner, no count moves at all: saving,
   * releasing and removing it leaves the NIC rows, every network's active
   * count and the VM-to-network rows as they were. For a User VM, the
   * release takes one off a count that the placeholder never added to.
   */
  lemma PlaceholderNeverCounted(db: Db, id: int, networkId: int, ipv4: Option<string>, ipv6: Option<string>,
                                vmType: VmType, vmId: int, release: Option<NicProfile>, traffic: TrafficType)
    requires id !in db.nics
    ensures var db1 := db.(nics := db.nics[id := PlaceholderNic(networkId, ipv4, ipv6, vmType)]);
            var db2 := AfterReleaseNic(db1, vmId, vmType, id, release, traffic).0;
            var db3 := AfterRemoveNic(db2, vmId, vmType, id, release, traffic).0;
            id in db2.nics && db2.nics[id].state == NicAllocated
            && (vmType != User ==>
                  db3.nics == db.nics && db3.vmNetworks == db.vmNetworks && forall n :: Active(db3, n) == Active(db, n))
            && (vmType == User ==> Active(db2, networkId) == Active(db, networkId) - 1)
  {
    var nic := PlaceholderNic(networkId, ipv4, ipv6, vmType);
    var db1 := db.(nics := db.nics[id := nic]);
    ReleaseNicRule(db1, vmId, vmType, id, release, traffic);
    var db2 := AfterReleaseNic(db1, vmId, vmType, id, release, traffic).0;
    assert db2.nics[id] == nic.(state := NicAllocated);
    var db3 := AfterRemoveNic(db2, vmId, vmType, id, release, traffic).0;
    assert db3 == db2.(nics := db2.nics - {id}, secondaryIps := WithoutNic(db2.secondaryIps, id, {}));
    if vmType != User {
      assert db3.nics.Keys == db.nics.Keys;
      assert forall k :: k in db.nics ==> db3.nics[k] == db.nics[k];
    }
  }
}
