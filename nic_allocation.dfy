/**
 * NIC allocation (NetworkOrchestrator.allocate, allocateNic,
 * applyProfileToNic): building NIC records from the design providers'
 * answers and assigning device ids from a per-VM occupancy array.
 */
module NicAllocation {

  import opened Base

  /** A NIC row (NicVO) as far as the orchestrator's lifecycle reads and writes it. */
  datatype Nic = Nic(
    networkId: int,
    vmType: Option<VmType>,
    deviceId: Option<int>,
    strategy: Option<ReservationStrategy>,
    isDefault: bool,
    state: NicState,
    reservationId: Option<string>,
    ipv4: Option<string>,
    ipv6: Option<string>,
    mac: Option<string>,
    broadcastUri: Option<string>,
    isolationUri: Option<string>)

  /** A freshly constructed NicVO for a network and VM type: nothing else set yet. */
  function NewNic(networkId: int, vmType: Option<VmType>): Nic
  {
    Nic(networkId, vmType, None, None, false, NicAllocated, None, None, None, None, None, None)
  }

  /** The profile a design provider returns from allocate, with the default flag set by allocateNic. */
  datatype NicProfile = NicProfile(
    deviceId: Option<int>,
    strategy: Option<ReservationStrategy>,
    isDefault: bool,
    ipv4: Option<string>,
    ipv6: Option<string>,
    mac: Option<string>,
    broadcastUri: Option<string>,
    isolationUri: Option<string>)

  /**
   * applyProfileToNic: copy the profile onto the row. A device id carried by
   * the profile is used as it is and the cursor is returned unchanged;
   * otherwise the row takes the cursor's value and the cursor advances by
   * one. The row always ends in state Allocated.
   */
  function ApplyProfileToNic(vo: Nic, profile: NicProfile, cursor: Option<nat>): (r: (Nic, Option<nat>))
    ensures profile.deviceId.Some? ==> r.0.deviceId == profile.deviceId && r.1 == cursor
    ensures profile.deviceId.None? && cursor.Some? ==>
              r.0.deviceId == Some(cursor.value) && r.1 == Some(cursor.value + 1)
    ensures profile.deviceId.None? && cursor.None? ==> r.0.deviceId == vo.deviceId && r.1 == None
    ensures r.0.state == NicAllocated && r.0.isDefault == profile.isDefault
    ensures r.0.networkId == vo.networkId && r.0.vmType == vo.vmType
    ensures r.0.strategy == (if profile.strategy.Some? then profile.strategy else vo.strategy)
    ensures r.0.ipv4 == profile.ipv4 && r.0.ipv6 == profile.ipv6
    ensures r.0.mac == (if profile.mac.Some? then profile.mac else vo.mac)
    ensures r.0.broadcastUri == (if profile.broadcastUri.Some? then profile.broadcastUri else vo.broadcastUri)
    ensures r.0.isolationUri == (if profile.isolationUri.Some? then profile.isolationUri else vo.isolationUri)
  {
    var (deviceId, next) :=
      if profile.deviceId.Some? then (profile.deviceId, cursor)
      else if cursor.Some? then (cursor, Some(cursor.value + 1))
      else (vo.deviceId, cursor);
    var n := vo.(
      deviceId := deviceId,
      strategy := if profile.strategy.Some? then profile.strategy else vo.strategy,
      isDefault := profile.isDefault,
      ipv4 := profile.ipv4,
      mac := if profile.mac.Some? then profile.mac else vo.mac,
      broadcastUri := if profile.broadcastUri.Some? then profile.broadcastUri else vo.broadcastUri,
      isolationUri := if profile.isolationUri.Some? then profile.isolationUri else vo.isolationUri,
      state := NicAllocated,
      ipv6 := profile.ipv6);
    (n, next)
  }

  /** What allocateNic's design provider answered: a profile, or null (None). */
  type GuruAnswer = Option<NicProfile>

  /**
   * allocateNic: ask the design provider, set the default flag, build the
   * row and apply the profile with the device-id cursor. None when the
   * provider declines.
   */
  function AllocateNic(answer: GuruAnswer, networkId: int, vmType: VmType, isDefault: bool, cursor: nat): (r: Option<(Nic, nat)>)
    ensures r.None? <==> answer.None?
    ensures r.Some? ==> r.value.0.networkId == networkId && r.value.0.isDefault == isDefault
                        && r.value.0.state == NicAllocated && r.value.0.deviceId.Some?
    ensures r.Some? && answer.value.deviceId.Some? ==>
              r.value.0.deviceId == answer.value.deviceId && r.value.1 == cursor
    ensures r.Some? && answer.value.deviceId.None? ==>
              r.value.0.deviceId == Some(cursor) && r.value.1 == cursor + 1
  {
    if answer.None? then None
    else
      var profile := answer.value.(isDefault := isDefault);
      var (vo, next) := ApplyProfileToNic(NewNic(networkId, Some(vmType)), profile, Some(cursor));
      Some((vo, next.value))
  }

  /**
   * One entry of the batch: a network and one requested profile (None for a
   * network given with no profile, which still gets one NIC).
   */
  datatype Slot = Slot(networkId: int, requestedDefault: Option<bool>)

  /** A request for a network with its (possibly empty or null) list of profiles. */
  datatype NetworkRequest = NetworkRequest(networkId: int, profiles: Option<seq<bool>>)

  /**
   * The slots of the batch in the map's iteration order; a network with no
   * profile list, or an empty one, contributes one slot with a null profile.
   */
  function Slots(requests: seq<NetworkRequest>): (r: seq<Slot>)
    ensures |requests| <= |r|
  {
    if requests == [] then []
    else
      var q := requests[0];
      var here :=
        if q.profiles.None? || q.profiles.value == [] then [Slot(q.networkId, None)]
        else seq(|q.profiles.value|, i requires 0 <= i < |q.profiles.value| => Slot(q.networkId, Some(q.profiles.value[i])));
      here + Slots(requests[1..])
  }

  /** The profile count of one request as allocate's size loop counts it: at least one. */
  function SlotCount(q: NetworkRequest): nat
  {
    if q.profiles.Some? && q.profiles.value != [] then |q.profiles.value| else 1
  }

  /**
   * allocate's first loop: the size of the occupancy array is the number of
   * slots the batch expands to, each network contributing at least one.
   */
  method BatchSize(requests: seq<NetworkRequest>) returns (size: nat)
    ensures size == |Slots(requests)|
    ensures size >= |requests|
  {
    size := 0;
    var k := 0;
    while k < |requests|
      invariant 0 <= k <= |requests|
      invariant size + |Slots(requests[k..])| == |Slots(requests)|
      invariant size >= k
    {
      assert requests[k..][1..] == requests[k + 1..];
      size := size + SlotCount(requests[k]);
      k := k + 1;
    }
  }

  /** The default flag allocate passes for a slot: only a requested profile marked default. */
  predicate WantsDefault(s: Slot)
  {
    s.requestedDefault == Some(true)
  }

  datatype AllocError =
    | GuruDeclined          // allocateNic returned null: the dereference at the device-id check fails
    | DeviceIdTooLarge      // IllegalArgumentException "Device id for nic is too large"
    | ConflictingDeviceId   // IllegalArgumentException "Conflicting device id for two different nics"
    | TwoDefaultNics        // IllegalArgumentException "You cannot specify two nics as default nics"

  datatype AllocResult =
    | Done(rows: seq<Nic>, profiles: seq<Nic>)
    | Failed(error: AllocError)

  /** Number of taken entries of the device-id occupancy array. */
  function Taken(s: seq<bool>): (n: nat)
    ensures n <= |s|
  {
    if s == [] then 0 else (if s[0] then 1 else 0) + Taken(s[1..])
  }

  lemma {:induction false} TakenSet(s: seq<bool>, d: nat)
    requires d < |s| && !s[d]
    ensures Taken(s[d := true]) == Taken(s) + 1
  {
    if d > 0 {
      assert s[d := true][1..] == s[1..][d - 1 := true];
      TakenSet(s[1..], d - 1);
    }
  }

  /** When the occupied ids are fewer than the slots, a cursor below which all ids are taken is a valid index. */
  lemma {:induction false} CursorInRange(s: seq<bool>, c: nat)
    requires c <= |s| && Taken(s) < |s|
    requires forall i :: 0 <= i < c ==> s[i]
    ensures c < |s|
  {
    if c == |s| {
      AllTaken(s);
    }
  }

  lemma {:induction false} AllTaken(s: seq<bool>)
    requires forall i :: 0 <= i < |s| ==> s[i]
    ensures Taken(s) == |s|
  {
    if s != [] {
      AllTaken(s[1..]);
    }
  }

  lemma {:induction false} NoneTaken(s: seq<bool>)
    requires forall i :: 0 <= i < |s| ==> !s[i]
    ensures Taken(s) == 0
  {
    if s != [] {
      NoneTaken(s[1..]);
    }
  }

  /** The first free device id at or after the cursor `c` (or the bound, when none is free). */
  function Skip(occ: seq<bool>, c: nat): (r: nat)
    ensures c <= r && (c <= |occ| ==> r <= |occ|)
    ensures r < |occ| ==> !occ[r]
    ensures forall i :: c <= i < r ==> i < |occ| && occ[i]
    decreases |occ| - c
  {
    if c < |occ| && occ[c] then Skip(occ, c + 1) else c
  }

  /** When fewer ids are taken than there are slots, the skipped-to cursor is a free id. */
  lemma SkipFree(occ: seq<bool>, c: nat)
    requires c <= |occ| && Taken(occ) < |occ|
    requires forall i :: 0 <= i < c ==> occ[i]
    ensures Skip(occ, c) < |occ|
  {
    var r := Skip(occ, c);
    CursorInRange(occ, r);
  }

  /** The variables of allocate's loop: occupancy, cursor, NICs built so far, whether a default was seen. */
  datatype AllocState = AllocState(occ: seq<bool>, cursor: nat, rows: seq<Nic>, defaultSeen: bool)

  datatype Step = Continue(next: AllocState) | Stop(error: AllocError)

  /** The guard on a device id, corrected to reject every id that is not an index of the occupancy array. */
  predicate TooLarge(devId: int, size: nat)
  {
    devId < 0 || devId >= size
  }

  /** The guard as written in the source: `devId > deviceIds.length`. */
  predicate TooLargeAsWritten(devId: int, size: nat)
  {
    devId > size
  }

  /** One iteration of allocate's inner loop body, for slot `k`. */
  function StepAt(slots: seq<Slot>, answers: seq<GuruAnswer>, vmType: VmType, k: nat, st: AllocState): (r: Step)
    requires |answers| == |slots| && k < |slots| && |st.occ| == |slots|
    ensures r.Continue? ==> |r.next.occ| == |slots| && |r.next.rows| == |st.rows| + 1
  {
    var c := Skip(st.occ, st.cursor);
    var pair := AllocateNic(answers[k], slots[k].networkId, vmType, WantsDefault(slots[k]), c);
    if pair.None? then Stop(GuruDeclined)
    else
      var nic := pair.value.0;
      var d := nic.deviceId.value;
      if TooLarge(d, |st.occ|) then Stop(DeviceIdTooLarge)
      else if st.occ[d] then Stop(ConflictingDeviceId)
      else if nic.isDefault && st.defaultSeen then Stop(TwoDefaultNics)
      else Continue(AllocState(st.occ[d := true], pair.value.1, st.rows + [nic], st.defaultSeen || nic.isDefault))
  }

  /** The single NIC of a one-NIC batch is made the default on the returned profile. */
  function Promote(rows: seq<Nic>): seq<Nic>
  {
    if |rows| == 1 then [rows[0].(isDefault := true)] else rows
  }

  /** The loop from slot `k` on. */
  function Run(slots: seq<Slot>, answers: seq<GuruAnswer>, vmType: VmType, k: nat, st: AllocState): AllocResult
    requires |answers| == |slots| && k <= |slots| && |st.occ| == |slots|
    decreases |slots| - k
  {
    if k == |slots| then Done(st.rows, Promote(st.rows))
    else
      match StepAt(slots, answers, vmType, k, st)
      case Stop(e) => Failed(e)
      case Continue(next) => Run(slots, answers, vmType, k + 1, next)
  }

  function InitialState(n: nat): AllocState
  {
    AllocState(seq(n, _ => false), 0, [], false)
  }

  /** allocate over the whole batch. */
  function AllocateSpec(slots: seq<Slot>, answers: seq<GuruAnswer>, vmType: VmType): AllocResult
    requires |answers| == |slots|
  {
    Run(slots, answers, vmType, 0, InitialState(|slots|))
  }

  /** No two slots before `k` carry the same profile-supplied device id. */
  ghost predicate ExplicitIdsDistinct(answers: seq<GuruAnswer>, k: int)
    requires 0 <= k <= |answers|
  {
    forall i, j :: 0 <= i < j < k && answers[i].Some? && answers[j].Some? && answers[i].value.deviceId.Some? ==>
      answers[i].value.deviceId != answers[j].value.deviceId
  }

  ghost predicate AtMostOneDefaultWanted(slots: seq<Slot>, k: int)
    requires 0 <= k <= |slots|
  {
    forall i, j :: 0 <= i < j < k && WantsDefault(slots[i]) ==> !WantsDefault(slots[j])
  }

  ghost predicate NoExplicitIds(answers: seq<GuruAnswer>, k: int)
    requires 0 <= k <= |answers|
  {
    forall i :: 0 <= i < k && answers[i].Some? ==> answers[i].value.deviceId.None?
  }

  /** Each NIC built so far matches its slot and its provider's answer and has a device id below `n`. */
  ghost predicate RowsMatch(slots: seq<Slot>, answers: seq<GuruAnswer>, rows: seq<Nic>)
    requires |rows| <= |answers| == |slots|
  {
    forall i :: 0 <= i < |rows| ==>
      answers[i].Some? && rows[i].deviceId.Some? && 0 <= rows[i].deviceId.value < |slots|
      && rows[i].networkId == slots[i].networkId && rows[i].state == NicAllocated
      && rows[i].isDefault == WantsDefault(slots[i])
      && (answers[i].value.deviceId.Some? ==> rows[i].deviceId == answers[i].value.deviceId)
  }

  ghost predicate IdsDistinct(rows: seq<Nic>)
  {
    forall i, j :: 0 <= i < j < |rows| ==> rows[i].deviceId != rows[j].deviceId
  }

  /** What allocate's loop keeps true after `k` slots. */
  ghost predicate Inv(slots: seq<Slot>, answers: seq<GuruAnswer>, k: nat, st: AllocState)
  {
    |answers| == |slots| && k <= |slots| && |st.occ| == |slots| && |st.rows| == k
    && Taken(st.occ) == k && st.cursor <= |slots|
    && (forall i :: 0 <= i < st.cursor ==> st.occ[i])
    && RowsMatch(slots, answers, st.rows)
    && (forall i :: 0 <= i < k ==> st.occ[st.rows[i].deviceId.value])
    && IdsDistinct(st.rows)
    && (st.defaultSeen <==> exists i :: 0 <= i < k && WantsDefault(slots[i]))
    && AtMostOneDefaultWanted(slots, k)
  }

  lemma InitialInv(slots: seq<Slot>, answers: seq<GuruAnswer>)
    requires |answers| == |slots|
    ensures Inv(slots, answers, 0, InitialState(|slots|))
  {
    NoneTaken(InitialState(|slots|).occ);
  }

  /**
   * One slot: a successful step keeps the invariant, and each failure is
   * explained by the current slot (a declined allocation, an explicit id
   * out of range or already used, a second default).
   */
  lemma StepKeepsInv(slots: seq<Slot>, answers: seq<GuruAnswer>, vmType: VmType, k: nat, st: AllocState)
    requires Inv(slots, answers, k, st) && k < |slots|
    ensures StepAt(slots, answers, vmType, k, st).Continue? ==>
              Inv(slots, answers, k + 1, StepAt(slots, answers, vmType, k, st).next)
    ensures StepAt(slots, answers, vmType, k, st) == Stop(GuruDeclined) ==> answers[k].None?
    ensures StepAt(slots, answers, vmType, k, st) == Stop(DeviceIdTooLarge) ==>
              answers[k].Some? && answers[k].value.deviceId.Some?
              && (answers[k].value.deviceId.value < 0 || answers[k].value.deviceId.value >= |slots|)
    ensures StepAt(slots, answers, vmType, k, st) == Stop(ConflictingDeviceId) ==>
              answers[k].Some? && answers[k].value.deviceId.Some?
    ensures StepAt(slots, answers, vmType, k, st) == Stop(TwoDefaultNics) ==>
              WantsDefault(slots[k]) && exists i :: 0 <= i < k && WantsDefault(slots[i])
  {
    var c := Skip(st.occ, st.cursor);
    SkipFree(st.occ, st.cursor);
    var pair := AllocateNic(answers[k], slots[k].networkId, vmType, WantsDefault(slots[k]), c);
    if pair.Some? {
      var nic := pair.value.0;
      var d := nic.deviceId.value;
      if !TooLarge(d, |st.occ|) && !st.occ[d] && !(nic.isDefault && st.defaultSeen) {
        assert forall i :: 0 <= i < pair.value.1 ==> i == d || st.occ[i];
        AppendRowInv(slots, answers, k, st, nic, d, pair.value.1);
      }
    }
  }

  /** Appending a NIC with a free, in-range device id keeps the invariant. */
  lemma AppendRowInv(slots: seq<Slot>, answers: seq<GuruAnswer>, k: nat, st: AllocState, nic: Nic, d: nat, cursor: nat)
    requires Inv(slots, answers, k, st) && k < |slots|
    requires answers[k].Some? && nic.deviceId == Some(d) && d < |slots| && !st.occ[d]
    requires nic.networkId == slots[k].networkId && nic.state == NicAllocated && nic.isDefault == WantsDefault(slots[k])
    requires answers[k].value.deviceId.Some? ==> nic.deviceId == answers[k].value.deviceId
    requires !(nic.isDefault && st.defaultSeen)
    requires cursor <= |slots| && forall i :: 0 <= i < cursor ==> i == d || st.occ[i]
    ensures Inv(slots, answers, k + 1, AllocState(st.occ[d := true], cursor, st.rows + [nic], st.defaultSeen || nic.isDefault))
  {
    var next := AllocState(st.occ[d := true], cursor, st.rows + [nic], st.defaultSeen || nic.isDefault);
    TakenSet(st.occ, d);
    AppendRowsMatch(slots, answers, st.rows, nic);
    AppendIdsDistinct(st.rows, nic, st.occ, d);
    assert forall i :: 0 <= i < k ==> next.rows[i] == st.rows[i];
    AppendDefault(slots, k, st.defaultSeen);
  }

  lemma AppendRowsMatch(slots: seq<Slot>, answers: seq<GuruAnswer>, rows: seq<Nic>, nic: Nic)
    requires |rows| < |answers| == |slots| && RowsMatch(slots, answers, rows)
    requires answers[|rows|].Some? && nic.deviceId.Some? && 0 <= nic.deviceId.value < |slots|
    requires nic.networkId == slots[|rows|].networkId && nic.state == NicAllocated && nic.isDefault == WantsDefault(slots[|rows|])
    requires answers[|rows|].value.deviceId.Some? ==> nic.deviceId == answers[|rows|].value.deviceId
    ensures RowsMatch(slots, answers, rows + [nic])
  {
    assert forall i :: 0 <= i < |rows| ==> (rows + [nic])[i] == rows[i];
  }

  lemma AppendIdsDistinct(rows: seq<Nic>, nic: Nic, occ: seq<bool>, d: nat)
    requires IdsDistinct(rows) && nic.deviceId == Some(d) && d < |occ| && !occ[d]
    requires forall i :: 0 <= i < |rows| ==> rows[i].deviceId.Some? && 0 <= rows[i].deviceId.value < |occ|
    requires forall i :: 0 <= i < |rows| ==> occ[rows[i].deviceId.value]
    ensures IdsDistinct(rows + [nic])
  {
    assert forall i :: 0 <= i < |rows| ==> (rows + [nic])[i] == rows[i] && rows[i].deviceId != Some(d);
  }

  lemma AppendDefault(slots: seq<Slot>, k: nat, defaultSeen: bool)
    requires k < |slots| && AtMostOneDefaultWanted(slots, k)
    requires defaultSeen <==> exists i :: 0 <= i < k && WantsDefault(slots[i])
    requires !(WantsDefault(slots[k]) && defaultSeen)
    ensures AtMostOneDefaultWanted(slots, k + 1)
    ensures defaultSeen || WantsDefault(slots[k]) <==> exists i :: 0 <= i < k + 1 && WantsDefault(slots[i])
  {
  }

  /** When the loop completes, the NICs satisfy what allocate promises of a batch. */
  ghost predicate Complete(slots: seq<Slot>, answers: seq<GuruAnswer>, rows: seq<Nic>)
  {
    |answers| == |slots| && |rows| == |slots| && RowsMatch(slots, answers, rows) && IdsDistinct(rows)
    && AtMostOneDefaultWanted(slots, |slots|)
  }

  lemma {:induction false} RunDone(slots: seq<Slot>, answers: seq<GuruAnswer>, vmType: VmType, k: nat, st: AllocState)
    requires Inv(slots, answers, k, st)
    ensures Run(slots, answers, vmType, k, st).Done? ==> Complete(slots, answers, Run(slots, answers, vmType, k, st).rows)
    ensures Run(slots, answers, vmType, k, st).Done? ==>
              Run(slots, answers, vmType, k, st).profiles == Promote(Run(slots, answers, vmType, k, st).rows)
    decreases |slots| - k
  {
    if k < |slots| {
      StepKeepsInv(slots, answers, vmType, k, st);
      var s := StepAt(slots, answers, vmType, k, st);
      if s.Continue? {
        RunDone(slots, answers, vmType, k + 1, s.next);
      }
    }
  }

  lemma {:induction false} RunFailed(slots: seq<Slot>, answers: seq<GuruAnswer>, vmType: VmType, k: nat, st: AllocState)
    requires Inv(slots, answers, k, st)
    ensures Run(slots, answers, vmType, k, st) == Failed(GuruDeclined) ==>
              exists i :: k <= i < |slots| && answers[i].None?
    ensures Run(slots, answers, vmType, k, st) == Failed(DeviceIdTooLarge) ==>
              exists i :: k <= i < |slots| && answers[i].Some? && answers[i].value.deviceId.Some?
                           && (answers[i].value.deviceId.value < 0 || answers[i].value.deviceId.value >= |slots|)
    ensures Run(slots, answers, vmType, k, st) == Failed(ConflictingDeviceId) ==>
              exists i :: k <= i < |slots| && answers[i].Some? && answers[i].value.deviceId.Some?
    ensures Run(slots, answers, vmType, k, st) == Failed(TwoDefaultNics) ==> !AtMostOneDefaultWanted(slots, |slots|)
    decreases |slots| - k
  {
    if k < |slots| {
      StepKeepsInv(slots, answers, vmType, k, st);
      var s := StepAt(slots, answers, vmType, k, st);
      if s.Continue? {
        RunFailed(slots, answers, vmType, k + 1, s.next);
      } else if s == Stop(TwoDefaultNics) {
        var i :| 0 <= i < k && WantsDefault(slots[i]);
        assert !AtMostOneDefaultWanted(slots, |slots|) by {
          assert 0 <= i < k < |slots| && WantsDefault(slots[i]) && WantsDefault(slots[k]);
        }
      }
    }
  }

  /**
   * What allocate promises of a batch: every slot gets one NIC for its
   * network, in state Allocated, with a distinct device id below the batch
   * size, the provider's own device id when it gave one, the default flag
   * that was asked for and at most one default; the returned profile of a
   * one-NIC batch is the default. Two requested defaults or two equal
   * explicit device ids always fail, and each failure names its cause.
   */
  lemma AllocateProperties(slots: seq<Slot>, answers: seq<GuruAnswer>, vmType: VmType)
    requires |answers| == |slots|
    ensures var r := AllocateSpec(slots, answers, vmType);
            r.Done? ==> |r.rows| == |slots| && r.profiles == Promote(r.rows)
                        && (forall i :: 0 <= i < |slots| ==>
                              answers[i].Some? && r.rows[i].deviceId.Some? && 0 <= r.rows[i].deviceId.value < |slots|
                              && r.rows[i].networkId == slots[i].networkId && r.rows[i].state == NicAllocated
                              && r.rows[i].isDefault == WantsDefault(slots[i]))
                        && (forall i :: 0 <= i < |slots| && answers[i].Some? && answers[i].value.deviceId.Some? ==>
                              r.rows[i].deviceId == answers[i].value.deviceId)
                        && (forall i, j :: 0 <= i < j < |slots| ==> r.rows[i].deviceId != r.rows[j].deviceId)
                        && (forall i, j :: 0 <= i < j < |slots| ==> !(r.rows[i].isDefault && r.rows[j].isDefault))
    ensures !AtMostOneDefaultWanted(slots, |slots|) ==> AllocateSpec(slots, answers, vmType).Failed?
    ensures !ExplicitIdsDistinct(answers, |answers|) ==> AllocateSpec(slots, answers, vmType).Failed?
  {
    var r := AllocateSpec(slots, answers, vmType);
    InitialInv(slots, answers);
    RunDone(slots, answers, vmType, 0, InitialState(|slots|));
    if r.Done? {
      assert Complete(slots, answers, r.rows);
      assert ExplicitIdsDistinct(answers, |answers|) by {
        forall i, j | 0 <= i < j < |answers| && answers[i].Some? && answers[j].Some? && answers[i].value.deviceId.Some?
          ensures answers[i].value.deviceId != answers[j].value.deviceId
        {
          assert r.rows[i].deviceId != r.rows[j].deviceId;
        }
      }
    }
  }

  /** Each failure of allocate has its cause in the batch. */
  lemma AllocateFailureCauses(slots: seq<Slot>, answers: seq<GuruAnswer>, vmType: VmType)
    requires |answers| == |slots|
    ensures AllocateSpec(slots, answers, vmType) == Failed(GuruDeclined) ==>
              exists i :: 0 <= i < |slots| && answers[i].None?
    ensures AllocateSpec(slots, answers, vmType) == Failed(DeviceIdTooLarge) ==>
              exists i :: 0 <= i < |slots| && answers[i].Some? && answers[i].value.deviceId.Some?
                          && (answers[i].value.deviceId.value < 0 || answers[i].value.deviceId.value >= |slots|)
    ensures AllocateSpec(slots, answers, vmType) == Failed(ConflictingDeviceId) ==>
              exists i :: 0 <= i < |slots| && answers[i].Some? && answers[i].value.deviceId.Some?
    ensures AllocateSpec(slots, answers, vmType) == Failed(TwoDefaultNics) ==> !AtMostOneDefaultWanted(slots, |slots|)
  {
    InitialInv(slots, answers);
    RunFailed(slots, answers, vmType, 0, InitialState(|slots|));
  }

  /** The loop state when no provider has chosen a device id: ids 0..k-1 handed out in order. */
  ghost predicate SequentialInv(slots: seq<Slot>, answers: seq<GuruAnswer>, k: nat, st: AllocState)
  {
    |answers| == |slots| && k <= |slots| && |st.occ| == |slots| && |st.rows| == k && st.cursor == k
    && (forall i :: 0 <= i < |slots| ==> (st.occ[i] <==> i < k))
    && (forall i :: 0 <= i < k ==> st.rows[i].deviceId == Some(i))
    && (st.defaultSeen <==> exists i :: 0 <= i < k && WantsDefault(slots[i]))
  }

  lemma {:induction false} RunSequential(slots: seq<Slot>, answers: seq<GuruAnswer>, vmType: VmType, k: nat, st: AllocState)
    requires SequentialInv(slots, answers, k, st)
    requires forall i :: 0 <= i < |answers| ==> answers[i].Some?
    requires NoExplicitIds(answers, |answers|) && AtMostOneDefaultWanted(slots, |slots|)
    ensures Run(slots, answers, vmType, k, st).Done? && |Run(slots, answers, vmType, k, st).rows| == |slots|
    ensures forall i :: 0 <= i < |slots| ==> Run(slots, answers, vmType, k, st).rows[i].deviceId == Some(i)
    decreases |slots| - k
  {
    if k < |slots| {
      assert Skip(st.occ, st.cursor) == k;
      var pair := AllocateNic(answers[k], slots[k].networkId, vmType, WantsDefault(slots[k]), k);
      var nic := pair.value.0;
      assert nic.deviceId == Some(k) && pair.value.1 == k + 1;
      assert !(nic.isDefault && st.defaultSeen);
      var next := AllocState(st.occ[k := true], k + 1, st.rows + [nic], st.defaultSeen || nic.isDefault);
      assert StepAt(slots, answers, vmType, k, st) == Continue(next);
      assert SequentialInv(slots, answers, k + 1, next);
      RunSequential(slots, answers, vmType, k + 1, next);
    }
  }

  /**
   * When no provider picks a device id, no two defaults are asked for and
   * every allocation succeeds, the batch succeeds and the NICs get device
   * ids 0, 1, 2, ... in slot order.
   */
  lemma SequentialDeviceIds(slots: seq<Slot>, answers: seq<GuruAnswer>, vmType: VmType)
    requires |answers| == |slots|
    requires forall i :: 0 <= i < |answers| ==> answers[i].Some?
    requires NoExplicitIds(answers, |answers|) && AtMostOneDefaultWanted(slots, |slots|)
    ensures AllocateSpec(slots, answers, vmType).Done? && |AllocateSpec(slots, answers, vmType).rows| == |slots|
    ensures forall i :: 0 <= i < |slots| ==> AllocateSpec(slots, answers, vmType).rows[i].deviceId == Some(i)
  {
    RunSequential(slots, answers, vmType, 0, InitialState(|slots|));
  }

  /**
   * With the guard as written, a batch of one NIC whose provider reports
   * device id 1 passes the size check although 1 is not an index of the
   * one-entry occupancy array; the corrected guard rejects it.
   */
  lemma AsWrittenGuardAdmitsOutOfRange()
    ensures var slots := Slots([NetworkRequest(7, None)]);
            var answer := Some(NicProfile(Some(1), None, false, None, None, None, None, None));
            var pair := AllocateNic(answer, 7, User, false, 0);
            |slots| == 1 && pair.Some? && pair.value.0.deviceId == Some(1)
            && !TooLargeAsWritten(pair.value.0.deviceId.value, |slots|)
            && AllocateSpec(slots, [answer], User) == Failed(DeviceIdTooLarge)
  {
    var slots := Slots([NetworkRequest(7, None)]);
    assert slots == [Slot(7, None)];
    var answer := Some(NicProfile(Some(1), None, false, None, None, None, None, None));
    assert Skip(InitialState(1).occ, 0) == 0;
    assert StepAt(slots, [answer], User, 0, InitialState(1)) == Stop(DeviceIdTooLarge);
  }

  /**
   * The guard as written also lets through a negative device id, which is
   * then used as an index; the corrected guard rejects it.
   */
  lemma AsWrittenGuardAdmitsNegative()
    ensures var slots := Slots([NetworkRequest(7, None)]);
            var answer := Some(NicProfile(Some(-1), None, false, None, None, None, None, None));
            var pair := AllocateNic(answer, 7, User, false, 0);
            |slots| == 1 && pair.Some? && pair.value.0.deviceId == Some(-1)
            && !TooLargeAsWritten(pair.value.0.deviceId.value, |slots|)
            && AllocateSpec(slots, [answer], User) == Failed(DeviceIdTooLarge)
  {
    var slots := Slots([NetworkRequest(7, None)]);
    assert slots == [Slot(7, None)];
    var answer := Some(NicProfile(Some(-1), None, false, None, None, None, None, None));
    assert Skip(InitialState(1).occ, 0) == 0;
    assert StepAt(slots, [answer], User, 0, InitialState(1)) == Stop(DeviceIdTooLarge);
  }

  /**
   * The cursor loop of allocate: advance past occupied device ids. The
   * source tests `deviceIds[deviceId]` before the bound; since fewer ids
   * are occupied than there are slots, the cursor never reaches the bound.
   */
  method SkipTaken(deviceIds: array<bool>, from: nat) returns (c: nat)
    requires from <= deviceIds.Length && Taken(deviceIds[..]) < deviceIds.Length
    requires forall i :: 0 <= i < from ==> deviceIds[i]
    ensures c == Skip(deviceIds[..], from) && c < deviceIds.Length
  {
    c := from;
    CursorInRange(deviceIds[..], c);
    while deviceIds[c] && c < deviceIds.Length
      invariant from <= c < deviceIds.Length
      invariant forall i :: 0 <= i < c ==> deviceIds[i]
      invariant Skip(deviceIds[..], c) == Skip(deviceIds[..], from)
      decreases deviceIds.Length - c
    {
      c := c + 1;
      CursorInRange(deviceIds[..], c);
    }
  }

  /**
   * The body of allocate's loop for slot `k`: skip the cursor, let
   * allocateNic build the NIC, check its device id against the occupancy
   * array, mark it, and reject a second default NIC.
   */
  method PlaceNic(slots: seq<Slot>, answers: seq<GuruAnswer>, vmType: VmType, k: nat,
                  deviceIds: array<bool>, cursor: nat, rows: seq<Nic>, defaultSeen: bool) returns (s: Step)
    requires |answers| == |slots| && k < |slots| && deviceIds.Length == |slots|
    requires cursor <= deviceIds.Length && Taken(deviceIds[..]) < deviceIds.Length
    requires forall i :: 0 <= i < cursor ==> deviceIds[i]
    modifies deviceIds
    ensures s == StepAt(slots, answers, vmType, k, AllocState(old(deviceIds[..]), cursor, rows, defaultSeen))
    ensures s.Continue? ==> deviceIds[..] == s.next.occ && Taken(deviceIds[..]) == Taken(old(deviceIds[..])) + 1
    ensures s.Continue? ==> s.next.cursor <= deviceIds.Length && forall i :: 0 <= i < s.next.cursor ==> deviceIds[i]
  {
    ghost var st := AllocState(deviceIds[..], cursor, rows, defaultSeen);
    var isDefaultNic := slots[k].requestedDefault == Some(true);
    var deviceId := SkipTaken(deviceIds, cursor);
    var pair := AllocateNic(answers[k], slots[k].networkId, vmType, isDefaultNic, deviceId);
    if pair.None? {
      return Stop(GuruDeclined);
    }
    var vmNic := pair.value.0;
    var devId := vmNic.deviceId.value;
    if TooLarge(devId, deviceIds.Length) {
      return Stop(DeviceIdTooLarge);
    }
    if deviceIds[devId] {
      return Stop(ConflictingDeviceId);
    }
    TakenSet(deviceIds[..], devId);
    deviceIds[devId] := true;
    if vmNic.isDefault && defaultSeen {
      return Stop(TwoDefaultNics);
    }
    s := Continue(AllocState(deviceIds[..], pair.value.1, rows + [vmNic], defaultSeen || vmNic.isDefault));
  }

  /**
   * allocate: run the loop body over the slots in order, stopping at the
   * first failure, and finally promote the only NIC of a one-NIC batch to
   * default (on the returned profile; the persisted row keeps its flag).
   */
  method Allocate(slots: seq<Slot>, answers: seq<GuruAnswer>, vmType: VmType) returns (r: AllocResult)
    requires |answers| == |slots|
    ensures r == AllocateSpec(slots, answers, vmType)
  {
    var n := |slots|;
    var deviceIds := new bool[n](_ => false);
    assert deviceIds[..] == InitialState(n).occ;
    NoneTaken(deviceIds[..]);
    var deviceId: nat := 0;
    var rows: seq<Nic> := [];
    var defaultSeen := false;
    var k := 0;
    while k < n
      invariant 0 <= k <= n && deviceIds.Length == n && deviceId <= n
      invariant Taken(deviceIds[..]) == k
      invariant forall i :: 0 <= i < deviceId ==> deviceIds[i]
      invariant Run(slots, answers, vmType, k, AllocState(deviceIds[..], deviceId, rows, defaultSeen))
                == AllocateSpec(slots, answers, vmType)
    {
      var step := PlaceNic(slots, answers, vmType, k, deviceIds, deviceId, rows, defaultSeen);
      match step {
        case Stop(e) =>
          return Failed(e);
        case Continue(next) =>
          deviceId := next.cursor;
          rows := next.rows;
          defaultSeen := next.defaultSeen;
          k := k + 1;
      }
    }
    return Done(rows, Promote(rows));
  }
}
