/**
 * The network lifecycle of the orchestrator: implementNetwork,
 * shutdownNetwork and destroyNetwork over one network row guarded by the
 * per-network lock, the implemented-equivalent and shared-with-services
 * tests they branch on, and setupNetwork's design loop.
 *
 * The network is a class whose fields the operations change step by step;
 * each method is proved equal to a function on a snapshot of those fields
 * (Row), and the lifecycle properties are lemmas about those functions.
 * The lock table is a re-entrant hold count, so that implement's rollback
 * can call shutdown while holding the lock. The state machine's table, the
 * lock's answer, the design provider's answers and the elements' answers
 * are parameters.
 */
module NetworkLifecycle {

  import opened Base
  import PD = ProviderDispatch

  // ---------------------------------------------------------------------
  // What a network is, and the tests on it
  // ---------------------------------------------------------------------

  /** The network offering: its guest type, the services it supports, and whether it is for system use only. */
  datatype Offering = Offering(guestType: GuestType, services: set<string>, systemOnly: bool)

  datatype AclType = AccountAcl | DomainAcl

  /**
   * What does not change while a network lives: its guest type, its
   * zone's network type, its offering and ACL type, the registered network
   * elements and the providers of the network's services.
   */
  datatype Shape = Shape(guestType: GuestType, zone: ZoneType, offering: Offering, aclType: AclType,
                         elements: seq<PD.Element>, providers: seq<string>)

  /** isSharedNetworkOfferingWithServices: a Shared offering with a rule-based service. */
  predicate IsSharedNetworkOfferingWithServices(offering: Offering)
  {
    offering.guestType == Shared
    && ("SourceNat" in offering.services || "StaticNat" in offering.services || "Firewall" in offering.services
        || "PortForwarding" in offering.services || "Lb" in offering.services)
  }

  /** isSharedNetworkWithServices: such a network is driven by direct state writes. */
  predicate IsSharedNetworkWithServices(shape: Shape)
  {
    shape.guestType == Shared && shape.zone == Advanced && IsSharedNetworkOfferingWithServices(shape.offering)
  }

  /** isNetworkImplemented: Implemented, or Setup unless the offering is shared-with-services in an Advanced zone. */
  predicate IsNetworkImplemented(shape: Shape, state: NetworkState)
  {
    state == Implemented || (state == Setup && (!IsSharedNetworkOfferingWithServices(shape.offering) || shape.zone == Basic))
  }

  /** resourceCountNeedsUpdate: only Isolated, non-system, account-owned networks count against the account. */
  predicate ResourceCountNeedsUpdate(offering: Offering, aclType: AclType)
  {
    offering.guestType == Isolated && !offering.systemOnly && aclType == AccountAcl
  }

  /** The network-level addressing the design provider materialises. */
  datatype Layout = Layout(cidr: Option<string>, gateway: Option<string>, broadcastUri: Option<string>,
                           mode: Option<string>, physicalNetworkId: Option<int>)

  /** A snapshot of the network's changing fields. */
  datatype Row = Row(
    state: NetworkState,
    restartRequired: bool,
    reservationId: Option<string>,
    layout: Layout,
    lockCount: nat,        // holds of the network's lock-table entry
    checkForGc: bool,      // flagged for the idle-network collector
    activeNics: int,       // the active-NIC count
    removed: bool)

  /** The answer of acquireInLockTable: a timeout, or the row as re-read under the lock. */
  datatype LockOutcome = TimedOut | Granted(seen: NetworkState)

  /** stateTransitTo with the state written on a rejected transition. */
  function TransitOr(fsm: Fsm, s: NetworkState, e: NetworkEvent, fallback: NetworkState): (r: NetworkState)
    ensures (s, e) in fsm ==> r == fsm[(s, e)]
    ensures (s, e) !in fsm ==> r == fallback
  {
    match Transit(fsm, s, e)
    case Some(t) => t
    case None => fallback
  }

  // ---------------------------------------------------------------------
  // shutdownNetwork
  // ---------------------------------------------------------------------

  /**
   * shutdownNetwork once the lock is held and the state is Implemented or
   * Shutdown: move to the shutdown state (a direct write for a
   * shared-with-services network, else DestroyNetwork with Shutdown as
   * fallback), run the elements, then on full success take the design
   * provider's profile, go to Setup (shared-with-services offering in an
   * Advanced zone) or by OperationSucceeded (fallback Allocated with
   * restartRequired cleared), and clear the collector flag; on failure go
   * by OperationFailed (fallback Implemented).
   */
  function ShutdownHeld(shape: Shape, fsm: Fsm, row: Row, answers: seq<PD.ElementAnswer>, profile: Layout): (r: (Row, bool))
    requires |answers| == |shape.elements|
    ensures r.0.lockCount == row.lockCount && r.0.activeNics == row.activeNics && r.0.removed == row.removed
    ensures r.0.reservationId == row.reservationId
  {
    var down := if IsSharedNetworkWithServices(shape) then Shutdown else TransitOr(fsm, row.state, DestroyNetwork, Shutdown);
    if PD.AllSucceeded(shape.elements, shape.providers, answers) then
      var r1 := row.(state := down, layout := profile, checkForGc := false);
      if IsSharedNetworkOfferingWithServices(shape.offering) && shape.zone == Advanced then (r1.(state := Setup), true)
      else if (down, OperationSucceeded) in fsm then (r1.(state := fsm[(down, OperationSucceeded)]), true)
      else (r1.(state := Allocated, restartRequired := false), true)
    else (row.(state := TransitOr(fsm, down, OperationFailed, Implemented)), false)
  }

  /** shutdownNetwork: the early exits, the lock and the re-check under it, then ShutdownHeld. */
  function ShutdownSpec(shape: Shape, fsm: Fsm, row: Row, lock: LockOutcome, answers: seq<PD.ElementAnswer>, profile: Layout):
    (r: (Row, bool))
    requires |answers| == |shape.elements|
    ensures r.0.lockCount == row.lockCount && r.0.activeNics == row.activeNics && r.0.removed == row.removed
  {
    if row.state == Allocated then (row, true)
    else if row.state != Implemented && row.state != Shutdown then (row, false)
    else match lock
      case TimedOut => (row, false)
      case Granted(seen) =>
        var after := ShutdownLocked(shape, fsm, row.(state := seen, lockCount := row.lockCount + 1), answers, profile);
        (after.0.(lockCount := after.0.lockCount - 1), after.1)
  }

  /** shutdownNetwork between taking and releasing the lock: the re-check of the re-read row, then ShutdownHeld. */
  function ShutdownLocked(shape: Shape, fsm: Fsm, held: Row, answers: seq<PD.ElementAnswer>, profile: Layout): (r: (Row, bool))
    requires |answers| == |shape.elements|
    ensures r.0.lockCount == held.lockCount && r.0.activeNics == held.activeNics && r.0.removed == held.removed
  {
    if held.state == Allocated then (held, true)
    else if held.state != Implemented && held.state != Shutdown then (held, false)
    else ShutdownHeld(shape, fsm, held, answers, profile)
  }

  // ---------------------------------------------------------------------
  // implementNetwork
  // ---------------------------------------------------------------------

  /** How a failed implement attempt ended: an exception caught into a null result, or one that propagates. */
  datatype Failure = Caught | Propagated

  datatype ImplementResult =
    | AlreadyImplemented
    | ImplementedNow
    | ImplementLockFailed                  // ConcurrentOperationException
    | ImplementFailed(propagated: bool)    // null result, or the exception re-raised

  /** The answers the rollback's shutdownNetwork call receives. */
  datatype RollbackAnswers = RollbackAnswers(answers: seq<PD.ElementAnswer>, profile: Layout)

  /**
   * The body of implementNetwork under the lock: stamp the reservation id,
   * move to Implementing, take the design provider's layout, run the
   * elements (`elements` is the outcome of the dispatch bracket), move to
   * Implemented and clear restartRequired. None is success.
   */
  function ImplementHeld(shape: Shape, fsm: Fsm, row: Row, reservationId: string, guru: Option<Layout>,
                         elements: PD.ImplementOutcome): (r: (Row, Option<Failure>))
    ensures r.0.lockCount == row.lockCount && r.0.activeNics == row.activeNics && r.0.removed == row.removed
    ensures r.0.reservationId == Some(reservationId)
  {
    var r1 := row.(reservationId := Some(reservationId));
    var up := if IsSharedNetworkWithServices(shape) then Some(Implementing) else Transit(fsm, r1.state, ImplementNetwork);
    if up.None? then (r1, Some(Caught))
    else
      var r2 := r1.(state := up.value);
      if guru.None? then (r2, Some(Propagated))
      else
        var r3 := r2.(layout := guru.value);
        if elements.ElementFailed? then (r3, Some(Caught))
        else if !elements.AllImplemented? then (r3, Some(Propagated))
        else
          var done := if IsSharedNetworkWithServices(shape) then Some(Implemented) else Transit(fsm, r3.state, OperationSucceeded);
          if done.None? then (r3, Some(Caught))
          else (r3.(state := done.value, restartRequired := false), None)
  }

  /** The rollback of a failed implement: the failure state, then shutdownNetwork under the held lock. */
  function Rollback(shape: Shape, fsm: Fsm, row: Row, rollback: RollbackAnswers): (r: Row)
    requires |rollback.answers| == |shape.elements|
    ensures r.lockCount == row.lockCount && r.activeNics == row.activeNics && r.removed == row.removed
  {
    var failed := if IsSharedNetworkWithServices(shape) then Some(Shutdown) else Transit(fsm, row.state, OperationFailed);
    var marked := if failed.Some? then row.(state := failed.value) else row;
    ShutdownSpec(shape, fsm, marked, Granted(marked.state), rollback.answers, rollback.profile).0
  }

  /** implementNetwork between taking and releasing the lock: the re-check, the attempt and its rollback. */
  function ImplementLocked(shape: Shape, fsm: Fsm, held: Row, reservationId: string, guru: Option<Layout>,
                           elements: PD.ImplementOutcome, rollback: RollbackAnswers): (r: (Row, ImplementResult))
    requires |rollback.answers| == |shape.elements|
    ensures r.0.lockCount == held.lockCount && r.0.activeNics == held.activeNics && r.0.removed == held.removed
  {
    if IsNetworkImplemented(shape, held.state) then (held, AlreadyImplemented)
    else
      var attempt := ImplementHeld(shape, fsm, held, reservationId, guru, elements);
      if attempt.1.None? then (attempt.0, ImplementedNow)
      else (Rollback(shape, fsm, attempt.0, rollback), ImplementFailed(attempt.1.value == Propagated))
  }

  /** implementNetwork: the early exit, the lock, and ImplementLocked while it is held. */
  function ImplementSpec(shape: Shape, fsm: Fsm, row: Row, lock: LockOutcome, reservationId: string, guru: Option<Layout>,
                         elements: PD.ImplementOutcome, rollback: RollbackAnswers): (r: (Row, ImplementResult))
    requires |rollback.answers| == |shape.elements|
    ensures r.0.lockCount == row.lockCount && r.0.activeNics == row.activeNics && r.0.removed == row.removed
  {
    if IsNetworkImplemented(shape, row.state) then (row, AlreadyImplemented)
    else match lock
      case TimedOut => (row, ImplementLockFailed)
      case Granted(seen) =>
        var after := ImplementLocked(shape, fsm, row.(state := seen, lockCount := row.lockCount + 1),
                                     reservationId, guru, elements, rollback);
        (after.0.(lockCount := after.0.lockCount - 1), after.1)
  }

  // ---------------------------------------------------------------------
  // destroyNetwork
  // ---------------------------------------------------------------------

  /** What destroyNetwork learns from its collaborators. */
  datatype DestroyAnswers = DestroyAnswers(
    userVmsExpunged: bool,                        // every user VM on the network is Expunging and removed
    systemVmsPresent: bool,                       // non-removed console proxy / secondary storage VMs (Basic zones)
    shutdownLock: LockOutcome,
    shutdownAnswers: seq<PD.ElementAnswer>,
    shutdownProfile: Layout,
    cleanupOk: bool,                              // cleanupNetworkResources
    destroyAnswers: seq<PD.ElementAnswer>,        // each element's destroy
    vlansDeleted: bool)                           // deleteVlansInNetwork

  predicate WellFormed(shape: Shape, a: DestroyAnswers)
  {
    |a.shutdownAnswers| == |shape.elements| && |a.destroyAnswers| == |shape.elements|
  }

  datatype DestroyResult =
    | Destroyed(decrementResourceCount: bool)
    | NotDestroyed

  /**
   * destroyNetwork: refuse a removed network or one with user VMs not yet
   * expunged; zero a positive active-NIC count; refuse a Basic-zone
   * network with system VMs; shut the network down; unless forced, refuse
   * unless it is now Allocated or Setup; then the resource cleanup, every
   * element's destroy and the VLAN deletion must all succeed before the
   * row goes by DestroyNetwork (a rejection is ignored) and is removed.
   */
  function DestroySpec(shape: Shape, fsm: Fsm, row: Row, forced: bool, a: DestroyAnswers): (r: (Row, DestroyResult))
    requires WellFormed(shape, a)
    ensures r.0.lockCount == row.lockCount
  {
    if row.removed || !a.userVmsExpunged then (row, NotDestroyed)
    else
      var r1 := if row.activeNics > 0 then row.(activeNics := 0) else row;
      if shape.zone == Basic && a.systemVmsPresent then (r1, NotDestroyed)
      else
        var r2 := ShutdownSpec(shape, fsm, r1, a.shutdownLock, a.shutdownAnswers, a.shutdownProfile).0;
        if r2.state != Allocated && r2.state != Setup && !forced then (r2, NotDestroyed)
        else if !a.cleanupOk || !PD.AllSucceeded(shape.elements, shape.providers, a.destroyAnswers) || !a.vlansDeleted then
          (r2, NotDestroyed)
        else
          (r2.(state := TransitOr(fsm, r2.state, DestroyNetwork, r2.state), removed := true),
           Destroyed(ResourceCountNeedsUpdate(shape.offering, shape.aclType)))
  }

  // ---------------------------------------------------------------------
  // The network
  // ---------------------------------------------------------------------

  class Network {
    const shape: Shape
    var state: NetworkState
    var restartRequired: bool
    var reservationId: Option<string>
    var layout: Layout
    var lockCount: nat
    var checkForGc: bool
    var activeNics: int
    var removed: bool

    function Snapshot(): Row
      reads this
    {
      Row(state, restartRequired, reservationId, layout, lockCount, checkForGc, activeNics, removed)
    }

    /** A freshly designed network: Allocated, not locked, no active NICs. */
    constructor (shape: Shape, layout: Layout)
      ensures this.shape == shape
      ensures Snapshot() == Row(Allocated, false, None, layout, 0, false, 0, false)
    {
      this.shape := shape;
      state := Allocated;
      restartRequired := false;
      reservationId := None;
      this.layout := layout;
      lockCount := 0;
      checkForGc := false;
      activeNics := 0;
      removed := false;
    }

    method ShutdownNetwork(fsm: Fsm, lock: LockOutcome, answers: seq<PD.ElementAnswer>, profile: Layout)
      returns (ok: bool)
      requires |answers| == |shape.elements|
      modifies this
      ensures (Snapshot(), ok) == ShutdownSpec(shape, fsm, old(Snapshot()), lock, answers, profile)
    {
      if state == Allocated {
        return true;
      }
      if state != Implemented && state != Shutdown {
        return false;
      }
      if lock.TimedOut? {
        return false;
      }
      ok := ShutdownGranted(fsm, lock.seen, answers, profile);
    }

    /** shutdownNetwork once the lock is granted: the held section, then the lock's release. */
    method ShutdownGranted(fsm: Fsm, seen: NetworkState, answers: seq<PD.ElementAnswer>, profile: Layout) returns (ok: bool)
      requires |answers| == |shape.elements|
      modifies this
      ensures (Snapshot(), ok) == (var after := ShutdownLocked(shape, fsm, old(Snapshot()).(state := seen, lockCount := old(lockCount) + 1), answers, profile);
                                   (after.0.(lockCount := after.0.lockCount - 1), after.1))
    {
      AcquireLock(seen);
      ok := ShutdownWhileHeld(fsm, answers, profile);
      ReleaseLock();
    }

    /** The part of shutdownNetwork inside its try block, with the lock held. */
    method ShutdownWhileHeld(fsm: Fsm, answers: seq<PD.ElementAnswer>, profile: Layout) returns (ok: bool)
      requires |answers| == |shape.elements|
      modifies this
      ensures (Snapshot(), ok) == ShutdownLocked(shape, fsm, old(Snapshot()), answers, profile)
    {
      if state == Allocated {
        ok := true;
      } else if state != Implemented && state != Shutdown {
        ok := false;
      } else {
        ok := ShutdownUnderLock(fsm, answers, profile);
      }
    }

    /** The part of shutdownNetwork that runs with the lock held and the state re-checked. */
    method ShutdownUnderLock(fsm: Fsm, answers: seq<PD.ElementAnswer>, profile: Layout) returns (ok: bool)
      requires |answers| == |shape.elements|
      modifies this
      ensures (Snapshot(), ok) == ShutdownHeld(shape, fsm, old(Snapshot()), answers, profile)
    {
      if IsSharedNetworkWithServices(shape) {
        state := Shutdown;
      } else {
        var t := Transit(fsm, state, NetworkEvent.DestroyNetwork);
        state := if t.Some? then t.value else Shutdown;
      }
      var success, _ := PD.AggregateElementResults(shape.elements, shape.providers, answers);
      if success {
        layout := profile;
        if IsSharedNetworkOfferingWithServices(shape.offering) && shape.zone == Advanced {
          state := Setup;
        } else {
          var t := Transit(fsm, state, OperationSucceeded);
          if t.Some? {
            state := t.value;
          } else {
            state := Allocated;
            restartRequired := false;
          }
        }
        checkForGc := false;
        ok := true;
      } else {
        var t := Transit(fsm, state, OperationFailed);
        state := if t.Some? then t.value else Implemented;
        ok := false;
      }
    }

    method ImplementNetwork(fsm: Fsm, lock: LockOutcome, reservation: string, guru: Option<Layout>,
                            elements: PD.ImplementOutcome, rollback: RollbackAnswers)
      returns (result: ImplementResult)
      requires |rollback.answers| == |shape.elements|
      modifies this
      ensures (Snapshot(), result) == ImplementSpec(shape, fsm, old(Snapshot()), lock, reservation, guru, elements, rollback)
    {
      if IsNetworkImplemented(shape, state) {
        return AlreadyImplemented;
      }
      if lock.TimedOut? {
        return ImplementLockFailed;
      }
      result := ImplementGranted(fsm, lock.seen, reservation, guru, elements, rollback);
    }

    /** implementNetwork once the lock is granted: the held section, then the lock's release. */
    method ImplementGranted(fsm: Fsm, seen: NetworkState, reservation: string, guru: Option<Layout>,
                            elements: PD.ImplementOutcome, rollback: RollbackAnswers)
      returns (result: ImplementResult)
      requires |rollback.answers| == |shape.elements|
      requires !IsNetworkImplemented(shape, state)
      modifies this
      ensures (Snapshot(), result) == ImplementSpec(shape, fsm, old(Snapshot()), Granted(seen), reservation, guru, elements, rollback)
    {
      AcquireLock(seen);
      result := ImplementWithLock(fsm, reservation, guru, elements, rollback);
      ReleaseLock();
    }

    /** acquireInLockTable granted: one more hold, and the row as re-read under the lock. */
    method AcquireLock(seen: NetworkState)
      modifies this
      ensures Snapshot() == old(Snapshot()).(state := seen, lockCount := old(lockCount) + 1)
    {
      lockCount := lockCount + 1;
      state := seen;
    }

    /** releaseFromLockTable: one hold fewer. */
    method ReleaseLock()
      requires lockCount > 0
      modifies this
      ensures Snapshot() == old(Snapshot()).(lockCount := old(lockCount) - 1)
    {
      lockCount := lockCount - 1;
    }

    /** The body of implementNetwork while the lock is held, including its finally block's rollback. */
    method ImplementWithLock(fsm: Fsm, reservation: string, guru: Option<Layout>,
                             elements: PD.ImplementOutcome, rollback: RollbackAnswers)
      returns (result: ImplementResult)
      requires |rollback.answers| == |shape.elements|
      modifies this
      ensures (Snapshot(), result) == ImplementLocked(shape, fsm, old(Snapshot()), reservation, guru, elements, rollback)
    {
      if IsNetworkImplemented(shape, state) {
        return AlreadyImplemented;
      }
      var failure := ImplementUnderLock(fsm, reservation, guru, elements);
      if failure.None? {
        return ImplementedNow;
      }
      RollBack(fsm, rollback);
      return ImplementFailed(failure.value == Propagated);
    }

    /** The try block of implementNetwork. */
    method ImplementUnderLock(fsm: Fsm, reservation: string, guru: Option<Layout>, elements: PD.ImplementOutcome)
      returns (failure: Option<Failure>)
      modifies this
      ensures (Snapshot(), failure) == ImplementHeld(shape, fsm, old(Snapshot()), reservation, guru, elements)
    {
      reservationId := Some(reservation);
      if IsSharedNetworkWithServices(shape) {
        state := Implementing;
      } else {
        var t := Transit(fsm, state, NetworkEvent.ImplementNetwork);
        if t.None? {
          return Some(Caught);
        }
        state := t.value;
      }
      if guru.None? {
        return Some(Propagated);
      }
      layout := guru.value;
      if elements.ElementFailed? {
        return Some(Caught);
      }
      if !elements.AllImplemented? {
        return Some(Propagated);
      }
      if IsSharedNetworkWithServices(shape) {
        state := Implemented;
      } else {
        var t := Transit(fsm, state, OperationSucceeded);
        if t.None? {
          return Some(Caught);
        }
        state := t.value;
      }
      restartRequired := false;
      return None;
    }

    /** The finally block of implementNetwork when nothing was implemented. */
    method RollBack(fsm: Fsm, rollback: RollbackAnswers)
      requires |rollback.answers| == |shape.elements|
      modifies this
      ensures Snapshot() == Rollback(shape, fsm, old(Snapshot()), rollback)
    {
      if IsSharedNetworkWithServices(shape) {
        state := Shutdown;
      } else {
        var t := Transit(fsm, state, OperationFailed);
        if t.Some? {
          state := t.value;
        }
      }
      var _ := ShutdownNetwork(fsm, Granted(state), rollback.answers, rollback.profile);
    }

    method DestroyNetwork(fsm: Fsm, forced: bool, a: DestroyAnswers) returns (result: DestroyResult)
      requires WellFormed(shape, a)
      modifies this
      ensures (Snapshot(), result) == DestroySpec(shape, fsm, old(Snapshot()), forced, a)
    {
      if removed || !a.userVmsExpunged {
        return NotDestroyed;
      }
      var nicCount := activeNics;
      if nicCount > 0 {
        activeNics := activeNics - nicCount;
      }
      if shape.zone == Basic && a.systemVmsPresent {
        return NotDestroyed;
      }
      var _ := ShutdownNetwork(fsm, a.shutdownLock, a.shutdownAnswers, a.shutdownProfile);
      if state != Allocated && state != Setup && !forced {
        return NotDestroyed;
      }
      if !a.cleanupOk {
        return NotDestroyed;
      }
      var success, _ := PD.AggregateElementResults(shape.elements, shape.providers, a.destroyAnswers);
      if !success || !a.vlansDeleted {
        return NotDestroyed;
      }
      var t := Transit(fsm, state, NetworkEvent.DestroyNetwork);
      if t.Some? {
        state := t.value;
      }
      removed := true;
      return Destroyed(ResourceCountNeedsUpdate(shape.offering, shape.aclType));
    }
  }

  // ---------------------------------------------------------------------
  // Lifecycle properties
  // ---------------------------------------------------------------------

  /**
   * The entries of the network state machine the lifecycle relies on: a
   * fresh network is implemented through Implementing, a failed implement
   * or a shutdown passes through Shutdown, and Shutdown returns to
   * Allocated on success and to Implemented on failure.
   */
  predicate UsualTransitions(fsm: Fsm)
  {
    && (Allocated, ImplementNetwork) in fsm && fsm[(Allocated, ImplementNetwork)] == Implementing
    && (Implementing, OperationSucceeded) in fsm && fsm[(Implementing, OperationSucceeded)] == Implemented
    && (Implementing, OperationFailed) in fsm && fsm[(Implementing, OperationFailed)] == Shutdown
    && (Implemented, DestroyNetwork) in fsm && fsm[(Implemented, DestroyNetwork)] == Shutdown
    && (Shutdown, OperationSucceeded) in fsm && fsm[(Shutdown, OperationSucceeded)] == Allocated
    && (Shutdown, OperationFailed) in fsm && fsm[(Shutdown, OperationFailed)] == Implemented
  }

  /** The network can be moved to its implementing state from `seen`. */
  predicate CanStartImplementing(shape: Shape, fsm: Fsm, seen: NetworkState)
  {
    IsSharedNetworkWithServices(shape) || (seen, ImplementNetwork) in fsm
  }

  /** The state machine has both steps of a successful implement from `seen`. */
  predicate ImplementPathExists(shape: Shape, fsm: Fsm, seen: NetworkState)
  {
    IsSharedNetworkWithServices(shape)
    || ((seen, ImplementNetwork) in fsm && (fsm[(seen, ImplementNetwork)], OperationSucceeded) in fsm)
  }

  /**
   * implementNetwork's outcomes: an implemented network is returned
   * untouched without the lock; a timed-out lock changes nothing; a network
   * found implemented under the lock is left as found; the attempt
   * succeeds exactly when the state machine has the path, the design
   * provider answers and the elements all implement, and then carries
   * this reservation id and the provider's layout with restartRequired
   * cleared; the lock's hold count is back where it was on every path.
   */
  lemma ImplementOutcomes(shape: Shape, fsm: Fsm, row: Row, lock: LockOutcome, reservationId: string, guru: Option<Layout>,
                          elements: PD.ImplementOutcome, rollback: RollbackAnswers)
    requires |rollback.answers| == |shape.elements|
    ensures var (row', result) := ImplementSpec(shape, fsm, row, lock, reservationId, guru, elements, rollback);
            row'.lockCount == row.lockCount
            && (IsNetworkImplemented(shape, row.state) ==> row' == row && result == AlreadyImplemented)
            && (!IsNetworkImplemented(shape, row.state) && lock.TimedOut? ==> row' == row && result == ImplementLockFailed)
            && (result == ImplementedNow <==>
                  !IsNetworkImplemented(shape, row.state) && lock.Granted? && !IsNetworkImplemented(shape, lock.seen)
                  && ImplementPathExists(shape, fsm, lock.seen) && guru.Some? && elements.AllImplemented?)
            && (result == ImplementedNow ==>
                  !row'.restartRequired && row'.reservationId == Some(reservationId) && row'.layout == guru.value)
            && (result.ImplementFailed? ==>
                  lock.Granted?
                  && (result.propagated <==>
                        CanStartImplementing(shape, fsm, lock.seen)
                        && (guru.None? || (!elements.ElementFailed? && !elements.AllImplemented?))))
  {
    if lock.Granted? && !IsNetworkImplemented(shape, row.state) {
      var held := row.(state := lock.seen, lockCount := row.lockCount + 1);
      var _ := ImplementLocked(shape, fsm, held, reservationId, guru, elements, rollback);
    }
  }

  /**
   * With the usual table, a fresh non-shared network whose design provider
   * and elements succeed ends Implemented; implementing it again, whatever
   * the lock and the collaborators would answer, changes nothing.
   */
  lemma ImplementIdempotent(shape: Shape, fsm: Fsm, row: Row, reservationId: string, layout: Layout, rollback: RollbackAnswers,
                            lock2: LockOutcome, reservation2: string, guru2: Option<Layout>, elements2: PD.ImplementOutcome)
    requires |rollback.answers| == |shape.elements|
    requires UsualTransitions(fsm) && !IsSharedNetworkWithServices(shape) && row.state == Allocated
    ensures var (row', result) := ImplementSpec(shape, fsm, row, Granted(Allocated), reservationId, Some(layout), PD.AllImplemented, rollback);
            result == ImplementedNow && row'.state == Implemented
            && ImplementSpec(shape, fsm, row', lock2, reservation2, guru2, elements2, rollback) == (row', AlreadyImplemented)
  {
  }

  /**
   * A failed implement attempt under the lock, with any state-machine
   * table: the network is marked failed (a direct Shutdown write for a
   * shared-with-services network, else OperationFailed, a rejected
   * transition leaving the state as it was) and then goes through
   * shutdownNetwork as marked, under the lock it already holds
   * (SharedRollbackShutsDown and ShutdownFallbacks say where that ends;
   * a mark that leaves the network neither Implemented, Shutdown nor
   * Allocated makes that shutdown refuse, so the network stays as marked).
   */
  lemma FailedImplementRollsBack(shape: Shape, fsm: Fsm, held: Row, reservationId: string,
                                 guru: Option<Layout>, elements: PD.ImplementOutcome, rollback: RollbackAnswers)
    requires |rollback.answers| == |shape.elements|
    requires !IsNetworkImplemented(shape, held.state)
    ensures var (row', result) := ImplementLocked(shape, fsm, held, reservationId, guru, elements, rollback);
            var attempt := ImplementHeld(shape, fsm, held, reservationId, guru, elements);
            var marked := if IsSharedNetworkWithServices(shape) then Shutdown
                          else TransitOr(fsm, attempt.0.state, OperationFailed, attempt.0.state);
            (result.ImplementFailed? <==> attempt.1.Some?)
            && (result.ImplementFailed? ==>
                  row' == ShutdownSpec(shape, fsm, attempt.0.(state := marked), Granted(marked), rollback.answers, rollback.profile).0)
  {
    var attempt := ImplementHeld(shape, fsm, held, reservationId, guru, elements);
    if attempt.1.Some? {
      var failed := if IsSharedNetworkWithServices(shape) then Some(Shutdown) else Transit(fsm, attempt.0.state, OperationFailed);
      var marked := if IsSharedNetworkWithServices(shape) then Shutdown
                    else TransitOr(fsm, attempt.0.state, OperationFailed, attempt.0.state);
      assert (if failed.Some? then attempt.0.(state := failed.value) else attempt.0) == attempt.0.(state := marked);
    }
  }

  /**
   * The rollback's shutdown of a shared-with-services network, marked
   * Shutdown by a direct write: it always proceeds, ends in Setup with the
   * collector flag cleared when the elements succeed, and otherwise
   * follows OperationFailed from Shutdown (Implemented when rejected).
   */
  lemma SharedRollbackShutsDown(shape: Shape, fsm: Fsm, row: Row, answers: seq<PD.ElementAnswer>, profile: Layout)
    requires |answers| == |shape.elements| && IsSharedNetworkWithServices(shape)
    ensures var (row', ok) := ShutdownSpec(shape, fsm, row.(state := Shutdown), Granted(Shutdown), answers, profile);
            var success := PD.AllSucceeded(shape.elements, shape.providers, answers);
            ok == success && row'.lockCount == row.lockCount
            && (success ==> row'.state == Setup && !row'.checkForGc && row'.layout == profile)
            && (!success ==> row'.state == TransitOr(fsm, Shutdown, OperationFailed, Implemented))
  {
  }

  /**
   * With the usual table, a fresh non-shared network whose implement fails
   * after Implementing is rolled back through Shutdown: when the rollback's
   * elements all shut down it ends Allocated with the collector flag off;
   * when one of them fails it ends Implemented.
   */
  lemma FailedImplementUsualTable(shape: Shape, fsm: Fsm, row: Row, reservationId: string, guru: Option<Layout>,
                                  elements: PD.ImplementOutcome, rollback: RollbackAnswers)
    requires |rollback.answers| == |shape.elements|
    requires UsualTransitions(fsm) && (Shutdown, DestroyNetwork) !in fsm
    requires !IsSharedNetworkWithServices(shape) && !IsSharedNetworkOfferingWithServices(shape.offering)
    requires row.state == Allocated
    requires guru.None? || !elements.AllImplemented?
    ensures var (row', result) := ImplementSpec(shape, fsm, row, Granted(Allocated), reservationId, guru, elements, rollback);
            result.ImplementFailed? && row'.lockCount == row.lockCount
            && (PD.AllSucceeded(shape.elements, shape.providers, rollback.answers) ==>
                  row'.state == Allocated && !row'.checkForGc)
            && (!PD.AllSucceeded(shape.elements, shape.providers, rollback.answers) ==> row'.state == Implemented)
  {
    FailedUsualLocked(shape, fsm, row.(state := Allocated, lockCount := row.lockCount + 1),
                      reservationId, guru, elements, rollback);
  }

  /** FailedImplementUsualTable while the lock is held. */
  lemma FailedUsualLocked(shape: Shape, fsm: Fsm, held: Row, reservationId: string, guru: Option<Layout>,
                          elements: PD.ImplementOutcome, rollback: RollbackAnswers)
    requires |rollback.answers| == |shape.elements|
    requires UsualTransitions(fsm) && (Shutdown, DestroyNetwork) !in fsm
    requires !IsSharedNetworkWithServices(shape) && !IsSharedNetworkOfferingWithServices(shape.offering)
    requires held.state == Allocated
    requires guru.None? || !elements.AllImplemented?
    ensures var (row', result) := ImplementLocked(shape, fsm, held, reservationId, guru, elements, rollback);
            result.ImplementFailed?
            && (PD.AllSucceeded(shape.elements, shape.providers, rollback.answers) ==>
                  row'.state == Allocated && !row'.checkForGc)
            && (!PD.AllSucceeded(shape.elements, shape.providers, rollback.answers) ==> row'.state == Implemented)
  {
    var attempt := ImplementHeld(shape, fsm, held, reservationId, guru, elements);
    assert attempt.0.state == Implementing && attempt.1.Some?;
    FailedImplementRollsBack(shape, fsm, held, reservationId, guru, elements, rollback);
    ShutdownOutcomes(shape, fsm, attempt.0.(state := Shutdown), Granted(Shutdown), rollback.answers, rollback.profile);
  }

  /**
   * shutdownNetwork's outcomes: an Allocated network is reported shut down
   * and left alone; one neither Implemented nor Shutdown is refused and
   * left alone, and so is every network when the lock times out or the
   * re-read row says so; otherwise the result is exactly the elements'
   * aggregate success, a success ends in Setup (shared-with-services
   * offering in an Advanced zone) or Allocated under the usual table with
   * the collector flag cleared, and a failure under the usual table ends
   * Implemented. The lock's hold count is back where it was on every path.
   */
  lemma ShutdownOutcomes(shape: Shape, fsm: Fsm, row: Row, lock: LockOutcome, answers: seq<PD.ElementAnswer>, profile: Layout)
    requires |answers| == |shape.elements|
    ensures var (row', ok) := ShutdownSpec(shape, fsm, row, lock, answers, profile);
            var proceeds := (row.state == Implemented || row.state == Shutdown) && lock.Granted?
                            && (lock.seen == Implemented || lock.seen == Shutdown);
            var success := PD.AllSucceeded(shape.elements, shape.providers, answers);
            row'.lockCount == row.lockCount
            && (row.state == Allocated ==> row' == row && ok)
            && (row.state != Allocated && row.state != Implemented && row.state != Shutdown ==> row' == row && !ok)
            && ((row.state == Implemented || row.state == Shutdown) && lock.TimedOut? ==> row' == row && !ok)
            && (proceeds ==> (ok <==> success))
            && (proceeds && success ==> !row'.checkForGc && row'.layout == profile)
            && (proceeds && success && IsSharedNetworkOfferingWithServices(shape.offering) && shape.zone == Advanced ==>
                  row'.state == Setup)
            && ((proceeds && success && UsualTransitions(fsm) && !IsSharedNetworkOfferingWithServices(shape.offering)
                 && lock.seen == Implemented) ==> row'.state == Allocated)
            && ((proceeds && !success && UsualTransitions(fsm) && !IsSharedNetworkWithServices(shape)
                 && lock.seen == Implemented) ==> row'.state == Implemented)
  {
  }

  /**
   * shutdownNetwork's transitions under any state-machine table, once it
   * proceeds under the lock: the network first goes to its shutdown state
   * (a direct Shutdown write for a shared-with-services network, else
   * DestroyNetwork, or Shutdown when that is rejected). On success, unless
   * the offering is shared-with-services in an Advanced zone, it follows
   * OperationSucceeded, and when the table rejects that it ends Allocated
   * with restartRequired cleared. On failure it follows OperationFailed,
   * ends Implemented when that is rejected, and nothing else changes.
   */
  lemma ShutdownFallbacks(shape: Shape, fsm: Fsm, row: Row, seen: NetworkState, answers: seq<PD.ElementAnswer>, profile: Layout)
    requires |answers| == |shape.elements|
    requires row.state == Implemented || row.state == Shutdown
    requires seen == Implemented || seen == Shutdown
    ensures var (row', ok) := ShutdownSpec(shape, fsm, row, Granted(seen), answers, profile);
            var down := if IsSharedNetworkWithServices(shape) then Shutdown
                        else if (seen, DestroyNetwork) in fsm then fsm[(seen, DestroyNetwork)] else Shutdown;
            var success := PD.AllSucceeded(shape.elements, shape.providers, answers);
            var direct := IsSharedNetworkOfferingWithServices(shape.offering) && shape.zone == Advanced;
            (success && !direct && (down, OperationSucceeded) !in fsm ==>
               row'.state == Allocated && !row'.restartRequired)
            && (success && !direct && (down, OperationSucceeded) in fsm ==>
                  row'.state == fsm[(down, OperationSucceeded)] && row'.restartRequired == row.restartRequired)
            && (!success && (down, OperationFailed) !in fsm ==> row' == row.(state := Implemented))
            && (!success && (down, OperationFailed) in fsm ==> row' == row.(state := fsm[(down, OperationFailed)]))
  {
  }

  /**
   * destroyNetwork's outcomes: a destroyed network is removed, and that
   * happens only when its user VMs were expunged, the cleanup, every
   * element's destroy and the VLAN deletion succeeded, and it was shut
   * down to Allocated or Setup unless forced; the account's network count
   * is decremented exactly for the networks that count against it. Once
   * past the user-VM check, a positive active-NIC count is zeroed. A
   * network not destroyed is not removed.
   */
  lemma DestroyOutcomes(shape: Shape, fsm: Fsm, row: Row, forced: bool, a: DestroyAnswers)
    requires WellFormed(shape, a)
    ensures var (row', result) := DestroySpec(shape, fsm, row, forced, a);
            row'.lockCount == row.lockCount
            && (result.Destroyed? <==>
                  !row.removed && a.userVmsExpunged && !(shape.zone == Basic && a.systemVmsPresent)
                  && a.cleanupOk && PD.AllSucceeded(shape.elements, shape.providers, a.destroyAnswers) && a.vlansDeleted
                  && (forced || (var down := ShutdownSpec(shape, fsm, row.(activeNics := if row.activeNics > 0 then 0 else row.activeNics),
                                                          a.shutdownLock, a.shutdownAnswers, a.shutdownProfile).0;
                                 down.state == Allocated || down.state == Setup)))
            && (result.Destroyed? ==> row'.removed && result.decrementResourceCount == ResourceCountNeedsUpdate(shape.offering, shape.aclType))
            && (result == NotDestroyed ==> row'.removed == row.removed)
            && (!row.removed && a.userVmsExpunged ==> row'.activeNics == if row.activeNics > 0 then 0 else row.activeNics)
            && (row.removed || !a.userVmsExpunged ==> row' == row)
  {
  }

  // ---------------------------------------------------------------------
  // setupNetwork
  // ---------------------------------------------------------------------

  datatype BroadcastDomain = VlanDomain | LswitchDomain | VxlanDomain | OtherDomain

  /** The caller's predefined network: the fields setupNetwork looks at. */
  datatype Predefined = Predefined(cidr: Option<string>, broadcastUri: Option<string>, domain: BroadcastDomain)

  /** One design provider's answer to design: no network, an existing one, or a new one to persist. */
  datatype Design = Declined | Existing(id: int) | NewDesign

  /** A network setupNetwork returns: an existing one, or one it persisted with its related id and the index of its designer. */
  datatype SetupRecord = Reused(id: int) | Created(id: int, related: int, guru: nat)

  datatype SetupResult =
    | Networks(networks: seq<SetupRecord>)
    | FoundExisting(ids: seq<int>)   // the owner's networks for the offering, returned as they are
    | AlreadySetup                   // InvalidParameterValueException
    | SetupLockFailed                // the account lock was not granted: ConcurrentOperationException
    | NoNetworkDesigned              // CloudRuntimeException
    | PredefinedMissing              // a new design without a predefined network dereferences null

  /**
   * Whether setupNetwork first looks for the owner's existing networks of
   * the offering: with no predefined network, or for non-Guest traffic
   * with neither cidr nor broadcast URI nor a VLAN, Lswitch or VXLAN
   * broadcast domain.
   */
  predicate ChecksExisting(predefined: Option<Predefined>, traffic: TrafficType)
  {
    predefined.None?
    || (traffic != Guest && predefined.value.cidr.None? && predefined.value.broadcastUri.None?
        && !(predefined.value.domain == VlanDomain || predefined.value.domain == LswitchDomain
             || predefined.value.domain == VxlanDomain))
  }

  /**
   * The design loop from provider k on: a declined design is skipped, an
   * existing network is returned as it is, and a new one takes the next id
   * of the sequence, with the first new id as the related id of all of
   * them. None when a new design meets a missing predefined network.
   */
  function Designed(designs: seq<Design>, predefined: Option<Predefined>, k: nat, nextId: int, related: int,
                    acc: seq<SetupRecord>): Option<seq<SetupRecord>>
    requires k <= |designs|
    decreases |designs| - k
  {
    if k == |designs| then Some(acc)
    else match designs[k]
      case Declined => Designed(designs, predefined, k + 1, nextId, related, acc)
      case Existing(id) => Designed(designs, predefined, k + 1, nextId, related, acc + [Reused(id)])
      case NewDesign =>
        if predefined.None? then None
        else
          var rel := if related == -1 then nextId else related;
          Designed(designs, predefined, k + 1, nextId + 1, rel, acc + [Created(nextId, rel, k)])
  }

  /** setupNetwork: the account lock, the check for existing networks, the design loop, and the empty-result error. */
  function SetupSpec(locked: bool, traffic: TrafficType, predefined: Option<Predefined>, existing: seq<int>,
                     errorIfAlreadySetup: bool, designs: seq<Design>, firstId: int): SetupResult
  {
    if !locked then SetupLockFailed
    else if ChecksExisting(predefined, traffic) && |existing| > 0 then
      (if errorIfAlreadySetup then AlreadySetup else FoundExisting(existing))
    else match Designed(designs, predefined, 0, firstId, -1, [])
      case None => PredefinedMissing
      case Some(networks) => if |networks| < 1 then NoNetworkDesigned else Networks(networks)
  }

  /**
   * setupNetwork's design loop over the design providers in order;
   * `firstId` is the next value of the network id sequence.
   */
  method SetupNetwork(locked: bool, traffic: TrafficType, predefined: Option<Predefined>, existing: seq<int>,
                      errorIfAlreadySetup: bool, designs: seq<Design>, firstId: int)
    returns (result: SetupResult)
    ensures result == SetupSpec(locked, traffic, predefined, existing, errorIfAlreadySetup, designs, firstId)
  {
    if !locked {
      return SetupLockFailed;
    }
    if ChecksExisting(predefined, traffic) && |existing| > 0 {
      if errorIfAlreadySetup {
        return AlreadySetup;
      }
      return FoundExisting(existing);
    }
    var networks: seq<SetupRecord> := [];
    var related := -1;
    var nextId := firstId;
    var k := 0;
    while k < |designs|
      invariant 0 <= k <= |designs|
      invariant Designed(designs, predefined, 0, firstId, -1, []) == Designed(designs, predefined, k, nextId, related, networks)
    {
      match designs[k] {
        case Declined =>
        case Existing(id) =>
          networks := networks + [Reused(id)];
        case NewDesign =>
          var id := nextId;
          nextId := nextId + 1;
          if related == -1 {
            related := id;
          }
          if predefined.None? {
            return PredefinedMissing;
          }
          networks := networks + [Created(id, related, k)];
      }
      k := k + 1;
    }
    if |networks| < 1 {
      return NoNetworkDesigned;
    }
    return Networks(networks);
  }

  /** Every persisted network carries the first new id as its related id, and ids within [firstId, bound). */
  predicate CreatedRelated(networks: seq<SetupRecord>, firstId: int, bound: int)
  {
    forall i :: 0 <= i < |networks| && networks[i].Created? ==>
      networks[i].related == firstId && firstId <= networks[i].id < bound
  }

  /** Persisted networks take strictly increasing ids, in the order of their design providers. */
  predicate CreatedIncreasing(networks: seq<SetupRecord>)
  {
    forall i, j :: 0 <= i < j < |networks| && networks[i].Created? && networks[j].Created? ==>
      networks[i].id < networks[j].id && networks[i].guru < networks[j].guru
  }

  /** Each returned network comes from a design: a new design of its provider, or an existing network designed. */
  predicate FromDesigns(networks: seq<SetupRecord>, designs: seq<Design>, k: nat)
  {
    forall i :: 0 <= i < |networks| ==>
      (networks[i].Created? ==> networks[i].guru < k && k <= |designs| && designs[networks[i].guru] == NewDesign)
      && (networks[i].Reused? ==> Existing(networks[i].id) in designs)
  }

  /** The design loop keeps CreatedRelated, CreatedIncreasing and FromDesigns. */
  lemma {:induction false} DesignedKeeps(designs: seq<Design>, predefined: Option<Predefined>, k: nat, nextId: int,
                                         related: int, acc: seq<SetupRecord>, firstId: int)
    requires k <= |designs| && firstId != -1
    requires if related == -1 then nextId == firstId else related == firstId && firstId <= nextId
    requires CreatedRelated(acc, firstId, nextId) && CreatedIncreasing(acc) && FromDesigns(acc, designs, k)
    ensures var r := Designed(designs, predefined, k, nextId, related, acc);
            r.Some? ==> exists bound :: CreatedRelated(r.value, firstId, bound) && CreatedIncreasing(r.value)
                                        && FromDesigns(r.value, designs, |designs|)
    decreases |designs| - k
  {
    if k == |designs| {
      assert CreatedRelated(acc, firstId, nextId);
    } else {
      match designs[k]
      case Declined =>
        DesignedKeeps(designs, predefined, k + 1, nextId, related, acc, firstId);
      case Existing(id) =>
        var acc' := acc + [Reused(id)];
        assert acc'[|acc|] == Reused(id);
        DesignedKeeps(designs, predefined, k + 1, nextId, related, acc', firstId);
      case NewDesign =>
        if predefined.Some? {
          var rel := if related == -1 then nextId else related;
          var acc' := acc + [Created(nextId, rel, k)];
          assert acc'[|acc|] == Created(nextId, rel, k);
          assert CreatedIncreasing(acc') by {
            forall i, j | 0 <= i < j < |acc'| && acc'[i].Created? && acc'[j].Created?
              ensures acc'[i].id < acc'[j].id && acc'[i].guru < acc'[j].guru
            {
              assert acc'[i] == acc[i];
            }
          }
          DesignedKeeps(designs, predefined, k + 1, nextId + 1, rel, acc', firstId);
        }
    }
  }

  /** The indices, from k on, of the design providers that designed a network, in provider order. */
  function DesigningFrom(designs: seq<Design>, k: nat): (r: seq<nat>)
    requires k <= |designs|
    ensures forall i :: 0 <= i < |r| ==> k <= r[i] < |designs| && designs[r[i]] != Declined
    ensures forall i :: k <= i < |designs| && designs[i] != Declined ==> i in r
    decreases |designs| - k
  {
    if k == |designs| then []
    else if designs[k] == Declined then DesigningFrom(designs, k + 1)
    else [k] + DesigningFrom(designs, k + 1)
  }

  /** The returned network for design provider k: the existing network it named, or one it had persisted. */
  predicate RecordFor(rec: SetupRecord, design: Design, k: nat)
  {
    match design
    case Declined => false
    case Existing(id) => rec == Reused(id)
    case NewDesign => rec.Created? && rec.guru == k
  }

  /** The record design provider k adds to the loop's list. */
  function Appended(design: Design, k: nat, nextId: int, related: int): SetupRecord
  {
    match design
    case Existing(id) => Reused(id)
    case _ => Created(nextId, if related == -1 then nextId else related, k)
  }

  /** The design loop appends exactly one network per designing provider, in provider order. */
  lemma {:induction false} DesignedCovers(designs: seq<Design>, predefined: Option<Predefined>, k: nat, nextId: int,
                                          related: int, acc: seq<SetupRecord>)
    requires k <= |designs|
    ensures var r := Designed(designs, predefined, k, nextId, related, acc);
            var from := DesigningFrom(designs, k);
            r.Some? ==> |r.value| == |acc| + |from|
                        && (forall i :: 0 <= i < |acc| ==> r.value[i] == acc[i])
                        && forall i :: 0 <= i < |from| ==> RecordFor(r.value[|acc| + i], designs[from[i]], from[i])
    decreases |designs| - k
  {
    if k < |designs| {
      if designs[k] == Declined {
        DesignedCovers(designs, predefined, k + 1, nextId, related, acc);
      } else if designs[k].Existing? || predefined.Some? {
        var rec := Appended(designs[k], k, nextId, related);
        var nextId' := if designs[k].Existing? then nextId else nextId + 1;
        var related' := if designs[k].Existing? || related != -1 then related else nextId;
        assert Designed(designs, predefined, k, nextId, related, acc)
            == Designed(designs, predefined, k + 1, nextId', related', acc + [rec]);
        DesignedCovers(designs, predefined, k + 1, nextId', related', acc + [rec]);
        CoversStep(designs, k, acc, rec, Designed(designs, predefined, k + 1, nextId', related', acc + [rec]));
      }
    }
  }

  /** One designing provider: the record it appends stands at its place, and the rest follow. */
  lemma CoversStep(designs: seq<Design>, k: nat, acc: seq<SetupRecord>, rec: SetupRecord, r: Option<seq<SetupRecord>>)
    requires k < |designs| && designs[k] != Declined && RecordFor(rec, designs[k], k)
    requires var rest := DesigningFrom(designs, k + 1);
             r.Some? ==> |r.value| == |acc| + 1 + |rest|
                         && (forall i :: 0 <= i < |acc| + 1 ==> r.value[i] == (acc + [rec])[i])
                         && forall i :: 0 <= i < |rest| ==> RecordFor(r.value[|acc| + 1 + i], designs[rest[i]], rest[i])
    ensures var from := DesigningFrom(designs, k);
            r.Some? ==> |r.value| == |acc| + |from|
                        && (forall i :: 0 <= i < |acc| ==> r.value[i] == acc[i])
                        && forall i :: 0 <= i < |from| ==> RecordFor(r.value[|acc| + i], designs[from[i]], from[i])
  {
    var from := DesigningFrom(designs, k);
    var rest := DesigningFrom(designs, k + 1);
    assert from == [k] + rest;
    if r.Some? {
      assert r.value[|acc|] == rec;
      forall i | 1 <= i < |from| ensures RecordFor(r.value[|acc| + i], designs[from[i]], from[i]) {
        assert from[i] == rest[i - 1];
        assert |acc| + i == |acc| + 1 + (i - 1);
      }
    }
  }

  /**
   * setupNetwork's outcomes: with the lock and existing networks to find
   * it returns them, or refuses when asked to; otherwise it returns one
   * network per design provider that does not decline, in provider order:
   * the predefined network a provider names, or a new row with the next id
   * of the sequence, every new row related to the first. The list is never
   * empty: no network is designed exactly when every provider declines.
   */
  lemma SetupOutcomes(locked: bool, traffic: TrafficType, predefined: Option<Predefined>, existing: seq<int>,
                      errorIfAlreadySetup: bool, designs: seq<Design>, firstId: int)
    requires firstId > 0
    ensures var r := SetupSpec(locked, traffic, predefined, existing, errorIfAlreadySetup, designs, firstId);
            (locked && ChecksExisting(predefined, traffic) && |existing| > 0 ==>
               r == (if errorIfAlreadySetup then AlreadySetup else FoundExisting(existing)))
            && (r.Networks? ==>
                  |r.networks| >= 1 && CreatedIncreasing(r.networks) && FromDesigns(r.networks, designs, |designs|)
                  && (exists bound :: CreatedRelated(r.networks, firstId, bound))
                  && |r.networks| == |DesigningFrom(designs, 0)|
                  && forall i :: 0 <= i < |r.networks| ==>
                       RecordFor(r.networks[i], designs[DesigningFrom(designs, 0)[i]], DesigningFrom(designs, 0)[i]))
            && (r == NoNetworkDesigned <==>
                  locked && !(ChecksExisting(predefined, traffic) && |existing| > 0)
                  && forall k :: 0 <= k < |designs| ==> designs[k] == Declined)
            && (r == PredefinedMissing ==> predefined.None? && NewDesign in designs)
  {
    DesignedKeeps(designs, predefined, 0, firstId, -1, [], firstId);
    DesignedCovers(designs, predefined, 0, firstId, -1, []);
    DesignedNoneNeedsNew(designs, predefined, 0, firstId, -1, []);
    var designing := DesigningFrom(designs, 0);
    if |designing| > 0 {
      assert designs[designing[0]] != Declined;
    }
  }

  /** The design loop fails only on a new design without a predefined network. */
  lemma {:induction false} DesignedNoneNeedsNew(designs: seq<Design>, predefined: Option<Predefined>, k: nat, nextId: int,
                                                related: int, acc: seq<SetupRecord>)
    requires k <= |designs|
    ensures Designed(designs, predefined, k, nextId, related, acc).None? ==>
              predefined.None? && exists i :: k <= i < |designs| && designs[i] == NewDesign
    decreases |designs| - k
  {
    if k < |designs| {
      match designs[k]
      case Declined =>
        DesignedNoneNeedsNew(designs, predefined, k + 1, nextId, related, acc);
      case Existing(id) =>
        DesignedNoneNeedsNew(designs, predefined, k + 1, nextId, related, acc + [Reused(id)]);
      case NewDesign =>
        if predefined.Some? {
          var rel := if related == -1 then nextId else related;
          DesignedNoneNeedsNew(designs, predefined, k + 1, nextId + 1, rel, acc + [Created(nextId, rel, k)]);
        }
    }
  }
}
