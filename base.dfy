/**
 * Shared vocabulary of the network orchestrator: an Option type, the
 * network and NIC state enumerations, the abstract network state machine,
 * and the small enumerations (traffic type, guest type, zone type, VM type)
 * the lifecycle rules branch on.
 */
module Base {

  datatype Option<T> = None | Some(value: T)

  /** Network.State. */
  datatype NetworkState = Allocated | Setup | Implementing | Implemented | Shutdown | Destroy

  /** Network.Event. */
  datatype NetworkEvent = ImplementNetwork | DestroyNetwork | OperationSucceeded | OperationFailed

  /** Nic.State. */
  datatype NicState = NicAllocated | Reserving | Reserved | Releasing | Deallocating

  /** Nic.ReservationStrategy. */
  datatype ReservationStrategy = Start | Create | PlaceHolder

  datatype TrafficType = Guest | Public | Management | Control | Storage

  datatype GuestType = Isolated | Shared

  /** The zone's network type (DataCenter.NetworkType). */
  datatype ZoneType = Basic | Advanced

  /** VirtualMachine.Type, reduced to the cases the orchestrator distinguishes. */
  datatype VmType = User | DomainRouter | ConsoleProxy | SecondaryStorageVm

  /**
   * The network state machine's transition table. The table itself is
   * registered outside the orchestrator; a missing entry is a rejected
   * transition (NoTransitionException).
   */
  type Fsm = map<(NetworkState, NetworkEvent), NetworkState>

  function Transit(fsm: Fsm, s: NetworkState, e: NetworkEvent): (r: Option<NetworkState>)
    ensures r.Some? <==> (s, e) in fsm
    ensures r.Some? ==> r.value == fsm[(s, e)]
  {
    if (s, e) in fsm then Some(fsm[(s, e)]) else None
  }
}
