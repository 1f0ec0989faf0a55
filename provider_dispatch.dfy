/**
 * Service-provider dispatch of the network orchestrator: the service to
 * provider map an offering yields (finalizeServicesAndProvidersForNetwork),
 * the element chosen for a service in a network
 * (getServiceProvidersMap, getElementForServiceInNetwork, setupDns), and
 * the loops that run the network elements whose provider serves the
 * network (prepare, implement, shutdown, destroy, and the aggregated
 * execution bracket of implementNetworkElementsAndResources).
 *
 * Services and providers are their names. An element's answers are
 * parameters, one per element, in the order of the element list.
 */
module ProviderDispatch {

  import opened Base

  /** The load-balancer service: the only one that may have several providers in a network. */
  const Lb: string := "Lb"
  const Dns: string := "Dns"
  const Dhcp: string := "Dhcp"
  const UserData: string := "UserData"

  // ---------------------------------------------------------------------
  // finalizeServicesAndProvidersForNetwork
  // ---------------------------------------------------------------------

  /** A row of the offering's service map: a service and its provider, possibly null. */
  datatype OfferingRow = OfferingRow(service: string, provider: Option<string>)

  datatype FinalizeResult =
    | Providers(svcProviders: map<string, string>)
    | NoDefaultProvider(service: string)                  // getDefaultUniqueProviderForService has none
    | UnsupportedService(service: string, provider: string)

  /** The provider a row stands for: its own, or the service's default unique provider. */
  function Resolve(row: OfferingRow, defaults: map<string, string>): (r: Option<string>)
    ensures row.provider.Some? ==> r == row.provider
    ensures row.provider.None? ==> (r.Some? <==> row.service in defaults)
    ensures row.provider.None? && r.Some? ==> r.value == defaults[row.service]
  {
    if row.provider.Some? then row.provider
    else if row.service in defaults then Some(defaults[row.service])
    else None
  }

  /** The services the offering lists. */
  function Services(rows: seq<OfferingRow>): set<string>
  {
    set i | 0 <= i < |rows| :: rows[i].service
  }

  /** Index of the first row for service `s`. */
  function FirstRow(rows: seq<OfferingRow>, s: string): (i: nat)
    requires s in Services(rows)
    ensures i < |rows| && rows[i].service == s
    ensures forall j :: 0 <= j < i ==> rows[j].service != s
  {
    if rows[0].service == s then 0
    else
      assert s in Services(rows[1..]) by {
        var k :| 0 <= k < |rows| && rows[k].service == s;
        assert rows[1..][k - 1] == rows[k];
      }
      1 + FirstRow(rows[1..], s)
  }

  /**
   * A row the loop acts on: the first row of its service (later rows of the
   * same service are skipped). It fails when no provider resolves or, with
   * a physical network given, when the provider is not enabled there.
   */
  predicate RowFails(row: OfferingRow, defaults: map<string, string>, checkPhysical: bool, enabled: set<(string, string)>)
  {
    Resolve(row, defaults).None?
    || (checkPhysical && (Resolve(row, defaults).value, row.service) !in enabled)
  }

  function RowError(row: OfferingRow, defaults: map<string, string>, checkPhysical: bool, enabled: set<(string, string)>): FinalizeResult
    requires RowFails(row, defaults, checkPhysical, enabled)
  {
    if Resolve(row, defaults).None? then NoDefaultProvider(row.service)
    else UnsupportedService(row.service, Resolve(row, defaults).value)
  }

  /** The loop over the offering's rows from `acc` on. */
  function Finalize(rows: seq<OfferingRow>, defaults: map<string, string>, checkPhysical: bool,
                    enabled: set<(string, string)>, acc: map<string, string>): FinalizeResult
  {
    if rows == [] then Providers(acc)
    else
      var row := rows[0];
      if row.service in acc then Finalize(rows[1..], defaults, checkPhysical, enabled, acc)
      else if RowFails(row, defaults, checkPhysical, enabled) then RowError(row, defaults, checkPhysical, enabled)
      else Finalize(rows[1..], defaults, checkPhysical, enabled, acc[row.service := Resolve(row, defaults).value])
  }

  /** The map finalizeServicesAndProvidersForNetwork builds for an offering. */
  function FinalizeSpec(rows: seq<OfferingRow>, defaults: map<string, string>, physicalNetwork: Option<int>,
                        enabled: set<(string, string)>): FinalizeResult
  {
    Finalize(rows, defaults, physicalNetwork.Some?, enabled, map[])
  }

  /** The row the loop acts on for each service, the first one listed, resolves and is allowed. */
  ghost predicate FirstRowsOk(rows: seq<OfferingRow>, services: set<string>, defaults: map<string, string>,
                              checkPhysical: bool, enabled: set<(string, string)>)
    requires services <= Services(rows)
  {
    forall s :: s in services ==> !RowFails(rows[FirstRow(rows, s)], defaults, checkPhysical, enabled)
  }

  lemma ServicesSnoc(rows: seq<OfferingRow>, k: nat)
    requires k < |rows|
    ensures Services(rows[..k + 1]) == Services(rows[..k]) + {rows[k].service}
    ensures Services(rows[..k]) <= Services(rows)
  {
    assert forall i :: 0 <= i < k ==> rows[..k + 1][i] == rows[..k][i] == rows[i];
    assert rows[..k + 1][k] == rows[k];
  }

  /** The loop's map after the rows before `k`: one entry per service seen, from its first row. */
  ghost predicate AccOk(rows: seq<OfferingRow>, k: nat, defaults: map<string, string>, checkPhysical: bool,
                        enabled: set<(string, string)>, acc: map<string, string>)
  {
    k <= |rows| && acc.Keys == Services(rows[..k]) && acc.Keys <= Services(rows)
    && (forall s :: s in acc ==> Resolve(rows[FirstRow(rows, s)], defaults) == Some(acc[s]))
    && FirstRowsOk(rows, acc.Keys, defaults, checkPhysical, enabled)
  }

  lemma AccSkip(rows: seq<OfferingRow>, k: nat, defaults: map<string, string>, checkPhysical: bool,
                enabled: set<(string, string)>, acc: map<string, string>)
    requires AccOk(rows, k, defaults, checkPhysical, enabled, acc) && k < |rows| && rows[k].service in acc
    ensures AccOk(rows, k + 1, defaults, checkPhysical, enabled, acc)
  {
    ServicesSnoc(rows, k);
  }

  /** A service not seen before `k` has its first row at `k`. */
  lemma FirstRowHere(rows: seq<OfferingRow>, k: nat)
    requires k < |rows| && rows[k].service !in Services(rows[..k])
    ensures rows[k].service in Services(rows) && FirstRow(rows, rows[k].service) == k
  {
    forall j | 0 <= j < k ensures rows[j].service != rows[k].service {
      assert rows[..k][j] == rows[j];
    }
  }

  lemma AccAdd(rows: seq<OfferingRow>, k: nat, defaults: map<string, string>, checkPhysical: bool,
               enabled: set<(string, string)>, acc: map<string, string>)
    requires AccOk(rows, k, defaults, checkPhysical, enabled, acc) && k < |rows| && rows[k].service !in acc
    requires !RowFails(rows[k], defaults, checkPhysical, enabled)
    ensures AccOk(rows, k + 1, defaults, checkPhysical, enabled, acc[rows[k].service := Resolve(rows[k], defaults).value])
  {
    ServicesSnoc(rows, k);
    FirstRowHere(rows, k);
  }

  /** What the loop's result says about the offering's rows. */
  ghost predicate FinalizeMeets(rows: seq<OfferingRow>, defaults: map<string, string>, checkPhysical: bool,
                                enabled: set<(string, string)>, r: FinalizeResult)
  {
    (r.Providers? <==> FirstRowsOk(rows, Services(rows), defaults, checkPhysical, enabled))
    && (r.Providers? ==> r.svcProviders.Keys == Services(rows)
                         && forall s :: s in r.svcProviders ==> Resolve(rows[FirstRow(rows, s)], defaults) == Some(r.svcProviders[s]))
    && (r.UnsupportedService? ==> checkPhysical && (r.provider, r.service) !in enabled)
  }

  lemma {:induction false} FinalizeFrom(rows: seq<OfferingRow>, k: nat, defaults: map<string, string>, checkPhysical: bool,
                                        enabled: set<(string, string)>, acc: map<string, string>)
    requires AccOk(rows, k, defaults, checkPhysical, enabled, acc)
    ensures FinalizeMeets(rows, defaults, checkPhysical, enabled, Finalize(rows[k..], defaults, checkPhysical, enabled, acc))
    decreases |rows| - k
  {
    if k == |rows| {
      FinalizeDone(rows, k, defaults, checkPhysical, enabled, acc);
    } else {
      var row := rows[k];
      assert rows[k..][1..] == rows[k + 1..];
      if row.service in acc {
        AccSkip(rows, k, defaults, checkPhysical, enabled, acc);
        FinalizeFrom(rows, k + 1, defaults, checkPhysical, enabled, acc);
      } else if RowFails(row, defaults, checkPhysical, enabled) {
        FinalizeStops(rows, k, defaults, checkPhysical, enabled, acc);
      } else {
        AccAdd(rows, k, defaults, checkPhysical, enabled, acc);
        FinalizeFrom(rows, k + 1, defaults, checkPhysical, enabled, acc[row.service := Resolve(row, defaults).value]);
      }
    }
  }

  /** Past the last row the loop returns the map it built, which covers every service. */
  lemma FinalizeDone(rows: seq<OfferingRow>, k: nat, defaults: map<string, string>, checkPhysical: bool,
                     enabled: set<(string, string)>, acc: map<string, string>)
    requires AccOk(rows, k, defaults, checkPhysical, enabled, acc) && k == |rows|
    ensures FinalizeMeets(rows, defaults, checkPhysical, enabled, Finalize(rows[k..], defaults, checkPhysical, enabled, acc))
  {
    assert rows[..k] == rows;
  }

  /** A failing first row of a service ends the loop with its error. */
  lemma FinalizeStops(rows: seq<OfferingRow>, k: nat, defaults: map<string, string>, checkPhysical: bool,
                      enabled: set<(string, string)>, acc: map<string, string>)
    requires AccOk(rows, k, defaults, checkPhysical, enabled, acc) && k < |rows| && rows[k].service !in acc
    requires RowFails(rows[k], defaults, checkPhysical, enabled)
    ensures FinalizeMeets(rows, defaults, checkPhysical, enabled, Finalize(rows[k..], defaults, checkPhysical, enabled, acc))
  {
    assert rows[k..][0] == rows[k];
    FirstRowHere(rows, k);
    assert !FirstRowsOk(rows, Services(rows), defaults, checkPhysical, enabled);
  }

  /**
   * What finalizeServicesAndProvidersForNetwork promises: it succeeds
   * exactly when the first row of every service resolves to a provider
   * (and, with a physical network, one enabled there for that service); the
   * map then has exactly the offering's services as keys and maps each to
   * the provider of its first row, or the service's default unique provider
   * when that row has none.
   */
  lemma FinalizeProperties(rows: seq<OfferingRow>, defaults: map<string, string>, physicalNetwork: Option<int>,
                           enabled: set<(string, string)>)
    ensures var r := FinalizeSpec(rows, defaults, physicalNetwork, enabled);
            (r.Providers? <==> FirstRowsOk(rows, Services(rows), defaults, physicalNetwork.Some?, enabled))
            && (r.Providers? ==> r.svcProviders.Keys == Services(rows)
                                 && forall s :: s in r.svcProviders ==> Resolve(rows[FirstRow(rows, s)], defaults) == Some(r.svcProviders[s]))
            && (r.UnsupportedService? ==> physicalNetwork.Some? && (r.provider, r.service) !in enabled)
  {
    assert rows[0..] == rows;
    assert Services(rows[..0]) == {};
    FinalizeFrom(rows, 0, defaults, physicalNetwork.Some?, enabled, map[]);
  }

  /** The source's loop over the offering's rows. */
  method FinalizeServicesAndProvidersForNetwork(rows: seq<OfferingRow>, defaults: map<string, string>,
                                                physicalNetwork: Option<int>, enabled: set<(string, string)>)
    returns (r: FinalizeResult)
    ensures r == FinalizeSpec(rows, defaults, physicalNetwork, enabled)
  {
    var svcProviders: map<string, string> := map[];
    var checkPhysicalNetwork := physicalNetwork.Some?;
    var k := 0;
    while k < |rows|
      invariant 0 <= k <= |rows|
      invariant Finalize(rows[k..], defaults, checkPhysicalNetwork, enabled, svcProviders)
                == FinalizeSpec(rows, defaults, physicalNetwork, enabled)
    {
      assert rows[k..][1..] == rows[k + 1..];
      var row := rows[k];
      if row.service in svcProviders {
        k := k + 1;
        continue;
      }
      var provider := row.provider;
      if provider.None? {
        if row.service !in defaults {
          return NoDefaultProvider(row.service);
        }
        provider := Some(defaults[row.service]);
      }
      if checkPhysicalNetwork && (provider.value, row.service) !in enabled {
        return UnsupportedService(row.service, provider.value);
      }
      svcProviders := svcProviders[row.service := provider.value];
      k := k + 1;
    }
    return Providers(svcProviders);
  }

  // ---------------------------------------------------------------------
  // getServiceProvidersMap, getElementForServiceInNetwork, setupDns
  // ---------------------------------------------------------------------

  /** A row of the network's service map (ntwk_service_map): a service and one provider of it. */
  datatype NetworkServiceRow = NetworkServiceRow(service: string, provider: string)

  /** The providers of `service` in the network (getServiceProvidersMap, one entry). */
  function ProvidersOf(rows: seq<NetworkServiceRow>, service: string): (r: set<string>)
    ensures forall p :: p in r <==> NetworkServiceRow(service, p) in rows
  {
    set i | 0 <= i < |rows| && rows[i].service == service :: rows[i].provider
  }

  /**
   * getElementForServiceInNetwork, by provider name: null when the service
   * has no provider in the network, or more than one while it is not the
   * load balancer; otherwise the providers serving it.
   */
  function ElementsForService(rows: seq<NetworkServiceRow>, service: string): (r: Option<set<string>>)
    ensures r.Some? ==> r.value == ProvidersOf(rows, service) && r.value != {}
    ensures r.Some? && service != Lb ==> |r.value| == 1
    ensures r.None? <==> ProvidersOf(rows, service) == {} || (|ProvidersOf(rows, service)| != 1 && service != Lb)
  {
    var providers := ProvidersOf(rows, service);
    if providers == {} then None
    else if |providers| != 1 && service != Lb then None
    else Some(providers)
  }

  /** The network's service rows as written from a finalized service to provider map. */
  ghost predicate RowsFromMap(rows: seq<NetworkServiceRow>, m: map<string, string>)
  {
    forall r :: r in rows <==> r.service in m && r.provider == m[r.service]
  }

  /**
   * A network whose service rows were written from a finalized map has
   * exactly one element per service of the map: the provider the map chose.
   */
  lemma ElementForFinalizedService(rows: seq<NetworkServiceRow>, m: map<string, string>, service: string)
    requires RowsFromMap(rows, m)
    ensures service in m ==> ElementsForService(rows, service) == Some({m[service]})
    ensures service !in m ==> ElementsForService(rows, service).None?
  {
    if service in m {
      assert NetworkServiceRow(service, m[service]) in rows;
      assert ProvidersOf(rows, service) == {m[service]};
    } else {
      assert ProvidersOf(rows, service) == {};
    }
  }

  /** setupDns: the provider serves DNS or DHCP in the network. */
  predicate SetupDns(rows: seq<NetworkServiceRow>, provider: string)
  {
    provider in ProvidersOf(rows, Dns) || provider in ProvidersOf(rows, Dhcp)
  }

  // ---------------------------------------------------------------------
  // Loops over the network elements
  // ---------------------------------------------------------------------

  /** A network element: the provider it implements and whether it batches commands. */
  datatype Element = Element(provider: string, aggregated: bool)

  /** The element's provider is one of the network's providers (getNetworkProviders). */
  predicate InScope(e: Element, providers: seq<string>)
  {
    e.provider in providers
  }

  /** Why an in-scope element stopped the prepare or implement loop. */
  datatype ElementFailure =
    | ProviderNotEnabled(index: nat)   // not enabled in the physical network: CloudRuntimeException
    | ElementRefused(index: nat)       // prepare or implement returned false

  /**
   * The first in-scope element from `k` on that is not enabled or refuses;
   * the loop throws there, and the later elements are not called.
   */
  function FirstFailure(elements: seq<Element>, providers: seq<string>, enabled: seq<bool>, accepted: seq<bool>, k: nat):
    (r: Option<ElementFailure>)
    requires |enabled| == |elements| == |accepted| && k <= |elements|
    ensures r.None? <==> forall i :: k <= i < |elements| && InScope(elements[i], providers) ==> enabled[i] && accepted[i]
    ensures r.Some? ==> k <= r.value.index < |elements| && InScope(elements[r.value.index], providers)
                        && (r.value.ProviderNotEnabled? <==> !enabled[r.value.index])
                        && (r.value.ElementRefused? ==> !accepted[r.value.index])
                        && forall i :: k <= i < r.value.index && InScope(elements[i], providers) ==> enabled[i] && accepted[i]
    decreases |elements| - k
  {
    if k == |elements| then None
    else if !InScope(elements[k], providers) then FirstFailure(elements, providers, enabled, accepted, k + 1)
    else if !enabled[k] then Some(ProviderNotEnabled(k))
    else if !accepted[k] then Some(ElementRefused(k))
    else FirstFailure(elements, providers, enabled, accepted, k + 1)
  }

  /**
   * The loop of prepareNic and of implementNetworkElementsAndResources:
   * each in-scope element must be enabled in the physical network and must
   * accept; the first that is not or does not ends the loop.
   */
  method RunElements(elements: seq<Element>, providers: seq<string>, enabled: seq<bool>, accepted: seq<bool>)
    returns (failure: Option<ElementFailure>)
    requires |enabled| == |elements| == |accepted|
    ensures failure == FirstFailure(elements, providers, enabled, accepted, 0)
  {
    var k := 0;
    while k < |elements|
      invariant 0 <= k <= |elements|
      invariant FirstFailure(elements, providers, enabled, accepted, 0) == FirstFailure(elements, providers, enabled, accepted, k)
    {
      if InScope(elements[k], providers) {
        if !enabled[k] {
          return Some(ProviderNotEnabled(k));
        }
        if !accepted[k] {
          return Some(ElementRefused(k));
        }
      }
      k := k + 1;
    }
    return None;
  }

  /** The in-scope element indices from `k` on, in order. */
  function InScopeIndices(elements: seq<Element>, providers: seq<string>, k: nat): (r: seq<nat>)
    requires k <= |elements|
    ensures forall j :: j in r <==> k <= j < |elements| && InScope(elements[j], providers)
    decreases |elements| - k
  {
    if k == |elements| then []
    else if InScope(elements[k], providers) then [k] + InScopeIndices(elements, providers, k + 1)
    else InScopeIndices(elements, providers, k + 1)
  }

  /** What an element's shutdown or destroy did: returned true, returned false, or threw. */
  datatype ElementAnswer = Succeeded | ReturnedFalse | Threw

  /**
   * The shutdown and destroy loops: every in-scope element is called, in
   * order, whatever the earlier ones answered (a false answer or an
   * exception is only recorded); the result is true exactly when every
   * called element succeeded.
   */
  method AggregateElementResults(elements: seq<Element>, providers: seq<string>, answers: seq<ElementAnswer>)
    returns (success: bool, called: seq<nat>)
    requires |answers| == |elements|
    ensures called == InScopeIndices(elements, providers, 0)
    ensures success == AllSucceeded(elements, providers, answers)
  {
    success := true;
    called := [];
    var k := 0;
    while k < |elements|
      invariant 0 <= k <= |elements|
      invariant called + InScopeIndices(elements, providers, k) == InScopeIndices(elements, providers, 0)
      invariant success <==> forall i :: 0 <= i < k && InScope(elements[i], providers) ==> answers[i] == Succeeded
    {
      if InScope(elements[k], providers) {
        called := called + [k];
        match answers[k] {
          case Succeeded =>
          case ReturnedFalse =>
            success := false;
          case Threw =>
            success := false;
        }
      }
      k := k + 1;
    }
  }

  /** Every element of the network's providers answered success. */
  predicate AllSucceeded(elements: seq<Element>, providers: seq<string>, answers: seq<ElementAnswer>)
    requires |answers| == |elements|
  {
    forall i :: 0 <= i < |elements| && InScope(elements[i], providers) ==> answers[i] == Succeeded
  }

  // ---------------------------------------------------------------------
  // implementNetworkElementsAndResources
  // ---------------------------------------------------------------------

  /**
   * Whether a source NAT address must be associated: the offering does not
   * share source NAT, the network has the SourceNat service, and it is an
   * Isolated network or a Shared one in an Advanced zone. One is assigned
   * (to the VPC when the network is in one) only when none is associated yet.
   */
  predicate NeedsSourceNat(sharedSourceNat: bool, sourceNatService: bool, guestType: GuestType, zone: ZoneType)
  {
    !sharedSourceNat && sourceNatService && (guestType == Isolated || (guestType == Shared && zone == Advanced))
  }

  /** A call made to a network element, to the rule manager or to the address manager. */
  datatype Call =
    | AssignSourceNat(toVpc: bool)
    | Reprogram
    | ElementCall(phase: Phase, index: nat)

  /** implement, then prepareAggregatedExecution, completeAggregatedExecution, cleanupAggregatedExecution. */
  datatype Phase = Implement | PrepareAggregated | CompleteAggregated | CleanupAggregated

  datatype ImplementOutcome =
    | AllImplemented
    | SourceNatFailed                        // assigning the source NAT address threw, before any element
    | ElementFailed(failure: ElementFailure) // CloudRuntimeException: not enabled, or implement returned false
    | ElementThrew(index: nat)               // implement threw (ResourceUnavailableException and the like)
    | PrepareThrew(index: nat)               // prepareAggregatedExecution threw, before the try block
    | ReprogramFailed                        // reprogramNetworkRules returned false: ResourceUnavailableException
    | AggregatedFailed(index: nat)           // completeAggregatedExecution returned false (or threw)
    | CleanupThrew(index: nat)               // a cleanup in the finally block threw; its exception wins

  /** The in-scope batching elements, in order. */
  function AggregatedIndices(elements: seq<Element>, providers: seq<string>, k: nat): (r: seq<nat>)
    requires k <= |elements|
    ensures forall j :: j in r <==> k <= j < |elements| && InScope(elements[j], providers) && elements[j].aggregated
    ensures forall i :: 0 <= i < |r| ==> k <= r[i] < |elements|
    ensures forall i, j :: 0 <= i < j < |r| ==> r[i] < r[j]
    decreases |elements| - k
  {
    if k == |elements| then []
    else if InScope(elements[k], providers) && elements[k].aggregated then [k] + AggregatedIndices(elements, providers, k + 1)
    else AggregatedIndices(elements, providers, k + 1)
  }

  function Calls(indices: seq<nat>, phase: Phase): (r: seq<Call>)
    ensures |r| == |indices| && forall i :: 0 <= i < |indices| ==> r[i] == ElementCall(phase, indices[i])
  {
    seq(|indices|, i requires 0 <= i < |indices| => ElementCall(phase, indices[i]))
  }

  /**
   * A loop over the aggregated elements that an element's failure ends:
   * the elements called in order until the first whose call fails (which
   * is still called), and the failing index, if any. The prepare, complete
   * and cleanup loops all have this shape.
   */
  function CallUntilFailure(indices: seq<nat>, ok: seq<bool>): (r: (seq<nat>, Option<nat>))
    requires forall j :: j in indices ==> j < |ok|
    ensures r.1.None? <==> forall j :: j in indices ==> ok[j]
    ensures r.1.None? ==> r.0 == indices
    ensures r.1.Some? ==> r.1.value in indices && !ok[r.1.value] && |r.0| > 0 && r.0[|r.0| - 1] == r.1.value
    ensures |r.0| <= |indices| && r.0 == indices[..|r.0|]
  {
    if indices == [] then ([], None)
    else
      assert indices[0] in indices;
      assert forall j :: j in indices[1..] ==> j in indices;
      if !ok[indices[0]] then ([indices[0]], Some(indices[0]))
    else
      var rest := CallUntilFailure(indices[1..], ok);
      ([indices[0]] + rest.0, rest.1)
  }

  /** The network needs a source NAT address, has none, and assigning one throws (InsufficientAddressCapacityException and the like). */
  predicate SourceNatFails(needsSourceNat: bool, sourceNatAssociated: bool, sourceNatOk: bool)
  {
    needsSourceNat && !sourceNatAssociated && !sourceNatOk
  }

  /** The implement answers read as accepted or not. */
  function Accepted(implemented: seq<ElementAnswer>): (r: seq<bool>)
    ensures |r| == |implemented| && forall i :: 0 <= i < |r| ==> (r[i] <==> implemented[i] == Succeeded)
  {
    seq(|implemented|, i requires 0 <= i < |implemented| => implemented[i] == Succeeded)
  }

  /**
   * implementNetworkElementsAndResources: associate a source NAT address if
   * needed, implement every in-scope element (stopping at the first that is
   * disabled, refuses or throws), prepare every in-scope batching element
   * (before the try block: a throw there skips the rest, cleanup
   * included), then bracket the rule reprogramming and the aggregated
   * completion with the finally block's cleanupAggregatedExecution of every
   * in-scope batching element, which a throwing cleanup cuts short.
   */
  function ImplementElementsAndResources(
    needsSourceNat: bool, inVpc: bool, sourceNatAssociated: bool, sourceNatOk: bool,
    elements: seq<Element>, providers: seq<string>, enabled: seq<bool>, implemented: seq<ElementAnswer>,
    prepareOk: seq<bool>, reprogramOk: bool, completes: seq<bool>, cleanupOk: seq<bool>): (r: (seq<Call>, ImplementOutcome))
    requires |enabled| == |elements| == |implemented| == |prepareOk| == |completes| == |cleanupOk|
  {
    var nat_ := if needsSourceNat && !sourceNatAssociated then [AssignSourceNat(inVpc)] else [];
    var failure := FirstFailure(elements, providers, enabled, Accepted(implemented), 0);
    if SourceNatFails(needsSourceNat, sourceNatAssociated, sourceNatOk) then (nat_, SourceNatFailed)
    else if failure.Some? then
      var asked := InScopeIndices(elements, providers, 0);
      var f := failure.value;
      (nat_ + Calls(Filter(asked, f), Implement),
       if f.ElementRefused? && implemented[f.index] == Threw then ElementThrew(f.index) else ElementFailed(f))
    else
      var agg := AggregatedIndices(elements, providers, 0);
      var implements := nat_ + Calls(InScopeIndices(elements, providers, 0), Implement);
      var (prepared, prepareThrew) := CallUntilFailure(agg, prepareOk);
      if prepareThrew.Some? then (implements + Calls(prepared, PrepareAggregated), PrepareThrew(prepareThrew.value))
      else
        var bracketOpen := implements + Calls(agg, PrepareAggregated) + [Reprogram];
        var (cleaned, cleanupThrew) := CallUntilFailure(agg, cleanupOk);
        var (done, failed) := if reprogramOk then CallUntilFailure(agg, completes) else ([], None);
        var tried := if !reprogramOk then ReprogramFailed
                     else if failed.Some? then AggregatedFailed(failed.value) else AllImplemented;
        (bracketOpen + Calls(done, CompleteAggregated) + Calls(cleaned, CleanupAggregated),
         if cleanupThrew.Some? then CleanupThrew(cleanupThrew.value) else tried)
  }

  /** The in-scope indices the implement loop called before it stopped (a disabled element is not called). */
  function Filter(s: seq<nat>, f: ElementFailure): seq<nat>
  {
    if s == [] then []
    else
      var keep := if f.ProviderNotEnabled? then s[0] < f.index else s[0] <= f.index;
      (if keep then [s[0]] else []) + Filter(s[1..], f)
  }

  predicate IsPhase(c: Call, phase: Phase)
  {
    c.ElementCall? && c.phase == phase
  }

  /** Every element whose prepareAggregatedExecution was called has its cleanupAggregatedExecution called later. */
  predicate Bracketed(t: seq<Call>)
  {
    forall i :: 0 <= i < |t| && IsPhase(t[i], PrepareAggregated) ==>
      exists k :: i < k < |t| && t[k] == ElementCall(CleanupAggregated, t[i].index)
  }

  /** No completeAggregatedExecution comes after a cleanupAggregatedExecution. */
  predicate NoCompleteAfterCleanup(t: seq<Call>)
  {
    forall i, j :: 0 <= i < j < |t| && IsPhase(t[i], CleanupAggregated) ==> !IsPhase(t[j], CompleteAggregated)
  }

  /** A loop that an element's failure ends reaches every element exactly when no element but the last fails. */
  lemma {:induction false} UntilFailureReachesAll(indices: seq<nat>, ok: seq<bool>)
    requires forall j :: j in indices ==> j < |ok|
    requires forall i :: 0 <= i < |indices| ==> indices[i] < |ok|
    ensures CallUntilFailure(indices, ok).0 == indices <==> forall i :: 0 <= i < |indices| - 1 ==> ok[indices[i]]
  {
    if indices != [] {
      assert indices[0] in indices;
      assert forall j :: j in indices[1..] ==> j in indices;
      UntilFailureReachesAll(indices[1..], ok);
      assert forall i :: 1 <= i < |indices| ==> indices[i] == indices[1..][i - 1];
    }
  }

  /**
   * A trace shaped as: calls outside the bracket, the prepares, the
   * reprogramming, completions, and the cleanups of the first m batching
   * elements. No completion follows a cleanup, and every prepare is
   * followed by its cleanup exactly when the cleanups reach every element.
   */
  lemma BracketShape(t: seq<Call>, pre: seq<Call>, agg: seq<nat>, mid: seq<Call>, m: nat)
    requires forall i :: 0 <= i < |pre| ==> !IsPhase(pre[i], PrepareAggregated) && !IsPhase(pre[i], CleanupAggregated)
    requires forall i :: 0 <= i < |mid| ==> IsPhase(mid[i], CompleteAggregated)
    requires m <= |agg| && forall i, j :: 0 <= i < j < |agg| ==> agg[i] < agg[j]
    requires t == pre + Calls(agg, PrepareAggregated) + [Reprogram] + mid + Calls(agg[..m], CleanupAggregated)
    ensures NoCompleteAfterCleanup(t) && (Bracketed(t) <==> m == |agg|)
  {
    var lo := |pre|;
    var hi := |pre| + |agg| + 1 + |mid|;
    assert |t| == hi + m;
    assert forall i :: 0 <= i < lo ==> t[i] == pre[i];
    assert forall i :: lo <= i < lo + |agg| ==> t[i] == ElementCall(PrepareAggregated, agg[i - lo]);
    assert t[lo + |agg|] == Reprogram;
    assert forall i :: lo + |agg| < i < hi ==> t[i] == mid[i - lo - |agg| - 1];
    assert forall i :: hi <= i < |t| ==> t[i] == ElementCall(CleanupAggregated, agg[i - hi]);
    if m == |agg| {
      forall i | 0 <= i < |t| && IsPhase(t[i], PrepareAggregated)
        ensures exists k :: i < k < |t| && t[k] == ElementCall(CleanupAggregated, t[i].index)
      {
        assert t[hi + (i - lo)] == ElementCall(CleanupAggregated, agg[i - lo]);
      }
    } else {
      var i := lo + m;
      assert t[i] == ElementCall(PrepareAggregated, agg[m]);
      forall k | i < k < |t| ensures t[k] != ElementCall(CleanupAggregated, agg[m]) {
        if hi <= k {
          assert agg[k - hi] < agg[m];
        }
      }
    }
  }

  /**
   * The aggregated-execution bracket: no completion comes after a cleanup,
   * and every element whose prepareAggregatedExecution was called has its
   * cleanupAggregatedExecution called later in the same run, whatever the
   * reprogramming and the completion calls answered, exactly when the
   * implement loop stopped before any prepare, or else no prepare threw
   * and no cleanup but the last one threw. A throwing prepare leaves the
   * elements prepared before it, and itself, without cleanup; a throwing
   * cleanup leaves the elements after it without cleanup.
   */
  lemma {:induction false} AggregatedBracket(
    needsSourceNat: bool, inVpc: bool, sourceNatAssociated: bool, sourceNatOk: bool,
    elements: seq<Element>, providers: seq<string>, enabled: seq<bool>, implemented: seq<ElementAnswer>,
    prepareOk: seq<bool>, reprogramOk: bool, completes: seq<bool>, cleanupOk: seq<bool>)
    requires |enabled| == |elements| == |implemented| == |prepareOk| == |completes| == |cleanupOk|
    ensures var trace := ImplementElementsAndResources(needsSourceNat, inVpc, sourceNatAssociated, sourceNatOk,
                                      elements, providers, enabled, implemented, prepareOk, reprogramOk, completes, cleanupOk).0;
            var agg := AggregatedIndices(elements, providers, 0);
            NoCompleteAfterCleanup(trace)
            && (Bracketed(trace) <==>
                  SourceNatFails(needsSourceNat, sourceNatAssociated, sourceNatOk)
                  || FirstFailure(elements, providers, enabled, Accepted(implemented), 0).Some?
                  || ((forall j :: j in agg ==> prepareOk[j]) && forall i :: 0 <= i < |agg| - 1 ==> cleanupOk[agg[i]]))
  {
    var agg := AggregatedIndices(elements, providers, 0);
    if SourceNatFails(needsSourceNat, sourceNatAssociated, sourceNatOk) {
      var nat_ := [AssignSourceNat(inVpc)];
      assert nat_ + Calls([], Implement) == nat_;
      NoBracketWithoutPrepare(nat_, []);
    } else if FirstFailure(elements, providers, enabled, Accepted(implemented), 0).Some? {
      BracketWhenImplementFails(needsSourceNat, inVpc, sourceNatAssociated, sourceNatOk, elements, providers, enabled, implemented, prepareOk, reprogramOk, completes, cleanupOk);
    } else if CallUntilFailure(agg, prepareOk).1.Some? {
      BracketWhenPrepareThrows(needsSourceNat, inVpc, sourceNatAssociated, sourceNatOk, elements, providers, enabled, implemented, prepareOk, reprogramOk, completes, cleanupOk);
    } else {
      BracketAfterPrepares(needsSourceNat, inVpc, sourceNatAssociated, sourceNatOk, elements, providers, enabled, implemented, prepareOk, reprogramOk, completes, cleanupOk);
    }
  }

  /** A run whose implement loop stops calls no prepare and no cleanup. */
  lemma {:induction false} BracketWhenImplementFails(
    needsSourceNat: bool, inVpc: bool, sourceNatAssociated: bool, sourceNatOk: bool,
    elements: seq<Element>, providers: seq<string>, enabled: seq<bool>, implemented: seq<ElementAnswer>,
    prepareOk: seq<bool>, reprogramOk: bool, completes: seq<bool>, cleanupOk: seq<bool>)
    requires |enabled| == |elements| == |implemented| == |prepareOk| == |completes| == |cleanupOk|
    requires !SourceNatFails(needsSourceNat, sourceNatAssociated, sourceNatOk)
    requires FirstFailure(elements, providers, enabled, Accepted(implemented), 0).Some?
    ensures var trace := ImplementElementsAndResources(needsSourceNat, inVpc, sourceNatAssociated, sourceNatOk,
                                      elements, providers, enabled, implemented, prepareOk, reprogramOk, completes, cleanupOk).0;
            Bracketed(trace) && NoCompleteAfterCleanup(trace)
  {
    var trace := ImplementElementsAndResources(needsSourceNat, inVpc, sourceNatAssociated, sourceNatOk, elements, providers, enabled, implemented, prepareOk, reprogramOk, completes, cleanupOk).0;
    var failure := FirstFailure(elements, providers, enabled, Accepted(implemented), 0);
    var called := Filter(InScopeIndices(elements, providers, 0), failure.value);
    var nat_ := if needsSourceNat && !sourceNatAssociated then [AssignSourceNat(inVpc)] else [];
    assert trace == nat_ + Calls(called, Implement);
    NoBracketWithoutPrepare(nat_, called);
  }

  /** A run whose prepare loop throws leaves the throwing element without cleanup. */
  lemma {:induction false} BracketWhenPrepareThrows(
    needsSourceNat: bool, inVpc: bool, sourceNatAssociated: bool, sourceNatOk: bool,
    elements: seq<Element>, providers: seq<string>, enabled: seq<bool>, implemented: seq<ElementAnswer>,
    prepareOk: seq<bool>, reprogramOk: bool, completes: seq<bool>, cleanupOk: seq<bool>)
    requires |enabled| == |elements| == |implemented| == |prepareOk| == |completes| == |cleanupOk|
    requires !SourceNatFails(needsSourceNat, sourceNatAssociated, sourceNatOk)
    requires FirstFailure(elements, providers, enabled, Accepted(implemented), 0).None?
    requires CallUntilFailure(AggregatedIndices(elements, providers, 0), prepareOk).1.Some?
    ensures var trace := ImplementElementsAndResources(needsSourceNat, inVpc, sourceNatAssociated, sourceNatOk,
                                      elements, providers, enabled, implemented, prepareOk, reprogramOk, completes, cleanupOk).0;
            !Bracketed(trace) && NoCompleteAfterCleanup(trace)
  {
    var trace := ImplementElementsAndResources(needsSourceNat, inVpc, sourceNatAssociated, sourceNatOk, elements, providers, enabled, implemented, prepareOk, reprogramOk, completes, cleanupOk).0;
    var nat_ := if needsSourceNat && !sourceNatAssociated then [AssignSourceNat(inVpc)] else [];
    var pre := nat_ + Calls(InScopeIndices(elements, providers, 0), Implement);
    var prepared := CallUntilFailure(AggregatedIndices(elements, providers, 0), prepareOk);
    NoBracketWithoutPrepare(nat_, InScopeIndices(elements, providers, 0));
    assert trace == pre + Calls(prepared.0, PrepareAggregated);
    PrepareThrowLeavesOpen(pre, prepared.0);
  }

  /** A run whose prepares all pass is bracketed exactly when no cleanup but the last throws. */
  lemma {:induction false} BracketAfterPrepares(
    needsSourceNat: bool, inVpc: bool, sourceNatAssociated: bool, sourceNatOk: bool,
    elements: seq<Element>, providers: seq<string>, enabled: seq<bool>, implemented: seq<ElementAnswer>,
    prepareOk: seq<bool>, reprogramOk: bool, completes: seq<bool>, cleanupOk: seq<bool>)
    requires |enabled| == |elements| == |implemented| == |prepareOk| == |completes| == |cleanupOk|
    requires !SourceNatFails(needsSourceNat, sourceNatAssociated, sourceNatOk)
    requires FirstFailure(elements, providers, enabled, Accepted(implemented), 0).None?
    requires CallUntilFailure(AggregatedIndices(elements, providers, 0), prepareOk).1.None?
    ensures var trace := ImplementElementsAndResources(needsSourceNat, inVpc, sourceNatAssociated, sourceNatOk,
                                      elements, providers, enabled, implemented, prepareOk, reprogramOk, completes, cleanupOk).0;
            var agg := AggregatedIndices(elements, providers, 0);
            NoCompleteAfterCleanup(trace) && (Bracketed(trace) <==> forall i :: 0 <= i < |agg| - 1 ==> cleanupOk[agg[i]])
  {
    PreparedTrace(needsSourceNat, inVpc, sourceNatAssociated, sourceNatOk, elements, providers, enabled, implemented, prepareOk, reprogramOk, completes, cleanupOk);
    CleanupBracket(ImplementElementsAndResources(needsSourceNat, inVpc, sourceNatAssociated, sourceNatOk,
                     elements, providers, enabled, implemented, prepareOk, reprogramOk, completes, cleanupOk).0,
                   needsSourceNat, inVpc, sourceNatAssociated, elements, providers, reprogramOk, completes, cleanupOk);
  }

  /**
   * A trace shaped as: source NAT, implements, the prepares, the
   * reprogramming, completions, and the cleanup loop. It is bracketed
   * exactly when no cleanup but the last one throws.
   */
  lemma {:induction false} CleanupBracket(t: seq<Call>, needsSourceNat: bool, inVpc: bool, sourceNatAssociated: bool,
                        elements: seq<Element>, providers: seq<string>,
                        reprogramOk: bool, completes: seq<bool>, cleanupOk: seq<bool>)
    requires |completes| == |elements| && |cleanupOk| == |elements|
    requires var agg := AggregatedIndices(elements, providers, 0);
             t == (if needsSourceNat && !sourceNatAssociated then [AssignSourceNat(inVpc)] else [])
               + Calls(InScopeIndices(elements, providers, 0), Implement)
               + Calls(agg, PrepareAggregated) + [Reprogram]
               + (if reprogramOk then Calls(CallUntilFailure(agg, completes).0, CompleteAggregated) else [])
               + Calls(CallUntilFailure(agg, cleanupOk).0, CleanupAggregated)
    ensures var agg := AggregatedIndices(elements, providers, 0);
            NoCompleteAfterCleanup(t) && (Bracketed(t) <==> forall i :: 0 <= i < |agg| - 1 ==> cleanupOk[agg[i]])
  {
    var agg := AggregatedIndices(elements, providers, 0);
    CleanupShape(t, if needsSourceNat && !sourceNatAssociated then [AssignSourceNat(inVpc)] else [],
                 InScopeIndices(elements, providers, 0), agg, reprogramOk, completes, cleanupOk);
  }

  /** CleanupBracket for any source NAT prefix, implemented elements and increasing batching elements. */
  lemma {:induction false} CleanupShape(t: seq<Call>, nat_: seq<Call>, scope: seq<nat>, agg: seq<nat>,
                                        reprogramOk: bool, completes: seq<bool>, cleanupOk: seq<bool>)
    requires forall i :: 0 <= i < |nat_| ==> nat_[i].AssignSourceNat?
    requires |completes| == |cleanupOk|
    requires forall i :: 0 <= i < |agg| ==> agg[i] < |cleanupOk|
    requires forall j :: j in agg ==> j < |cleanupOk|
    requires forall i, j :: 0 <= i < j < |agg| ==> agg[i] < agg[j]
    requires t == nat_ + Calls(scope, Implement) + Calls(agg, PrepareAggregated) + [Reprogram]
                  + (if reprogramOk then Calls(CallUntilFailure(agg, completes).0, CompleteAggregated) else [])
                  + Calls(CallUntilFailure(agg, cleanupOk).0, CleanupAggregated)
    ensures NoCompleteAfterCleanup(t) && (Bracketed(t) <==> forall i :: 0 <= i < |agg| - 1 ==> cleanupOk[agg[i]])
  {
    var mid := if reprogramOk then Calls(CallUntilFailure(agg, completes).0, CompleteAggregated) else [];
    var cleaned := CallUntilFailure(agg, cleanupOk).0;
    NoBracketWithoutPrepare(nat_, scope);
    BracketShape(t, nat_ + Calls(scope, Implement), agg, mid, |cleaned|);
    UntilFailureReachesAll(agg, cleanupOk);
    assert |cleaned| == |agg| <==> cleaned == agg;
  }

  /** The calls of a run whose prepares all pass, segment by segment. */
  lemma {:induction false} PreparedTrace(
    needsSourceNat: bool, inVpc: bool, sourceNatAssociated: bool, sourceNatOk: bool,
    elements: seq<Element>, providers: seq<string>, enabled: seq<bool>, implemented: seq<ElementAnswer>,
    prepareOk: seq<bool>, reprogramOk: bool, completes: seq<bool>, cleanupOk: seq<bool>)
    requires |enabled| == |elements| == |implemented| == |prepareOk| == |completes| == |cleanupOk|
    requires !SourceNatFails(needsSourceNat, sourceNatAssociated, sourceNatOk)
    requires FirstFailure(elements, providers, enabled, Accepted(implemented), 0).None?
    requires CallUntilFailure(AggregatedIndices(elements, providers, 0), prepareOk).1.None?
    ensures var agg := AggregatedIndices(elements, providers, 0);
            ImplementElementsAndResources(needsSourceNat, inVpc, sourceNatAssociated, sourceNatOk, elements, providers, enabled, implemented, prepareOk, reprogramOk, completes, cleanupOk).0
            == (if needsSourceNat && !sourceNatAssociated then [AssignSourceNat(inVpc)] else [])
               + Calls(InScopeIndices(elements, providers, 0), Implement)
               + Calls(agg, PrepareAggregated) + [Reprogram]
               + (if reprogramOk then Calls(CallUntilFailure(agg, completes).0, CompleteAggregated) else [])
               + Calls(CallUntilFailure(agg, cleanupOk).0, CleanupAggregated)
  {
  }

  /** A trace of source NAT and implement calls holds no prepare and no cleanup. */
  lemma NoBracketWithoutPrepare(nat_: seq<Call>, called: seq<nat>)
    requires forall i :: 0 <= i < |nat_| ==> nat_[i].AssignSourceNat?
    ensures var t := nat_ + Calls(called, Implement);
            (forall i :: 0 <= i < |t| ==> !IsPhase(t[i], PrepareAggregated) && !IsPhase(t[i], CleanupAggregated))
            && Bracketed(t) && NoCompleteAfterCleanup(t)
  {
    var t := nat_ + Calls(called, Implement);
    assert forall i :: |nat_| <= i < |t| ==> t[i] == ElementCall(Implement, called[i - |nat_|]);
  }

  /** When a prepare throws, the last element prepared has no cleanup. */
  lemma PrepareThrowLeavesOpen(pre: seq<Call>, prepared: seq<nat>)
    requires forall i :: 0 <= i < |pre| ==> !IsPhase(pre[i], PrepareAggregated) && !IsPhase(pre[i], CleanupAggregated)
    requires |prepared| > 0
    ensures var t := pre + Calls(prepared, PrepareAggregated);
            !Bracketed(t) && NoCompleteAfterCleanup(t)
  {
    var t := pre + Calls(prepared, PrepareAggregated);
    assert forall k :: |pre| <= k < |t| ==> t[k] == ElementCall(PrepareAggregated, prepared[k - |pre|]);
    assert IsPhase(t[|t| - 1], PrepareAggregated);
  }

  /**
   * implementNetworkElementsAndResources succeeds exactly when a source
   * NAT address, if one was needed and missing, was assigned, every
   * in-scope element was enabled and implemented, every in-scope batching
   * element was prepared, the rules were reprogrammed, and every in-scope
   * batching element completed and was cleaned up.
   */
  lemma {:induction false} ImplementSucceedsIff(
    needsSourceNat: bool, inVpc: bool, sourceNatAssociated: bool, sourceNatOk: bool,
    elements: seq<Element>, providers: seq<string>, enabled: seq<bool>, implemented: seq<ElementAnswer>,
    prepareOk: seq<bool>, reprogramOk: bool, completes: seq<bool>, cleanupOk: seq<bool>)
    requires |enabled| == |elements| == |implemented| == |prepareOk| == |completes| == |cleanupOk|
    ensures ImplementElementsAndResources(needsSourceNat, inVpc, sourceNatAssociated, sourceNatOk,
              elements, providers, enabled, implemented, prepareOk, reprogramOk, completes, cleanupOk).1 == AllImplemented
            <==>
            (needsSourceNat && !sourceNatAssociated ==> sourceNatOk)
            && (forall e :: 0 <= e < |elements| && InScope(elements[e], providers) ==> enabled[e] && implemented[e] == Succeeded)
            && reprogramOk
            && (forall e :: 0 <= e < |elements| && InScope(elements[e], providers) && elements[e].aggregated ==>
                  prepareOk[e] && completes[e] && cleanupOk[e])
  {
    var outcome := ImplementElementsAndResources(needsSourceNat, inVpc, sourceNatAssociated, sourceNatOk,
      elements, providers, enabled, implemented, prepareOk, reprogramOk, completes, cleanupOk).1;
    if SourceNatFails(needsSourceNat, sourceNatAssociated, sourceNatOk) {
      assert outcome == SourceNatFailed;
    } else {
      var agg := AggregatedIndices(elements, providers, 0);
      assert forall j :: j in agg <==> 0 <= j < |elements| && InScope(elements[j], providers) && elements[j].aggregated;
    }
  }

  /**
   * How a failed run ends: a source NAT assignment that throws ends it
   * before any element is called; a disabled or refusing element is reported as
   * such (implementNetwork catches it), while an implement, prepare or
   * cleanup that throws is reported with its element, and the last of
   * them in the run decides the outcome.
   */
  lemma {:induction false} ImplementFailureKinds(
    needsSourceNat: bool, inVpc: bool, sourceNatAssociated: bool, sourceNatOk: bool,
    elements: seq<Element>, providers: seq<string>, enabled: seq<bool>, implemented: seq<ElementAnswer>,
    prepareOk: seq<bool>, reprogramOk: bool, completes: seq<bool>, cleanupOk: seq<bool>)
    requires |enabled| == |elements| == |implemented| == |prepareOk| == |completes| == |cleanupOk|
    ensures var outcome := ImplementElementsAndResources(needsSourceNat, inVpc, sourceNatAssociated, sourceNatOk,
              elements, providers, enabled, implemented, prepareOk, reprogramOk, completes, cleanupOk).1;
            (outcome.SourceNatFailed? <==> needsSourceNat && !sourceNatAssociated && !sourceNatOk)
            && (outcome.ElementFailed? ==>
               var e := outcome.failure.index;
               e < |elements| && InScope(elements[e], providers)
               && (outcome.failure.ProviderNotEnabled? <==> !enabled[e])
               && (outcome.failure.ElementRefused? ==> implemented[e] == ReturnedFalse))
            && (outcome.ElementThrew? ==>
                  outcome.index < |elements| && InScope(elements[outcome.index], providers) && enabled[outcome.index]
                  && implemented[outcome.index] == Threw)
            && (outcome.PrepareThrew? ==>
                  outcome.index < |elements| && elements[outcome.index].aggregated && !prepareOk[outcome.index])
            && (outcome.CleanupThrew? ==>
                  outcome.index < |elements| && elements[outcome.index].aggregated && !cleanupOk[outcome.index]
                  && forall e :: 0 <= e < |elements| && InScope(elements[e], providers) ==> enabled[e] && implemented[e] == Succeeded)
  {
    var outcome := ImplementElementsAndResources(needsSourceNat, inVpc, sourceNatAssociated, sourceNatOk,
      elements, providers, enabled, implemented, prepareOk, reprogramOk, completes, cleanupOk).1;
    var failure := FirstFailure(elements, providers, enabled, Accepted(implemented), 0);
    if SourceNatFails(needsSourceNat, sourceNatAssociated, sourceNatOk) {
      assert outcome == SourceNatFailed;
    } else if failure.Some? {
      var f := failure.value;
      assert outcome == if f.ElementRefused? && implemented[f.index] == Threw then ElementThrew(f.index) else ElementFailed(f);
    } else {
      var agg := AggregatedIndices(elements, providers, 0);
      var prepared := CallUntilFailure(agg, prepareOk);
      if prepared.1.None? {
        var cleaned := CallUntilFailure(agg, cleanupOk);
      }
    }
  }
}
