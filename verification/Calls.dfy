/** The release, create and update of a route as sequences of single API calls, and what a sync
    makes of a state in which such a sequence stopped half-way. */
module Calls {
  import opened Wrappers
  import opened Model
  import opened Hosts
  import opened Reconciler
  import opened Algebra

  datatype Kind = EndpointsKind | ServiceKind | VirtualServiceKind | DestinationRuleKind

  /** The place of a kind in the order in which both sequences go through the kinds. */
  function Index(kind: Kind): nat {
    match kind
    case EndpointsKind => 0
    case ServiceKind => 1
    case VirtualServiceKind => 2
    case DestinationRuleKind => 3
  }

  function KindAt(i: nat): Kind
    requires i < 4
    ensures Index(KindAt(i)) == i
  {
    if i == 0 then EndpointsKind else if i == 1 then ServiceKind
    else if i == 2 then VirtualServiceKind else DestinationRuleKind
  }

  predicate Has(s: Istio, kind: Kind, route: string) {
    match kind
    case EndpointsKind => route in s.endpoints
    case ServiceKind => route in s.services
    case VirtualServiceKind => route in s.virtualServices
    case DestinationRuleKind => route in s.destinationRules
  }

  function DeleteKind(s: Istio, kind: Kind, route: string): Istio {
    match kind
    case EndpointsKind => s.(endpoints := Deleted(s.endpoints, route))
    case ServiceKind => s.(services := Deleted(s.services, route))
    case VirtualServiceKind => s.(virtualServices := Deleted(s.virtualServices, route))
    case DestinationRuleKind => s.(destinationRules := Deleted(s.destinationRules, route))
  }

  function CreateKind(info: IstioInfo, s: Istio, kind: Kind, route: string, backend: Backend): Istio {
    match kind
    case EndpointsKind => s.(endpoints := Created(s.endpoints, route, backend.subsets))
    case ServiceKind => s.(services := Created(s.services, route, ZeroNodePorts(backend.ports)))
    case VirtualServiceKind =>
      s.(virtualServices := Created(s.virtualServices, route, NewVirtualService(info, route, backend.ports)))
    case DestinationRuleKind =>
      s.(destinationRules := Created(s.destinationRules, route, NewDestinationRule(info, route)))
  }

  function WriteGateway(info: IstioInfo, s: Istio, route: string, edit: Edit): Istio {
    match s.gateway
    case None => s
    case Some(servers) => s.(gateway := Some(EditServers(info, servers, HostOf(info, route), edit)))
  }

  /** Deletes of the four kinds, then the gateway, then the record. */
  function ReleaseCall(info: IstioInfo, s: Istio, owner: string, route: string, i: nat): Istio
    requires i < 6
  {
    if i < 4 then DeleteKind(s, KindAt(i), route)
    else if i == 4 then WriteGateway(info, s, route, Remove)
    else s.(records := Deleted(s.records, owner))
  }

  /** The record, then creates of the four kinds, then the gateway. */
  function CreateCall(info: IstioInfo, s: Istio, owner: string, route: string, backend: Backend, i: nat): Istio
    requires i < 6
  {
    if i == 0 then s.(records := Created(s.records, owner, route))
    else if i < 5 then CreateKind(info, s, KindAt(i - 1), route, backend)
    else WriteGateway(info, s, route, Add)
  }

  /** The service, then the endpoints. */
  function UpdateCall(s: Istio, route: string, backend: Backend, i: nat): Istio
    requires i < 2
  {
    if i == 0 then s.(services := Updated(s.services, route, ZeroNodePorts(backend.ports)))
    else s.(endpoints := Updated(s.endpoints, route, backend.subsets))
  }

  /** The state after the first n calls. */
  function ReleasePrefix(info: IstioInfo, s: Istio, owner: string, route: string, n: nat): Istio
    requires n <= 6
  {
    if n == 0 then s else ReleaseCall(info, ReleasePrefix(info, s, owner, route, n - 1), owner, route, n - 1)
  }

  function CreatePrefix(info: IstioInfo, s: Istio, owner: string, route: string, backend: Backend, n: nat): Istio
    requires n <= 6
  {
    if n == 0 then s
    else CreateCall(info, CreatePrefix(info, s, owner, route, backend, n - 1), owner, route, backend, n - 1)
  }

  /** The state after n calls, store by store. */
  lemma ReleasePrefixStores(info: IstioInfo, s: Istio, owner: string, route: string, n: nat)
    requires n <= 6
    ensures ReleasePrefix(info, s, owner, route, n)
         == Istio(if n < 6 then s.records else Deleted(s.records, owner),
                  if n < 1 then s.endpoints else Deleted(s.endpoints, route),
                  if n < 2 then s.services else Deleted(s.services, route),
                  if n < 3 then s.virtualServices else Deleted(s.virtualServices, route),
                  if n < 4 then s.destinationRules else Deleted(s.destinationRules, route),
                  if n < 5 then s.gateway else WriteGateway(info, s, route, Remove).gateway)
  {
  }

  lemma CreatePrefixStores(info: IstioInfo, s: Istio, owner: string, route: string, backend: Backend, n: nat)
    requires n <= 6
    ensures CreatePrefix(info, s, owner, route, backend, n)
         == Istio(if n < 1 then s.records else Created(s.records, owner, route),
                  if n < 2 then s.endpoints else Created(s.endpoints, route, backend.subsets),
                  if n < 3 then s.services else Created(s.services, route, ZeroNodePorts(backend.ports)),
                  if n < 4 then s.virtualServices
                  else Created(s.virtualServices, route, NewVirtualService(info, route, backend.ports)),
                  if n < 5 then s.destinationRules
                  else Created(s.destinationRules, route, NewDestinationRule(info, route)),
                  if n < 6 then s.gateway else WriteGateway(info, s, route, Add).gateway)
  {
  }

  /** All calls together are the edits of a whole sync. */
  lemma CompletedRelease(info: IstioInfo, s: Istio, owner: string, route: string, n: nat)
    requires n == 6
    ensures ReleasePrefix(info, s, owner, route, n) == Perform(info, s, owner, Withdraw(route))
  {
    ReleasePrefixStores(info, s, owner, route, n);
  }

  lemma CompletedCreate(info: IstioInfo, s: Istio, owner: string, route: string, backend: Backend, n: nat)
    requires n == 6
    ensures CreatePrefix(info, s, owner, route, backend, n) == Perform(info, s, owner, Install(route, backend))
  {
    CreatePrefixStores(info, s, owner, route, backend, n);
  }

  // ------------------------------------------------------------------------ blind syncs

  /** What a sync leaves that goes on although one of its two source lookups failed. Building the
      Istio object from what was not found panics: after the record, or after record and endpoints,
      of a create; before the first or the second call of an update. */
  function Interrupted(s: Istio, owner: string, route: string, subsets: Option<seq<Subset>>, ports: Option<SourcePorts>)
    : Istio
  {
    if owner in s.records then
      if ports.Some? then s.(services := Updated(s.services, route, ZeroNodePorts(ports.value))) else s
    else if route in s.services then s
    else
      s.(records := Created(s.records, owner, route),
         endpoints := if subsets.Some? then Created(s.endpoints, route, subsets.value) else s.endpoints)
  }

  /** Such a panic is a crash between two calls: of the create or the update that the same sync
      would have done with any backend that agrees with what it did see. */
  lemma InterruptedIsACrash(info: IstioInfo, s: Istio, owner: string, route: string, backend: Backend,
                            subsets: Option<seq<Subset>>, ports: Option<SourcePorts>)
    requires subsets.None? || ports.None?
    requires subsets.Some? ==> subsets.value == backend.subsets
    requires ports.Some? ==> ports.value == backend.ports
    ensures Interrupted(s, owner, route, subsets, ports)
         == if owner in s.records then (if ports.Some? then UpdateCall(s, route, backend, 0) else s)
            else if route in s.services then s
            else CreatePrefix(info, s, owner, route, backend, if subsets.Some? then 2 else 1)
  {
    CreatePrefixStores(info, s, owner, route, backend, if subsets.Some? then 2 else 1);
  }

  // ------------------------------------------------------------------ recovery from a crash

  ghost predicate AtMostOnce(info: IstioInfo, s: Istio, route: string) {
    s.gateway.Some? ==>
      (forall i :: 0 <= i < |s.gateway.value| && Managed(info, s.gateway.value[i]) ==>
        multiset(s.gateway.value[i].hosts)[HostOf(info, route)] <= 1)
  }

  lemma ServersAddThenRemove(info: IstioInfo, servers: seq<Server>, host: string)
    ensures EditServers(info, EditServers(info, servers, host, Add), host, Remove)
         == EditServers(info, servers, host, Remove)
  {
  }

  /** Wherever a create stopped after its record was written, a sync with the source gone leaves
      one and the same state, the one a withdrawal would have left. */
  lemma CrashedCreateIsCleanedUp(info: IstioInfo, s: Istio, owner: string, src: Source, n: nat)
    requires owner !in s.records && Eligible(src) && 1 <= n <= 6
    ensures var crashed := CreatePrefix(info, s, owner, src.route, src.backend.value, n);
      Reconcile(info, crashed, owner, Absent).istio == Perform(info, s, owner, Withdraw(src.route))
  {
    var crashed := CreatePrefix(info, s, owner, src.route, src.backend.value, n);
    CreatePrefixStores(info, s, owner, src.route, src.backend.value, n);
    assert Reconcile(info, crashed, owner, Absent).istio == Perform(info, crashed, owner, Withdraw(src.route));
    WithdrawForgetsCreates(info, s, owner, src.route, src.backend.value, n);
  }

  lemma DeleteForgets<V>(m: map<string, V>, name: string, v: V)
    ensures Deleted(Created(m, name, v), name) == Deleted(m, name)
    ensures Deleted(Deleted(m, name), name) == Deleted(m, name)
  {
  }

  lemma WithdrawForgetsCreates(info: IstioInfo, s: Istio, owner: string, route: string, backend: Backend, n: nat)
    requires n <= 6
    ensures Perform(info, CreatePrefix(info, s, owner, route, backend, n), owner, Withdraw(route))
         == Perform(info, s, owner, Withdraw(route))
  {
    CreatePrefixStores(info, s, owner, route, backend, n);
    DeleteForgets(s.records, owner, route);
    DeleteForgets(s.endpoints, route, backend.subsets);
    DeleteForgets(s.services, route, ZeroNodePorts(backend.ports));
    DeleteForgets(s.virtualServices, route, NewVirtualService(info, route, backend.ports));
    DeleteForgets(s.destinationRules, route, NewDestinationRule(info, route));
    if s.gateway.Some? {
      ServersAddThenRemove(info, s.gateway.value, HostOf(info, route));
    }
  }

  lemma WithdrawRepeatsDeletes(info: IstioInfo, s: Istio, owner: string, route: string, n: nat)
    requires n <= 5
    ensures var resumed := Perform(info, ReleasePrefix(info, s, owner, route, n), owner, Withdraw(route));
      resumed == Perform(info, s, owner, Withdraw(route)) <==> n < 5 || AtMostOnce(info, s, route)
  {
    var t := Perform(info, ReleasePrefix(info, s, owner, route, n), owner, Withdraw(route));
    var u := Perform(info, s, owner, Withdraw(route));
    ReleasePrefixStores(info, s, owner, route, n);
    assert t.endpoints == u.endpoints && t.services == u.services && t.records == u.records;
    assert t.virtualServices == u.virtualServices && t.destinationRules == u.destinationRules;
    if s.gateway.Some? {
      ServersRemoveTwice(info, s.gateway.value, HostOf(info, route));
    }
  }

  /** So, for a route whose service name was free, the stores are restored exactly if and only if
      the route was free in every store, whatever call the create stopped at. */
  lemma CrashedCreateRestores(info: IstioInfo, s: Istio, owner: string, src: Source, n: nat)
    requires owner !in s.records && Eligible(src) && src.route !in s.services && 1 <= n <= 6
    ensures var crashed := CreatePrefix(info, s, owner, src.route, src.backend.value, n);
      Reconcile(info, crashed, owner, Absent).istio == s <==> Free(info, s, src.route)
  {
    CrashedCreateIsCleanedUp(info, s, owner, src, n);
    var all := 6;
    CrashedCreateIsCleanedUp(info, s, owner, src, all);
    CompletedCreate(info, s, owner, src.route, src.backend.value, all);
    CreateThenRemove(info, s, owner, src);
  }

  lemma RemoveTwice(hosts: seq<string>, host: string)
    ensures SwapRemove(SwapRemove(hosts, host), host) == SwapRemove(hosts, host)
       <==> multiset(hosts)[host] <= 1
  {
    SwapRemoveTakesOne(hosts, host);
    var once := SwapRemove(hosts, host);
    assert host in once <==> host in multiset(once);
    if host in once {
      assert |SwapRemove(once, host)| == |once| - 1;
    }
  }

  lemma ServersRemoveTwice(info: IstioInfo, servers: seq<Server>, host: string)
    ensures var once := EditServers(info, servers, host, Remove);
      (EditServers(info, once, host, Remove) == once) <==>
      (forall i :: 0 <= i < |servers| && Managed(info, servers[i]) ==> multiset(servers[i].hosts)[host] <= 1)
  {
    var once := EditServers(info, servers, host, Remove);
    var twice := EditServers(info, once, host, Remove);
    forall i | 0 <= i < |servers|
      ensures twice[i] == once[i] <==> !Managed(info, servers[i]) || multiset(servers[i].hosts)[host] <= 1
    {
      RemoveTwice(servers[i].hosts, host);
      assert once[i] == EditServer(info, servers[i], host, Remove);
      assert twice[i] == EditServer(info, once[i], host, Remove);
    }
    if forall i :: 0 <= i < |servers| && Managed(info, servers[i]) ==> multiset(servers[i].hosts)[host] <= 1 {
      assert twice == once;
    } else {
      var i :| 0 <= i < |servers| && Managed(info, servers[i]) && multiset(servers[i].hosts)[host] > 1;
      assert twice[i] != once[i];
    }
  }

  /** A release that stopped before its record was deleted is finished by the next sync, whatever
      the source shows, exactly as if it had not stopped. Only a stop after the gateway write needs
      that no managed server listed the host twice, because that write is then done again. */
  lemma CrashedReleaseIsFinished(info: IstioInfo, s: Istio, owner: string, src: Source, n: nat)
    requires Stale(s, owner, src) && s.records[owner] != "" && n <= 5
    ensures var crashed := ReleasePrefix(info, s, owner, s.records[owner], n);
      && (Release(info, crashed, owner, src) == Release(info, s, owner, src)
          <==> n < 5 || AtMostOnce(info, s, s.records[owner]))
      && (n < 5 || AtMostOnce(info, s, s.records[owner])
          ==> Reconcile(info, crashed, owner, src) == Reconcile(info, s, owner, src))
  {
    var route := s.records[owner];
    var crashed := ReleasePrefix(info, s, owner, route, n);
    ReleasePrefixStores(info, s, owner, route, n);
    assert Release(info, crashed, owner, src) == Perform(info, crashed, owner, Withdraw(route));
    WithdrawRepeatsDeletes(info, s, owner, route, n);
  }

  /** A withdrawal leaves no record, no object, and, where no server listed it twice, no host. */
  lemma WithdrawLeavesNothing(info: IstioInfo, s: Istio, owner: string, route: string)
    ensures var t := Perform(info, s, owner, Withdraw(route));
      && owner !in t.records && (forall kind :: !Has(t, kind, route))
      && (AtMostOnce(info, s, route) <==> Free(info, t, route))
  {
    var t := Perform(info, s, owner, Withdraw(route));
    if s.gateway.Some? {
      forall i | 0 <= i < |s.gateway.value| && Managed(info, s.gateway.value[i])
        ensures HostOf(info, route) in t.gateway.value[i].hosts
           <==> multiset(s.gateway.value[i].hosts)[HostOf(info, route)] > 1
      {
        SwapRemoveTakesOne(s.gateway.value[i].hosts, HostOf(info, route));
        assert HostOf(info, route) in t.gateway.value[i].hosts
          <==> HostOf(info, route) in multiset(t.gateway.value[i].hosts);
      }
    }
  }

  /** Duplicate-free host lists satisfy the condition. */
  lemma DuplicateFreeIsAtMostOnce(info: IstioInfo, s: Istio, route: string)
    requires s.gateway.Some? ==> forall i :: 0 <= i < |s.gateway.value| ==> DuplicateFree(s.gateway.value[i].hosts)
    ensures AtMostOnce(info, s, route)
  {
    if s.gateway.Some? {
      forall i | 0 <= i < |s.gateway.value| {
        DuplicateFreeCounts(s.gateway.value[i].hosts, HostOf(info, route));
      }
    }
  }

  /** Cleanup from any crash point: wherever a create or a release of a key stopped, with host lists
      free of duplicates and the source gone, one sync leaves no record for the key, and no object
      and no host for the route its record named. */
  lemma CleanupFromCrash(info: IstioInfo, s: Istio, crashed: Istio, owner: string, route: string,
                         backend: Backend, n: nat)
    requires s.gateway.Some? ==> forall i :: 0 <= i < |s.gateway.value| ==> DuplicateFree(s.gateway.value[i].hosts)
    requires n <= 6 && route != ""
    requires
      || (owner !in s.records && 1 <= n && crashed == CreatePrefix(info, s, owner, route, backend, n))
      || (owner in s.records && s.records[owner] == route && n < 6
          && crashed == ReleasePrefix(info, s, owner, route, n))
    ensures var t := Reconcile(info, crashed, owner, Absent).istio;
      owner !in t.records && Free(info, t, route) && forall kind :: !Has(t, kind, route)
  {
    DuplicateFreeIsAtMostOnce(info, s, route);
    WithdrawLeavesNothing(info, s, owner, route);
    if owner in s.records {
      CrashedReleaseIsFinished(info, s, owner, Absent, n);
      assert Reconcile(info, s, owner, Absent).istio == Perform(info, s, owner, Withdraw(route));
    } else {
      CrashedCreateIsCleanedUp(info, s, owner, Present(route, "", Some(backend)), n);
    }
  }

  /** A half-finished create is not repaired: once the record exists, syncs of its own key that keep
      asking for the route never make a missing object, and never write the virtual service, the
      destination rule or the gateway. */
  lemma {:induction false} HalfCreateStaysHalf(info: IstioInfo, s: Istio, owner: string, turns: seq<Turn>)
    requires owner in s.records && s.records[owner] != ""
    requires forall e :: e in turns ==> e.owner == owner && e.source.Present? && e.source.route == s.records[owner]
    ensures var t := Run(info, s, turns);
      && (forall kind, route :: Has(t, kind, route) <==> Has(s, kind, route))
      && t.(services := s.services, endpoints := s.endpoints) == s
    decreases |turns|
  {
    if turns != [] {
      var e := turns[0];
      assert e in turns;
      var next := Reconcile(info, s, owner, e.source).istio;
      assert next.(services := s.services, endpoints := s.endpoints) == s;
      HalfCreateStaysHalf(info, next, owner, turns[1..]);
    }
  }
}
