/** The Istio stores as a lease table for route names: what every reachable state keeps, what one
    sync does to the table, and what it leaves alone. */
module Leases {
  import opened Wrappers
  import opened Names
  import opened Model
  import opened Hosts
  import opened Reconciler

  // ------------------------------------------------------------------- the invariant

  predicate HasObjects(s: Istio, route: string) {
    && route in s.endpoints
    && route in s.services
    && route in s.virtualServices
    && route in s.destinationRules
  }

  /** Records name non-empty routes, no two name the same one, and each route has its objects. */
  ghost predicate LeaseInv(s: Istio) {
    && (forall o :: o in s.records ==> s.records[o] != "" && HasObjects(s, s.records[o]))
    && (forall o, p :: o in s.records && p in s.records && o != p ==> s.records[o] != s.records[p])
  }

  function HeldRoutes(s: Istio): set<string> {
    s.records.Values
  }

  predicate HoldsRoute(s: Istio, owner: string, route: string) {
    owner in s.records && s.records[owner] == route
  }

  /** What an edit may assume: it withdraws or refreshes the owner's own route, and installs a
      route that no service occupies for an owner that holds none. */
  ghost predicate Legal(s: Istio, owner: string, act: Act) {
    match act
    case Nothing => true
    case Withdraw(route) => owner in s.records && s.records[owner] == route
    case Install(route, _) => owner !in s.records && route != "" && route !in s.services
    case Refresh(route, _) => owner in s.records && s.records[owner] == route
  }

  lemma SyncActsAreLegal(info: IstioInfo, s: Istio, owner: string, src: Source)
    requires LeaseInv(s)
    ensures Legal(s, owner, ReleaseAct(s, owner, src))
    ensures var released := Release(info, s, owner, src);
      Legal(released, owner, BranchAct(released, owner, src))
  {
  }

  lemma WithdrawKeepsLeases(info: IstioInfo, s: Istio, owner: string)
    requires LeaseInv(s) && owner in s.records
    ensures var t := Perform(info, s, owner, Withdraw(s.records[owner]));
      LeaseInv(t) && HeldRoutes(t) == HeldRoutes(s) - {s.records[owner]}
  {
    var route := s.records[owner];
    var t := Perform(info, s, owner, Withdraw(route));
    forall o | o in t.records ensures t.records[o] == s.records[o] != route && HasObjects(t, t.records[o]) {
      assert HasObjects(s, s.records[o]);
    }
    forall r | r in HeldRoutes(s) && r != route ensures r in HeldRoutes(t) {
      var o :| o in s.records && s.records[o] == r;
      assert o in t.records;
    }
  }

  lemma InstallKeepsLeases(info: IstioInfo, s: Istio, owner: string, route: string, backend: Backend)
    requires LeaseInv(s) && Legal(s, owner, Install(route, backend))
    ensures var t := Perform(info, s, owner, Install(route, backend));
      LeaseInv(t) && HeldRoutes(t) == HeldRoutes(s) + {route} && route !in HeldRoutes(s)
  {
    var t := Perform(info, s, owner, Install(route, backend));
    assert forall o :: o in s.records ==> s.records[o] != route;
    forall o | o in t.records ensures HasObjects(t, t.records[o]) {
      assert o != owner ==> HasObjects(s, s.records[o]);
    }
    AddingAValue(s.records, owner, route);
  }

  lemma AddingAValue(m: map<string, string>, key: string, v: string)
    requires key !in m
    ensures m[key := v].Values == m.Values + {v}
  {
    var n := m[key := v];
    forall w | w in m.Values ensures w in n.Values {
      var k :| k in m && m[k] == w;
      assert n[k] == w;
    }
    assert n[key] == v;
  }

  lemma RefreshKeepsLeases(info: IstioInfo, s: Istio, owner: string, route: string, backend: Backend)
    requires LeaseInv(s)
    ensures var t := Perform(info, s, owner, Refresh(route, backend));
      LeaseInv(t) && t.records == s.records
  {
  }

  lemma ActKeepsLeases(info: IstioInfo, s: Istio, owner: string, act: Act)
    requires LeaseInv(s) && Legal(s, owner, act)
    ensures LeaseInv(Perform(info, s, owner, act))
  {
    match act
    case Nothing =>
    case Withdraw(_) => WithdrawKeepsLeases(info, s, owner);
    case Install(route, backend) => InstallKeepsLeases(info, s, owner, route, backend);
    case Refresh(route, backend) => RefreshKeepsLeases(info, s, owner, route, backend);
  }

  lemma ReconcileKeepsLeases(info: IstioInfo, s: Istio, owner: string, src: Source)
    requires LeaseInv(s)
    ensures LeaseInv(Release(info, s, owner, src))
    ensures LeaseInv(Reconcile(info, s, owner, src).istio)
  {
    SyncActsAreLegal(info, s, owner, src);
    ActKeepsLeases(info, s, owner, ReleaseAct(s, owner, src));
    var released := Release(info, s, owner, src);
    ActKeepsLeases(info, released, owner, BranchAct(released, owner, src));
  }

  // --------------------------------------------------------------- gateway agreement

  function HeldHosts(info: IstioInfo, s: Istio): set<string> {
    set r | r in HeldRoutes(s) :: HostOf(info, r)
  }

  /** A managed server shows its base hosts plus one host per held route; any other is as it was. */
  ghost predicate ServerAgrees(info: IstioInfo, s: Istio, base: Server, now: Server) {
    && now.portName == base.portName
    && if Managed(info, base)
       then multiset(now.hosts) == multiset(base.hosts) + multiset(HeldHosts(info, s))
       else now == base
  }

  ghost predicate GatewayAgrees(info: IstioInfo, base: Option<seq<Server>>, s: Istio) {
    match (base, s.gateway)
    case (None, None) => true
    case (Some(b), Some(now)) => |now| == |b| && forall i :: 0 <= i < |b| ==> ServerAgrees(info, s, b[i], now[i])
    case _ => false
  }

  /** No managed base host is the host of this route. */
  ghost predicate Unclaimed(info: IstioInfo, base: Option<seq<Server>>, route: string) {
    base.Some? ==>
      (forall i :: 0 <= i < |base.value| && Managed(info, base.value[i]) ==>
        HostOf(info, route) !in base.value[i].hosts)
  }

  ghost predicate RequestsUnclaimed(info: IstioInfo, base: Option<seq<Server>>, src: Source) {
    src.Present? && src.route != "" ==> Unclaimed(info, base, src.route)
  }

  lemma HeldHostIff(info: IstioInfo, s: Istio, route: string)
    ensures HostOf(info, route) in HeldHosts(info, s) <==> route in HeldRoutes(s)
  {
    if HostOf(info, route) in HeldHosts(info, s) {
      var r :| r in HeldRoutes(s) && HostOf(info, r) == HostOf(info, route);
      FqdnInjective(r, route, info.suffix);
    }
  }

  lemma WithdrawKeepsGateway(info: IstioInfo, base: Option<seq<Server>>, s: Istio, owner: string)
    requires LeaseInv(s) && GatewayAgrees(info, base, s) && owner in s.records
    ensures GatewayAgrees(info, base, Perform(info, s, owner, Withdraw(s.records[owner])))
  {
    var route := s.records[owner];
    var t := Perform(info, s, owner, Withdraw(route));
    WithdrawKeepsLeases(info, s, owner);
    HostsFollowRoutes(info, s, t, route);
    if base.Some? {
      forall i | 0 <= i < |base.value| ensures ServerAgrees(info, t, base.value[i], t.gateway.value[i]) {
        assert ServerAgrees(info, s, base.value[i], s.gateway.value[i]);
        SwapRemoveTakesOne(s.gateway.value[i].hosts, HostOf(info, route));
      }
    }
  }

  /** Removing a route from, or adding one to, the held routes does the same to the held hosts. */
  lemma HostsFollowRoutes(info: IstioInfo, s: Istio, t: Istio, route: string)
    ensures HeldRoutes(t) == HeldRoutes(s) - {route} ==>
      HeldHosts(info, t) == HeldHosts(info, s) - {HostOf(info, route)}
    ensures HeldRoutes(t) == HeldRoutes(s) + {route} ==>
      HeldHosts(info, t) == HeldHosts(info, s) + {HostOf(info, route)}
    ensures HostOf(info, route) in HeldHosts(info, s) <==> route in HeldRoutes(s)
  {
    HeldHostIff(info, s, route);
    HeldHostIff(info, t, route);
  }

  /** An install keeps the agreement exactly when no managed base host is the route's host; else
      the host is not appended, and a later withdrawal takes the base host away. */
  lemma InstallKeepsGateway(info: IstioInfo, base: Option<seq<Server>>, s: Istio, owner: string,
                            route: string, backend: Backend)
    requires LeaseInv(s) && GatewayAgrees(info, base, s) && Legal(s, owner, Install(route, backend))
    ensures var t := Perform(info, s, owner, Install(route, backend));
      GatewayAgrees(info, base, t) <==> Unclaimed(info, base, route)
  {
    var t := Perform(info, s, owner, Install(route, backend));
    InstallKeepsLeases(info, s, owner, route, backend);
    if base.Some? {
      forall i | 0 <= i < |base.value|
        ensures ServerAgrees(info, t, base.value[i], t.gateway.value[i])
           <==> Managed(info, base.value[i]) ==> HostOf(info, route) !in base.value[i].hosts
      {
        AddHostKeepsServer(info, s, t, base.value[i], s.gateway.value[i], route);
      }
    }
  }

  lemma AddHostKeepsServer(info: IstioInfo, s: Istio, t: Istio, base: Server, now: Server, route: string)
    requires ServerAgrees(info, s, base, now) && route !in HeldRoutes(s)
    requires HeldRoutes(t) == HeldRoutes(s) + {route}
    ensures ServerAgrees(info, t, base, EditServer(info, now, HostOf(info, route), Add))
       <==> (Managed(info, base) ==> HostOf(info, route) !in base.hosts)
  {
    HostsFollowRoutes(info, s, t, route);
    AppendIfAbsentAddsOne(now.hosts, HostOf(info, route));
    if Managed(info, now) {
      var host := HostOf(info, route);
      assert host in now.hosts <==> host in multiset(now.hosts);
      assert host in base.hosts <==> host in multiset(base.hosts);
      assert multiset(HeldHosts(info, s))[host] == 0 && multiset(HeldHosts(info, t))[host] == 1;
    }
  }

  /** It does occur: a base host that is the route's own breaks the agreement at the install, and is
      gone after the withdrawal. */
  lemma ClaimedHostIsLost(info: IstioInfo, owner: string, route: string, backend: Backend)
    requires route != ""
    ensures var base := Some([Server(info.http, [HostOf(info, route)])]);
      var s := Istio(map[], map[], map[], map[], map[], base);
      var made := Perform(info, s, owner, Install(route, backend));
      && LeaseInv(s) && GatewayAgrees(info, base, s) && !GatewayAgrees(info, base, made)
      && Perform(info, made, owner, Withdraw(route)).gateway == Some([Server(info.http, [])])
  {
    var host := HostOf(info, route);
    var base := Some([Server(info.http, [host])]);
    var s := Istio(map[], map[], map[], map[], map[], base);
    assert HeldHosts(info, s) == {};
    assert Managed(info, base.value[0]) && host in base.value[0].hosts;
    InstallKeepsGateway(info, base, s, owner, route, backend);
    assert SwapRemove([host], host) == [];
    assert EditServers(info, base.value, host, Add) == base.value;
    assert EditServers(info, base.value, host, Remove) == [Server(info.http, [])];
  }

  lemma ReconcileKeepsGateway(info: IstioInfo, base: Option<seq<Server>>, s: Istio, owner: string, src: Source)
    requires LeaseInv(s) && GatewayAgrees(info, base, s) && RequestsUnclaimed(info, base, src)
    ensures GatewayAgrees(info, base, Reconcile(info, s, owner, src).istio)
  {
    var released := Release(info, s, owner, src);
    ReconcileKeepsLeases(info, s, owner, src);
    SyncActsAreLegal(info, s, owner, src);
    if Stale(s, owner, src) {
      WithdrawKeepsGateway(info, base, s, owner);
    }
    match BranchOf(released, owner, src)
    case Create => InstallKeepsGateway(info, base, released, owner, src.route, src.backend.value);
    case Update =>
      RefreshKeepsGateway(info, base, released, owner, src.route, src.backend.value);
    case _ =>
  }

  lemma RefreshKeepsGateway(info: IstioInfo, base: Option<seq<Server>>, s: Istio, owner: string,
                            route: string, backend: Backend)
    requires GatewayAgrees(info, base, s)
    ensures GatewayAgrees(info, base, Perform(info, s, owner, Refresh(route, backend)))
  {
  }

  // ------------------------------------------------------- conservation of foreign services

  /** The services no record names, with their contents. */
  function ForeignServices(s: Istio): map<string, seq<ServicePort>> {
    map r | r in s.services && r !in HeldRoutes(s) :: s.services[r]
  }

  lemma ActConservesForeignServices(info: IstioInfo, s: Istio, owner: string, act: Act)
    requires LeaseInv(s) && Legal(s, owner, act)
    ensures ForeignServices(Perform(info, s, owner, act)) == ForeignServices(s)
  {
    var t := Perform(info, s, owner, act);
    match act
    case Nothing =>
    case Withdraw(_) => WithdrawKeepsLeases(info, s, owner);
    case Install(route, backend) => InstallKeepsLeases(info, s, owner, route, backend);
    case Refresh(route, _) => assert route == s.records[owner];
  }

  lemma ReconcileConservesForeignServices(info: IstioInfo, s: Istio, owner: string, src: Source)
    requires LeaseInv(s)
    ensures ForeignServices(Reconcile(info, s, owner, src).istio) == ForeignServices(s)
  {
    SyncActsAreLegal(info, s, owner, src);
    ReconcileKeepsLeases(info, s, owner, src);
    ActConservesForeignServices(info, s, owner, ReleaseAct(s, owner, src));
    var released := Release(info, s, owner, src);
    ActConservesForeignServices(info, released, owner, BranchAct(released, owner, src));
  }
}
