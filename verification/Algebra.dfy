/** Laws between syncs: idempotence, renaming in two steps, commutation of unrelated keys, and the
    round trip of creating and removing a route. */
module Algebra {
  import opened Wrappers
  import opened Names
  import opened Model
  import opened Hosts
  import opened Reconciler
  import opened Leases
  import opened LeaseTable

  // ------------------------------------------------------------------------ idempotence

  lemma ZeroTwice(ports: seq<ServicePort>)
    ensures ZeroNodePorts(ZeroNodePorts(ports)) == ZeroNodePorts(ports)
  {
  }

  /** The create branch is taken although other endpoints already sit under the route's name. */
  predicate CreatesOverEndpoints(info: IstioInfo, s: Istio, owner: string, src: Source) {
    var released := Release(info, s, owner, src);
    && BranchOf(released, owner, src) == Create
    && src.route in released.endpoints
    && released.endpoints[src.route] != src.backend.value.subsets
  }

  lemma NothingLeftToRelease(info: IstioInfo, s: Istio, owner: string, src: Source)
    ensures var once := Reconcile(info, s, owner, src);
      ReleaseAct(once.istio, owner, once.source) == Nothing
  {
  }

  lemma RefreshAfterInstall(info: IstioInfo, s: Istio, owner: string, route: string, backend: Backend, again: Backend)
    requires route !in s.services
    requires again == Backend(backend.subsets, ZeroNodePorts(backend.ports))
    ensures var t := Perform(info, s, owner, Install(route, backend));
      Perform(info, t, owner, Refresh(route, again)) == t
      <==> route !in s.endpoints || s.endpoints[route] == backend.subsets
  {
    ZeroTwice(backend.ports);
    var t := Perform(info, s, owner, Install(route, backend));
    var u := Perform(info, t, owner, Refresh(route, again));
    assert u.services == t.services;
    assert u.endpoints[route] == backend.subsets;
  }

  lemma RefreshTwice(info: IstioInfo, s: Istio, owner: string, route: string, backend: Backend, again: Backend)
    requires again == Backend(backend.subsets, ZeroNodePorts(backend.ports))
    ensures var t := Perform(info, s, owner, Refresh(route, backend));
      Perform(info, t, owner, Refresh(route, again)) == t
  {
    ZeroTwice(backend.ports);
  }

  /** Syncing twice is syncing once, cached source included, although the first sync zeroes node
      ports in the cache. The one exception: a create that keeps foreign endpoints, which the next
      sync overwrites. */
  lemma SyncIdempotent(info: IstioInfo, s: Istio, owner: string, src: Source)
    ensures var once := Reconcile(info, s, owner, src);
      Reconcile(info, once.istio, owner, once.source) == once <==> !CreatesOverEndpoints(info, s, owner, src)
  {
    var released := Release(info, s, owner, src);
    var once := Reconcile(info, s, owner, src);
    NothingLeftToRelease(info, s, owner, src);
    match BranchOf(released, owner, src)
    case Create =>
      ZeroTwice(src.backend.value.ports);
      assert BranchOf(once.istio, owner, once.source) == Update;
      RefreshAfterInstall(info, released, owner, src.route, src.backend.value, once.source.backend.value);
    case Update =>
      ZeroTwice(src.backend.value.ports);
      assert BranchOf(once.istio, owner, once.source) == Update;
      RefreshTwice(info, released, owner, src.route, src.backend.value, once.source.backend.value);
    case _ =>
  }

  // ------------------------------------------------------------------------------ rename

  /** A sync that sees a changed route name does what two syncs would: one with the source absent,
      then one with the new route, whichever branch the second one takes. */
  lemma RenameDecomposes(info: IstioInfo, s: Istio, owner: string, src: Source)
    requires src.Present?
    requires owner in s.records ==> s.records[owner] != src.route
    ensures Reconcile(info, s, owner, src)
         == Reconcile(info, Reconcile(info, s, owner, Absent).istio, owner, src)
  {
  }

  // ------------------------------------------------------- equality up to host order

  /** All stores are equal, and the gateways are, up to the order of hosts. */
  ghost predicate Same(s: Istio, t: Istio) {
    && s.records == t.records
    && s.endpoints == t.endpoints
    && s.services == t.services
    && s.virtualServices == t.virtualServices
    && s.destinationRules == t.destinationRules
    && (s.gateway.Some? <==> t.gateway.Some?)
    && (s.gateway.Some? ==> SameServers(s.gateway.value, t.gateway.value))
  }

  lemma SameTransitive(s: Istio, t: Istio, u: Istio)
    requires Same(s, t) && Same(t, u)
    ensures Same(s, u)
  {
  }

  lemma ActCongruent(info: IstioInfo, s: Istio, t: Istio, owner: string, act: Act)
    requires Same(s, t)
    ensures Same(Perform(info, s, owner, act), Perform(info, t, owner, act))
  {
    if (act.Withdraw? || act.Install?) && s.gateway.Some? {
      var edit := if act.Withdraw? then Remove else Add;
      EditServersCongruent(info, s.gateway.value, t.gateway.value, HostOf(info, act.route), edit);
    }
  }

  lemma ReconcileCongruent(info: IstioInfo, s: Istio, t: Istio, owner: string, src: Source)
    requires Same(s, t)
    ensures Same(Reconcile(info, s, owner, src).istio, Reconcile(info, t, owner, src).istio)
    ensures Reconcile(info, s, owner, src).source == Reconcile(info, t, owner, src).source
  {
    ActCongruent(info, s, t, owner, ReleaseAct(s, owner, src));
    var released := Release(info, s, owner, src);
    ActCongruent(info, released, Release(info, t, owner, src), owner, BranchAct(released, owner, src));
  }

  // ------------------------------------------------------------------------ commutation

  datatype MapEdit<V> = Keep | Drop(name: string) | Make(name: string, v: V) | Set(name: string, v: V)

  function EditMap<V>(m: map<string, V>, e: MapEdit<V>): map<string, V> {
    match e
    case Keep => m
    case Drop(name) => Deleted(m, name)
    case Make(name, v) => Created(m, name, v)
    case Set(name, v) => Updated(m, name, v)
  }

  lemma EditMapCommutes<V>(m: map<string, V>, e: MapEdit<V>, f: MapEdit<V>)
    requires e.Keep? || f.Keep? || e.name != f.name
    ensures EditMap(EditMap(m, e), f) == EditMap(EditMap(m, f), e)
  {
  }

  function RecordsEdit(owner: string, act: Act): MapEdit<string> {
    match act
    case Withdraw(_) => Drop(owner)
    case Install(route, _) => Make(owner, route)
    case _ => Keep
  }

  function EndpointsEdit(act: Act): MapEdit<seq<Subset>> {
    match act
    case Nothing => Keep
    case Withdraw(route) => Drop(route)
    case Install(route, backend) => Make(route, backend.subsets)
    case Refresh(route, backend) => Set(route, backend.subsets)
  }

  function ServicesEdit(act: Act): MapEdit<seq<ServicePort>> {
    match act
    case Nothing => Keep
    case Withdraw(route) => Drop(route)
    case Install(route, backend) => Make(route, ZeroNodePorts(backend.ports))
    case Refresh(route, backend) => Set(route, ZeroNodePorts(backend.ports))
  }

  function VirtualServicesEdit(info: IstioInfo, act: Act): MapEdit<VirtualService> {
    match act
    case Withdraw(route) => Drop(route)
    case Install(route, backend) => Make(route, NewVirtualService(info, route, backend.ports))
    case _ => Keep
  }

  function DestinationRulesEdit(info: IstioInfo, act: Act): MapEdit<DestinationRule> {
    match act
    case Withdraw(route) => Drop(route)
    case Install(route, _) => Make(route, NewDestinationRule(info, route))
    case _ => Keep
  }

  lemma PerformStoreByStore(info: IstioInfo, s: Istio, owner: string, act: Act)
    ensures var t := Perform(info, s, owner, act);
      && t.records == EditMap(s.records, RecordsEdit(owner, act))
      && t.endpoints == EditMap(s.endpoints, EndpointsEdit(act))
      && t.services == EditMap(s.services, ServicesEdit(act))
      && t.virtualServices == EditMap(s.virtualServices, VirtualServicesEdit(info, act))
      && t.destinationRules == EditMap(s.destinationRules, DestinationRulesEdit(info, act))
  {
  }

  ghost predicate Apart(o: string, a: Act, p: string, b: Act) {
    o != p && (a.Nothing? || b.Nothing? || a.route != b.route)
  }

  lemma StoresCommute(info: IstioInfo, s: Istio, o: string, a: Act, p: string, b: Act)
    requires Apart(o, a, p, b)
    ensures var t, u := Perform(info, Perform(info, s, o, a), p, b), Perform(info, Perform(info, s, p, b), o, a);
      t.(gateway := None) == u.(gateway := None)
  {
    PerformStoreByStore(info, s, o, a);
    PerformStoreByStore(info, Perform(info, s, o, a), p, b);
    PerformStoreByStore(info, s, p, b);
    PerformStoreByStore(info, Perform(info, s, p, b), o, a);
    EditMapCommutes(s.records, RecordsEdit(o, a), RecordsEdit(p, b));
    EditMapCommutes(s.endpoints, EndpointsEdit(a), EndpointsEdit(b));
    EditMapCommutes(s.services, ServicesEdit(a), ServicesEdit(b));
    EditMapCommutes(s.virtualServices, VirtualServicesEdit(info, a), VirtualServicesEdit(info, b));
    EditMapCommutes(s.destinationRules, DestinationRulesEdit(info, a), DestinationRulesEdit(info, b));
  }

  lemma GatewayCommutes(info: IstioInfo, s: Istio, o: string, a: Act, p: string, b: Act)
    requires Apart(o, a, p, b)
    ensures var t, u := Perform(info, Perform(info, s, o, a), p, b), Perform(info, Perform(info, s, p, b), o, a);
      (t.gateway.Some? <==> u.gateway.Some?) && (t.gateway.Some? ==> SameServers(t.gateway.value, u.gateway.value))
  {
    if (a.Withdraw? || a.Install?) && (b.Withdraw? || b.Install?) && s.gateway.Some? {
      if HostOf(info, a.route) == HostOf(info, b.route) {
        FqdnInjective(a.route, b.route, info.suffix);
      }
      EditServersCommute(info, s.gateway.value,
        HostOf(info, a.route), if a.Withdraw? then Remove else Add,
        HostOf(info, b.route), if b.Withdraw? then Remove else Add);
    }
  }

  /** Edits of different owners on different routes commute. */
  lemma ActsCommute(info: IstioInfo, s: Istio, o: string, a: Act, p: string, b: Act)
    requires Apart(o, a, p, b)
    ensures Same(Perform(info, Perform(info, s, o, a), p, b), Perform(info, Perform(info, s, p, b), o, a))
  {
    StoresCommute(info, s, o, a, p, b);
    GatewayCommutes(info, s, o, a, p, b);
  }

  /** The routes a sync may touch: the one its record names and the one its source asks for, where
      the empty name asks for nothing. */
  function Routes(s: Istio, owner: string, src: Source): set<string> {
    (if owner in s.records then {s.records[owner]} else {}) + (if src.Present? then {src.route} else {}) - {""}
  }

  lemma DecisionUnaffected(info: IstioInfo, s: Istio, o: string, a: Act, p: string, src: Source)
    requires o != p && (a.Nothing? || a.route !in Routes(s, p, src))
    ensures var t := Perform(info, s, o, a);
      var (released, releasedAfter) := (Release(info, s, p, src), Release(info, t, p, src));
      && Routes(t, p, src) == Routes(s, p, src)
      && ReleaseAct(t, p, src) == ReleaseAct(s, p, src)
      && BranchAct(releasedAfter, p, src) == BranchAct(released, p, src)
      && SourceAfter(info, releasedAfter, p, src) == SourceAfter(info, released, p, src)
  {
    var t := Perform(info, s, o, a);
    if src.Present? && src.route != "" {
      ActFrame(info, s, o, a, src.route);
    }
    ActFrame(info, s, o, Nothing, "");
    SameBranch(info, s, t, p, src);
    var r := ReleaseAct(s, p, src);
    SameAfterAct(info, s, t, p, r, src);
    SameBranch(info, Perform(info, s, p, r), Perform(info, t, p, r), p, src);
  }

  /** What a sync of p decides by: its own record, the service of the requested route, and whether
      there is a gateway. */
  ghost predicate SameInputs(s: Istio, t: Istio, p: string, src: Source) {
    && SameAt(s.records, t.records, p)
    && (src.Present? && src.route != "" ==> SameAt(s.services, t.services, src.route))
    && (s.gateway.Some? <==> t.gateway.Some?)
  }

  lemma SameBranch(info: IstioInfo, s: Istio, t: Istio, p: string, src: Source)
    requires SameInputs(s, t, p, src)
    ensures Routes(t, p, src) == Routes(s, p, src)
    ensures ReleaseAct(t, p, src) == ReleaseAct(s, p, src)
    ensures BranchAct(t, p, src) == BranchAct(s, p, src)
    ensures SourceAfter(info, t, p, src) == SourceAfter(info, s, p, src)
  {
  }

  lemma SameAfterAct(info: IstioInfo, s: Istio, t: Istio, p: string, act: Act, src: Source)
    requires SameInputs(s, t, p, src)
    ensures SameInputs(Perform(info, s, p, act), Perform(info, t, p, act), p, src)
  {
  }

  /** An edit of another owner's route may be done before or after a sync. */
  lemma ActPassesSync(info: IstioInfo, s: Istio, o: string, a: Act, p: string, src: Source)
    requires o != p && (a.Nothing? || a.route !in Routes(s, p, src))
    ensures Same(Reconcile(info, Perform(info, s, o, a), p, src).istio,
                 Perform(info, Reconcile(info, s, p, src).istio, o, a))
    ensures Reconcile(info, Perform(info, s, o, a), p, src).source == Reconcile(info, s, p, src).source
  {
    var t := Perform(info, s, o, a);
    var r := ReleaseAct(s, p, src);
    var released := Release(info, s, p, src);
    var b := BranchAct(released, p, src);
    DecisionUnaffected(info, s, o, a, p, src);
    ActsCommute(info, s, o, a, p, r);
    ActCongruent(info, Perform(info, t, p, r), Perform(info, released, o, a), p, b);
    ActsCommute(info, released, o, a, p, b);
    SameTransitive(Reconcile(info, t, p, src).istio, Perform(info, Perform(info, released, o, a), p, b),
                   Perform(info, Reconcile(info, s, p, src).istio, o, a));
  }

  /** Two syncs of distinct keys with disjoint old and new routes commute: same stores, same
      statuses and caches, same gateway up to the order of hosts. */
  lemma SyncsCommute(info: IstioInfo, s: Istio, o: string, osrc: Source, p: string, psrc: Source)
    requires o != p && Routes(s, o, osrc) !! Routes(s, p, psrc)
    ensures var ofirst, pfirst := Reconcile(info, s, o, osrc), Reconcile(info, s, p, psrc);
      var osecond, psecond := Reconcile(info, pfirst.istio, o, osrc), Reconcile(info, ofirst.istio, p, psrc);
      Same(psecond.istio, osecond.istio) && psecond.source == pfirst.source && osecond.source == ofirst.source
  {
    var r := ReleaseAct(s, o, osrc);
    var released := Release(info, s, o, osrc);
    var b := BranchAct(released, o, osrc);
    var after := Reconcile(info, s, p, psrc).istio;
    DecisionUnaffected(info, s, o, r, p, psrc);
    ActPassesSync(info, s, o, r, p, psrc);
    ActPassesSync(info, released, o, b, p, psrc);
    ActCongruent(info, Reconcile(info, released, p, psrc).istio, Perform(info, after, o, r), o, b);
    SameTransitive(Reconcile(info, Perform(info, released, o, b), p, psrc).istio,
                   Perform(info, Reconcile(info, released, p, psrc).istio, o, b),
                   Perform(info, Perform(info, after, o, r), o, b));
    SyncUnaffected(info, s, p, psrc, o, osrc);
  }

  /** A sync of p leaves the decisions of o as they were. */
  lemma SyncUnaffected(info: IstioInfo, s: Istio, p: string, psrc: Source, o: string, osrc: Source)
    requires o != p && Routes(s, o, osrc) !! Routes(s, p, psrc)
    ensures var after := Reconcile(info, s, p, psrc).istio;
      && ReleaseAct(after, o, osrc) == ReleaseAct(s, o, osrc)
      && BranchAct(Release(info, after, o, osrc), o, osrc) == BranchAct(Release(info, s, o, osrc), o, osrc)
      && Reconcile(info, after, o, osrc).source == Reconcile(info, s, o, osrc).source
  {
    var released := Release(info, s, p, psrc);
    DecisionUnaffected(info, s, p, ReleaseAct(s, p, psrc), o, osrc);
    DecisionUnaffected(info, released, p, BranchAct(released, p, psrc), o, osrc);
  }

  // -------------------------------------------------------------------------- round trip

  /** No store and no managed server knows the route. */
  ghost predicate Free(info: IstioInfo, s: Istio, route: string) {
    && route !in s.endpoints && route !in s.services
    && route !in s.virtualServices && route !in s.destinationRules
    && (s.gateway.Some? ==>
         forall i :: 0 <= i < |s.gateway.value| && Managed(info, s.gateway.value[i]) ==>
           HostOf(info, route) !in s.gateway.value[i].hosts)
  }

  lemma ServersRoundTrip(info: IstioInfo, servers: seq<Server>, host: string)
    ensures EditServers(info, EditServers(info, servers, host, Add), host, Remove) == servers
       <==> forall i :: 0 <= i < |servers| && Managed(info, servers[i]) ==> host !in servers[i].hosts
  {
  }

  /** Creating a route and then syncing with the source gone restores the stores exactly, host
      order included, if and only if nothing but the missing service spoke for the route before. */
  lemma CreateThenRemove(info: IstioInfo, s: Istio, owner: string, src: Source)
    requires owner !in s.records && Eligible(src) && src.route !in s.services
    ensures var made := Reconcile(info, s, owner, src).istio;
      Reconcile(info, made, owner, Absent).istio == s <==> Free(info, s, src.route)
  {
    var made := Reconcile(info, s, owner, src).istio;
    var back := Reconcile(info, made, owner, Absent).istio;
    assert made == Perform(info, s, owner, Install(src.route, src.backend.value));
    assert back == Perform(info, made, owner, Withdraw(src.route));
    assert back.records == s.records;
    assert back.endpoints == Deleted(s.endpoints, src.route);
    assert back.services == s.services;
    assert back.virtualServices == Deleted(s.virtualServices, src.route);
    assert back.destinationRules == Deleted(s.destinationRules, src.route);
    if s.gateway.Some? {
      ServersRoundTrip(info, s.gateway.value, HostOf(info, src.route));
    }
  }

  /** Both exceptions occur where leases are sound: endpoints that someone left under a free route
      name make a second sync differ from the first, and are lost in the round trip. */
  lemma LeftoverEndpoints(info: IstioInfo, owner: string, src: Source, left: seq<Subset>)
    requires Eligible(src) && left != src.backend.value.subsets
    ensures var s := Istio(map[], map[src.route := left], map[], map[], map[], None);
      var once := Reconcile(info, s, owner, src);
      && LeaseInv(s)
      && Reconcile(info, once.istio, owner, once.source) != once
      && src.route !in Reconcile(info, once.istio, owner, Absent).istio.endpoints
  {
    var s := Istio(map[], map[src.route := left], map[], map[], map[], None);
    assert CreatesOverEndpoints(info, s, owner, src);
    SyncIdempotent(info, s, owner, src);
  }

  ghost predicate Avoids(turns: seq<Turn>, owner: string, route: string) {
    forall e :: e in turns ==> e.owner != owner && (e.source.Present? ==> e.source.route != route)
  }

  lemma {:induction false} RunCongruent(info: IstioInfo, s: Istio, t: Istio, turns: seq<Turn>)
    requires Same(s, t)
    ensures Same(Run(info, s, turns), Run(info, t, turns))
    decreases |turns|
  {
    if turns != [] {
      var e := turns[0];
      ReconcileCongruent(info, s, t, e.owner, e.source);
      RunCongruent(info, Reconcile(info, s, e.owner, e.source).istio,
                   Reconcile(info, t, e.owner, e.source).istio, turns[1..]);
    }
  }

  /** The removal of a lease may be moved from the end of a run to its beginning. */
  lemma {:induction false} RemovalPassesRun(info: IstioInfo, s: Istio, owner: string, turns: seq<Turn>)
    requires LeaseInv(s) && owner in s.records && Avoids(turns, owner, s.records[owner])
    ensures Same(Reconcile(info, Run(info, s, turns), owner, Absent).istio,
                 Run(info, Reconcile(info, s, owner, Absent).istio, turns))
    decreases |turns|
  {
    if turns != [] {
      var e := turns[0];
      assert e in turns;
      var next := Reconcile(info, s, e.owner, e.source).istio;
      var gone := Reconcile(info, s, owner, Absent).istio;
      ReconcileKeepsLeases(info, s, e.owner, e.source);
      OthersUntouched(info, s, e.owner, e.source, owner);
      RemovalPassesRun(info, next, owner, turns[1..]);
      SyncsCommute(info, s, owner, Absent, e.owner, e.source);
      RunCongruent(info, Reconcile(info, gone, e.owner, e.source).istio,
                      Reconcile(info, next, owner, Absent).istio, turns[1..]);
      SameTransitive(Reconcile(info, Run(info, s, turns), owner, Absent).istio,
                     Run(info, Reconcile(info, next, owner, Absent).istio, turns[1..]),
                     Run(info, gone, turns));
    }
  }

  /** A lease taken and given up around a run of other keys leaves what the run alone would have
      left, up to the order of hosts. */
  lemma RoundTripAroundRun(info: IstioInfo, s: Istio, owner: string, src: Source, turns: seq<Turn>)
    requires LeaseInv(s) && owner !in s.records
    requires Eligible(src) && Free(info, s, src.route) && Avoids(turns, owner, src.route)
    ensures var made := Reconcile(info, s, owner, src).istio;
      Same(Reconcile(info, Run(info, made, turns), owner, Absent).istio, Run(info, s, turns))
  {
    var made := Reconcile(info, s, owner, src).istio;
    ReconcileKeepsLeases(info, s, owner, src);
    RemovalPassesRun(info, made, owner, turns);
    CreateThenRemove(info, s, owner, src);
  }
}
