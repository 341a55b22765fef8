/** What one sync, and any run of syncs, means for the lease table: which owner holds which route. */
module LeaseTable {
  import opened Wrappers
  import opened Names
  import opened Model
  import opened Hosts
  import opened Reconciler
  import opened Leases

  // ---------------------------------------------------------------------- abstraction

  ghost function HolderOf(s: Istio, route: string): (owner: string)
    requires route in HeldRoutes(s)
    ensures owner in s.records && s.records[owner] == route
  {
    var o :| o in s.records && s.records[o] == route;
    o
  }

  /** The stores as a partial map from route to the record that holds it. */
  ghost function Table(s: Istio): map<string, string> {
    map r | r in HeldRoutes(s) :: HolderOf(s, r)
  }

  lemma TableIsInverse(s: Istio, owner: string, route: string)
    requires LeaseInv(s)
    ensures route in Table(s) && Table(s)[route] == owner <==> owner in s.records && s.records[owner] == route
  {
  }

  datatype Move = Stutter | Released(dropped: string) | Acquired(route: string) | Moved(dropped: string, route: string)

  /** The four steps of a lease table, each with its guard. */
  ghost predicate TableStep(t: map<string, string>, owner: string, move: Move, u: map<string, string>) {
    match move
    case Stutter => u == t
    case Released(dropped) => dropped in t && t[dropped] == owner && u == t - {dropped}
    case Acquired(route) => route !in t && owner !in t.Values && u == t[route := owner]
    case Moved(dropped, route) =>
      && dropped in t && t[dropped] == owner && route !in t
      && u == (t - {dropped})[route := owner]
  }

  /** The decision, read off the table and the foreign services alone. */
  ghost function MoveOf(t: map<string, string>, foreign: set<string>, owner: string, src: Source): Move {
    var held := set r | r in t && t[r] == owner;
    var gained := Eligible(src) && src.route !in t && src.route !in foreign;
    if src.Unreadable? || (src.Present? && src.route in held) then Stutter
    else if held == {} then (if gained then Acquired(src.route) else Stutter)
    else
      var dropped :| dropped in held;
      if gained then Moved(dropped, src.route) else Released(dropped)
  }

  // ---------------------------------------------------------------------- the decision

  /** The empty string is a sound "none": the delete block runs exactly when a record exists whose
      source is gone or names another route, and the update branch only sees its own route. */
  lemma SentinelIsSound(info: IstioInfo, s: Istio, owner: string, src: Source)
    requires LeaseInv(s)
    ensures RouteToDelete(s, owner, src) != "" <==> Stale(s, owner, src)
    ensures var released := Release(info, s, owner, src);
      && (owner in released.records ==> owner in s.records && !Stale(s, owner, src) && released == s)
      && (BranchOf(released, owner, src) == Update ==> s.records[owner] == src.route)
  {
  }

  /** Which branch is taken, in terms of who holds the route and whether it is foreign. */
  lemma BranchByHolder(info: IstioInfo, s: Istio, owner: string, src: Source)
    requires LeaseInv(s) && Eligible(src)
    ensures var branch := BranchOf(Release(info, s, owner, src), owner, src);
      && (branch == Update <==> owner in s.records && s.records[owner] == src.route)
      && (branch == Conflict <==> src.route in ForeignServices(s)
                                  || exists o :: o in s.records && o != owner && s.records[o] == src.route)
      && (branch == Create <==> src.route !in ForeignServices(s) && src.route !in HeldRoutes(s))
  {
  }

  /** A key that asks for a foreign route ends in conflict, without a record. */
  lemma ForeignRouteConflicts(info: IstioInfo, s: Istio, owner: string, src: Source)
    requires LeaseInv(s) && Eligible(src) && src.route in ForeignServices(s)
    ensures var out := Reconcile(info, s, owner, src);
      && owner !in out.istio.records
      && out.source == src.(status := TakenMessage(src.route))
  {
  }

  // ------------------------------------------------------------------------- refinement

  lemma TableAfterWithdraw(info: IstioInfo, s: Istio, owner: string)
    requires LeaseInv(s) && owner in s.records
    ensures var t := Perform(info, s, owner, Withdraw(s.records[owner]));
      Table(t) == Table(s) - {s.records[owner]}
  {
    var t := Perform(info, s, owner, Withdraw(s.records[owner]));
    WithdrawKeepsLeases(info, s, owner);
    forall r | r in Table(t) ensures r in Table(s) && Table(t)[r] == Table(s)[r] {
      TableIsInverse(s, HolderOf(t, r), r);
    }
  }

  lemma TableAfterInstall(info: IstioInfo, s: Istio, owner: string, route: string, backend: Backend)
    requires LeaseInv(s) && Legal(s, owner, Install(route, backend))
    ensures var t := Perform(info, s, owner, Install(route, backend));
      Table(t) == Table(s)[route := owner] && route !in Table(s)
  {
    InstallKeepsLeases(info, s, owner, route, backend);
    TableGains(s, Perform(info, s, owner, Install(route, backend)), owner, route);
  }

  lemma TableGains(s: Istio, t: Istio, owner: string, route: string)
    requires LeaseInv(t) && t.records == s.records[owner := route]
    requires owner !in s.records && route !in HeldRoutes(s) && HeldRoutes(t) == HeldRoutes(s) + {route}
    ensures Table(t) == Table(s)[route := owner]
  {
    TableIsInverse(t, owner, route);
    forall r | r in Table(s) ensures r in Table(t) && Table(t)[r] == Table(s)[r] {
      TableIsInverse(t, HolderOf(s, r), r);
    }
  }

  lemma TableAfterRelease(info: IstioInfo, s: Istio, owner: string, src: Source)
    requires LeaseInv(s)
    ensures Table(Release(info, s, owner, src))
         == if Stale(s, owner, src) then Table(s) - {s.records[owner]} else Table(s)
  {
    SentinelIsSound(info, s, owner, src);
    if Stale(s, owner, src) {
      TableAfterWithdraw(info, s, owner);
    }
  }

  lemma TableAfterBranch(info: IstioInfo, s: Istio, owner: string, src: Source)
    requires LeaseInv(s)
    ensures var t := Perform(info, s, owner, BranchAct(s, owner, src));
      Table(t) == if BranchOf(s, owner, src) == Create then Table(s)[src.route := owner] else Table(s)
    ensures BranchOf(s, owner, src) == Create ==> src.route !in Table(s) && owner !in Table(s).Values
  {
    if BranchOf(s, owner, src) == Create {
      TableAfterInstall(info, s, owner, src.route, src.backend.value);
      NotAValue(s, owner);
    }
  }

  /** Every sync is exactly one step of the lease table: it stutters, releases the owner's route,
      acquires a free route, or does both; the table and the foreign services decide which. */
  lemma SyncRefinesTable(info: IstioInfo, s: Istio, owner: string, src: Source)
    requires LeaseInv(s)
    ensures var move := MoveOf(Table(s), ForeignServices(s).Keys, owner, src);
      TableStep(Table(s), owner, move, Table(Reconcile(info, s, owner, src).istio))
  {
    var released := Release(info, s, owner, src);
    SentinelIsSound(info, s, owner, src);
    ReconcileKeepsLeases(info, s, owner, src);
    HeldByOwner(s, owner);
    TableAfterRelease(info, s, owner, src);
    TableAfterBranch(info, released, owner, src);
    if Eligible(src) {
      BranchByHolder(info, s, owner, src);
    }
  }

  lemma HeldByOwner(s: Istio, owner: string)
    requires LeaseInv(s)
    ensures (set r | r in Table(s) && Table(s)[r] == owner)
         == if owner in s.records then {s.records[owner]} else {}
  {
  }

  lemma NotAValue(s: Istio, owner: string)
    requires owner !in s.records
    ensures owner !in Table(s).Values
  {
  }

  // -------------------------------------------------------------------- non-interference

  /** The four objects of a route are the same in both states, contents included. */
  ghost predicate SameObjects(s: Istio, t: Istio, route: string) {
    && SameAt(s.endpoints, t.endpoints, route)
    && SameAt(s.services, t.services, route)
    && SameAt(s.virtualServices, t.virtualServices, route)
    && SameAt(s.destinationRules, t.destinationRules, route)
  }

  ghost predicate SameAt<V>(m: map<string, V>, n: map<string, V>, key: string) {
    (key in m <==> key in n) && (key in m ==> m[key] == n[key])
  }

  function Occurrences(s: Istio, server: nat, host: string): nat {
    if s.gateway.Some? && server < |s.gateway.value| then multiset(s.gateway.value[server].hosts)[host] else 0
  }

  /** An edit touches one record, the objects of one route, and one host. */
  lemma ActFrame(info: IstioInfo, s: Istio, owner: string, act: Act, route: string)
    requires act.Nothing? || act.route != route
    ensures SameObjects(s, Perform(info, s, owner, act), route)
    ensures forall o :: o != owner ==> SameAt(s.records, Perform(info, s, owner, act).records, o)
  {
  }

  lemma HostsElsewhere(hosts: seq<string>, edited: string, host: string)
    requires host != edited
    ensures multiset(SwapRemove(hosts, edited))[host] == multiset(hosts)[host]
    ensures multiset(AppendIfAbsent(hosts, edited))[host] == multiset(hosts)[host]
  {
    SwapRemoveTakesOne(hosts, edited);
    AppendIfAbsentAddsOne(hosts, edited);
  }

  lemma ActHosts(info: IstioInfo, s: Istio, owner: string, act: Act, server: nat, host: string)
    requires act.Nothing? || host != HostOf(info, act.route)
    ensures Occurrences(Perform(info, s, owner, act), server, host) == Occurrences(s, server, host)
  {
    if (act.Withdraw? || act.Install?) && s.gateway.Some? && server < |s.gateway.value| {
      HostsElsewhere(s.gateway.value[server].hosts, HostOf(info, act.route), host);
    }
  }

  /** A sync of one key leaves every other record, and the objects of the route it names, alone. */
  lemma OthersUntouched(info: IstioInfo, s: Istio, owner: string, src: Source, other: string)
    requires LeaseInv(s) && other != owner
    ensures var t := Reconcile(info, s, owner, src).istio;
      && SameAt(s.records, t.records, other)
      && (other in s.records ==> SameObjects(s, t, s.records[other]) && HasObjects(t, s.records[other]))
  {
    var released := Release(info, s, owner, src);
    SyncActsAreLegal(info, s, owner, src);
    ReconcileKeepsLeases(info, s, owner, src);
    var route := if other in s.records then s.records[other] else "";
    if other in s.records {
      ActFrame(info, s, owner, ReleaseAct(s, owner, src), route);
      assert other in released.records && released.records[other] == route;
      assert HasObjects(released, route);
      ActFrame(info, released, owner, BranchAct(released, owner, src), route);
    }
  }

  /** Hosts other than those of the released and the requested route keep their multiplicity in
      every server. */
  lemma OtherHostsUntouched(info: IstioInfo, s: Istio, owner: string, src: Source, server: nat, host: string)
    requires owner in s.records ==> host != HostOf(info, s.records[owner])
    requires src.Present? ==> host != HostOf(info, src.route)
    ensures Occurrences(Reconcile(info, s, owner, src).istio, server, host) == Occurrences(s, server, host)
  {
    var released := Release(info, s, owner, src);
    ActHosts(info, s, owner, ReleaseAct(s, owner, src), server, host);
    ActHosts(info, released, owner, BranchAct(released, owner, src), server, host);
  }

  /** The same servers under the same port names; those under unmanaged names are the same altogether. */
  ghost predicate ServersKept(info: IstioInfo, s: Istio, t: Istio) {
    && (t.gateway.Some? <==> s.gateway.Some?)
    && (s.gateway.Some? ==>
         && |t.gateway.value| == |s.gateway.value|
         && forall i :: 0 <= i < |s.gateway.value| ==>
              && t.gateway.value[i].portName == s.gateway.value[i].portName
              && (!Managed(info, s.gateway.value[i]) ==> t.gateway.value[i] == s.gateway.value[i]))
  }

  lemma ActKeepsServers(info: IstioInfo, s: Istio, owner: string, act: Act)
    ensures ServersKept(info, s, Perform(info, s, owner, act))
  {
  }

  /** In every run, the number of servers and their port names never change, and servers under
      other port names are left alone, whatever the stores hold. */
  lemma {:induction false} RunKeepsServers(info: IstioInfo, s: Istio, turns: seq<Turn>)
    ensures ServersKept(info, s, Run(info, s, turns))
    decreases |turns|
  {
    if turns != [] {
      var (owner, src) := (turns[0].owner, turns[0].source);
      var released := Release(info, s, owner, src);
      var next := Reconcile(info, s, owner, src).istio;
      ActKeepsServers(info, s, owner, ReleaseAct(s, owner, src));
      ActKeepsServers(info, released, owner, BranchAct(released, owner, src));
      assert ServersKept(info, s, next);
      RunKeepsServers(info, next, turns[1..]);
    }
  }

  // ---------------------------------------------------------------------- content agreement

  /** After a sync that updates, the route carries the source's ports without node ports and the
      source's subsets. After one that creates, the ports do always, and the subsets exactly when
      no other endpoints were already there under the route's name. */
  lemma ContentAfterSync(info: IstioInfo, s: Istio, owner: string, src: Source)
    requires LeaseInv(s) && Eligible(src)
    requires BranchOf(Release(info, s, owner, src), owner, src) != Conflict
    ensures var released := Release(info, s, owner, src);
      var t := Reconcile(info, s, owner, src).istio;
      var backend := src.backend.value;
      && owner in t.records && t.records[owner] == src.route && HasObjects(t, src.route)
      && CarriesPorts(t.services[src.route], backend.ports)
      && (t.endpoints[src.route] == backend.subsets <==>
          BranchOf(released, owner, src) == Update
          || src.route !in released.endpoints
          || released.endpoints[src.route] == backend.subsets)
  {
  }

  /** One published name: after a create on free names, the host in the status, the host of the
      virtual service, and the host every server named for http or https now shows are the same, the
      route, a dot and the suffix. The virtual service sends to the host of the destination rule,
      the service in the Istio namespace, on the source's first port cast to 32 bits. */
  lemma PublishedNameAgrees(info: IstioInfo, s: Istio, owner: string, src: Source)
    requires LeaseInv(s) && Eligible(src) && BranchOf(Release(info, s, owner, src), owner, src) == Create
    requires src.route !in s.virtualServices && src.route !in s.destinationRules
    ensures var out := Reconcile(info, s, owner, src);
      && src.route in out.istio.virtualServices && src.route in out.istio.destinationRules
      && var virtualService := out.istio.virtualServices[src.route];
      var port := src.backend.value.ports[0].port;
      && virtualService.gateways == [info.gateway, "mesh"]
      && virtualService.destination == out.istio.destinationRules[src.route].host
      && virtualService.destination == src.route + "." + info.namespace + ".svc.cluster.local"
      && 0 <= virtualService.port < 0x1_0000_0000 && (virtualService.port - port) % 0x1_0000_0000 == 0
      && out.istio.services[src.route][0].port == port
    ensures var out := Reconcile(info, s, owner, src);
      && |out.istio.virtualServices[src.route].hosts| == 1
      && var host := out.istio.virtualServices[src.route].hosts[0];
      && |host| == |src.route| + 1 + |info.suffix|
      && host[..|src.route|] == src.route && host[|src.route|] == '.' && host[|src.route| + 1..] == info.suffix
      && (s.gateway.Some? ==>
           && out.source.status == host
           && forall i :: 0 <= i < |out.istio.gateway.value| ==>
                var server := out.istio.gateway.value[i];
                server.portName == info.http || server.portName == info.https ==> host in server.hosts)
  {
    FqdnInjective(src.route, src.route, info.suffix);
    var released := Release(info, s, owner, src);
    if s.gateway.Some? {
      EditsByPortName(info, released.gateway.value, HostOf(info, src.route));
    }
  }

  // ----------------------------------------------------------------- gateway by port name

  /** A removal takes the host off the servers named for http and https, once, and off no other. */
  lemma ServersAfterRemoval(info: IstioInfo, s: Istio, owner: string)
    requires owner in s.records && s.records[owner] != "" && s.gateway.Some?
    ensures var t := Reconcile(info, s, owner, Absent).istio;
      t.gateway.Some?
      && OffNamedServers(info, s.gateway.value, t.gateway.value, s.records[owner] + "." + info.suffix)
  {
    EditsByPortName(info, s.gateway.value, HostOf(info, s.records[owner]));
  }

  /** A create appends the host to those servers where it is missing, and to no other. */
  lemma ServersAfterCreate(info: IstioInfo, s: Istio, owner: string, src: Source)
    requires owner !in s.records && src.Present? && src.route != "" && src.backend.Some?
    requires src.route !in s.services && s.gateway.Some?
    ensures var t := Reconcile(info, s, owner, src).istio;
      t.gateway.Some? && OnNamedServers(info, s.gateway.value, t.gateway.value, src.route + "." + info.suffix)
  {
    EditsByPortName(info, s.gateway.value, HostOf(info, src.route));
  }

  /** What the servers named for http and https show over a run: their hosts at the start and one
      host per record, each exactly once more. Every other server stays as it was. */
  ghost predicate ShowsRecords(info: IstioInfo, before: seq<Server>, after: seq<Server>, records: map<string, string>) {
    && |after| == |before|
    && forall i :: 0 <= i < |before| ==>
         if before[i].portName == info.http || before[i].portName == info.https
         then after[i].portName == before[i].portName
              && multiset(after[i].hosts) == multiset(before[i].hosts)
                 + multiset(set o | o in records :: records[o] + "." + info.suffix)
         else after[i] == before[i]
  }

  // ------------------------------------------------------------------------------- runs

  ghost predicate TurnsUnclaimed(info: IstioInfo, base: Option<seq<Server>>, turns: seq<Turn>) {
    forall e :: e in turns ==> RequestsUnclaimed(info, base, e.source)
  }

  /** What every state reachable by any run keeps: unique complete leases of non-empty routes, and
      the foreign services with their contents. */
  lemma {:induction false} RunKeepsLeases(info: IstioInfo, s: Istio, turns: seq<Turn>)
    requires LeaseInv(s)
    ensures LeaseInv(Run(info, s, turns))
    ensures ForeignServices(Run(info, s, turns)) == ForeignServices(s)
    decreases |turns|
  {
    if turns != [] {
      var e := turns[0];
      ReconcileKeepsLeases(info, s, e.owner, e.source);
      ReconcileConservesForeignServices(info, s, e.owner, e.source);
      RunKeepsLeases(info, Reconcile(info, s, e.owner, e.source).istio, turns[1..]);
    }
  }

  /** When no managed base host is the host of a requested route, every reachable gateway shows in
      each managed server the base hosts plus one host per held route, and nothing else changes. */
  lemma {:induction false} RunKeepsGateway(info: IstioInfo, base: Option<seq<Server>>, s: Istio, turns: seq<Turn>)
    requires LeaseInv(s) && GatewayAgrees(info, base, s) && TurnsUnclaimed(info, base, turns)
    ensures GatewayAgrees(info, base, Run(info, s, turns))
    decreases |turns|
  {
    if turns != [] {
      var e := turns[0];
      assert e in turns;
      ReconcileKeepsLeases(info, s, e.owner, e.source);
      ReconcileKeepsGateway(info, base, s, e.owner, e.source);
      RunKeepsGateway(info, base, Reconcile(info, s, e.owner, e.source).istio, turns[1..]);
    }
  }

  /** A held route is lost, or its objects rewritten, only through its own owner's sync. */
  lemma {:induction false} HeldUntilOwnSync(info: IstioInfo, s: Istio, turns: seq<Turn>, owner: string)
    requires LeaseInv(s) && owner in s.records
    requires forall e :: e in turns ==> e.owner != owner
    ensures var t := Run(info, s, turns);
      && owner in t.records && t.records[owner] == s.records[owner]
      && SameObjects(s, t, t.records[owner]) && HasObjects(t, t.records[owner])
    decreases |turns|
  {
    if turns != [] {
      var e := turns[0];
      assert e in turns;
      ReconcileKeepsLeases(info, s, e.owner, e.source);
      OthersUntouched(info, s, e.owner, e.source, owner);
      HeldUntilOwnSync(info, Reconcile(info, s, e.owner, e.source).istio, turns[1..], owner);
    }
  }

  /** The three invariants together, from a cluster that holds no record yet. */
  lemma ReachableFromNoRecords(info: IstioInfo, s: Istio, turns: seq<Turn>)
    requires s.records == map[] && TurnsUnclaimed(info, s.gateway, turns)
    ensures var t := Run(info, s, turns);
      LeaseInv(t) && GatewayAgrees(info, s.gateway, t) && ForeignServices(t) == s.services
  {
    assert HeldHosts(info, s) == {};
    assert ForeignServices(s) == s.services;
    RunKeepsLeases(info, s, turns);
    RunKeepsGateway(info, s.gateway, s, turns);
  }

  lemma HostsOfRecords(info: IstioInfo, s: Istio)
    ensures HeldHosts(info, s) == set o | o in s.records :: s.records[o] + "." + info.suffix
  {
    forall r | r in HeldRoutes(s)
      ensures HostOf(info, r) in set o | o in s.records :: s.records[o] + "." + info.suffix
    {
      var o :| o in s.records && s.records[o] == r;
    }
    forall o | o in s.records ensures HostOf(info, s.records[o]) in HeldHosts(info, s) {
      assert s.records[o] in HeldRoutes(s);
    }
  }

  /** From a cluster that holds no record yet, if no host that is asked for stands on a server named
      for http or https at the start, these servers always show exactly the records. */
  lemma ServersShowRecords(info: IstioInfo, s: Istio, turns: seq<Turn>)
    requires s.records == map[] && s.gateway.Some?
    requires forall e, i ::
      e in turns && e.source.Present? && e.source.route != "" && 0 <= i < |s.gateway.value|
      && (s.gateway.value[i].portName == info.http || s.gateway.value[i].portName == info.https) ==>
        e.source.route + "." + info.suffix !in s.gateway.value[i].hosts
    ensures var t := Run(info, s, turns);
      t.gateway.Some? && ShowsRecords(info, s.gateway.value, t.gateway.value, t.records)
  {
    var t := Run(info, s, turns);
    ReachableFromNoRecords(info, s, turns);
    HostsOfRecords(info, t);
    forall i | 0 <= i < |s.gateway.value| ensures ServerAgrees(info, t, s.gateway.value[i], t.gateway.value[i]) {
    }
  }
}
