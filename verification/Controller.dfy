/** The controller itself: the Istio stores it edits call by call, the caches it reads, and
    syncHandler, proved to be exactly one Reconcile of its key. */
module RouteController {
  import opened Wrappers
  import opened Names
  import opened Model
  import opened Hosts
  import opened Reconciler
  import opened Calls
  import opened Effects

  /** The stores of the shared Istio namespace, as the API server keeps them. */
  class IstioCluster {
    var records: map<string, string>
    var endpoints: map<string, seq<Subset>>
    var services: map<string, seq<ServicePort>>
    var virtualServices: map<string, VirtualService>
    var destinationRules: map<string, DestinationRule>
    var gateway: Option<seq<Server>>

    ghost function State(): Istio
      reads this
    {
      Istio(records, endpoints, services, virtualServices, destinationRules, gateway)
    }
  }

  lemma StatusKeepsKeys(index: Indexer<ServiceRoute>, key: string, foo: ServiceRoute, status: string)
    requires WellKeyed(index) && key in index.items && index.items[key] == foo
    ensures WellKeyed(index.(items := index.items[key := foo.(fullRouteName := status)]))
  {
  }

  /** How a sync ends: for good, with its key back on the queue, or in a panic. */
  datatype Ending = Synced | Requeued | Panicked

  class Controller {
    const clusterName: string
    const info: IstioInfo
    const istio: IstioCluster

    // Listers over the application cluster. The cached service ports are slices that a sync
    // may share with the object it sends to the Istio cluster.
    var routes: Indexer<ServiceRoute>
    var endpoints: Indexer<seq<Subset>>
    var services: Indexer<array<ServicePort>>

    ghost predicate Valid()
      reads this, services.items.Values
    {
      var ports := services.items;
      && WellKeyed(routes)
      && (forall k :: k in ports ==> ports[k].Length > 0)
      && (forall k, l :: k in ports && l in ports && k != l ==> ports[k] != ports[l])
    }

    constructor (clusterName: string, info: IstioInfo, istio: IstioCluster)
      ensures Valid() && this.clusterName == clusterName && this.info == info && this.istio == istio
      ensures routes == Indexer(map[], true) && endpoints == Indexer(map[], true) && services == Indexer(map[], true)
    {
      this.clusterName := clusterName;
      this.info := info;
      this.istio := istio;
      routes := Indexer(map[], true);
      endpoints := Indexer(map[], true);
      services := Indexer(map[], true);
    }

    // ------------------------------------------------------------- what the caches show

    ghost function SubsetsAt(namespace: string, name: string): Option<seq<Subset>>
      reads this
    {
      var found := ListerGet(endpoints, namespace, name);
      if found.Found? then Some(found.value) else None
    }

    ghost function PortsAt(namespace: string, name: string): Option<SourcePorts>
      requires Valid()
      reads this, services.items.Values
    {
      var found := ListerGet(services, namespace, name);
      if found.Found? then Some(found.value[..]) else None
    }

    ghost function SourceAt(namespace: string, name: string): Source
      requires Valid()
      reads this, services.items.Values
    {
      Seen(ListerGet(routes, namespace, name), SubsetsAt(namespace, name), PortsAt(namespace, name))
    }

    static ghost function Seen(found: Lookup<ServiceRoute>, subsets: Option<seq<Subset>>, ports: Option<SourcePorts>)
      : Source
    {
      match found
      case Failed => Unreadable
      case NotFound => Absent
      case Found(foo) =>
        Present(foo.routeName, foo.fullRouteName,
                if subsets.Some? && ports.Some? then Some(Backend(subsets.value, ports.value)) else None)
    }

    /** The source asks for a route, and its endpoints or its service cannot be looked up, while
        neither of them is known to be missing. */
    ghost predicate Blind(namespace: string, name: string)
      reads this
    {
      var (found, ep, service) := (ListerGet(routes, namespace, name), ListerGet(endpoints, namespace, name),
                                   ListerGet(services, namespace, name));
      && found.Found? && found.value.routeName != ""
      && !ep.NotFound? && !service.NotFound? && (ep.Failed? || service.Failed?)
    }

    // -------------------------------------------------------------------------- edits

    /** Builds the Istio service from the source's port slice and zeroes every node port of that
        shared slice; what is sent is what the slice then holds. */
    method NewService(ports: array<ServicePort>) returns (sent: seq<ServicePort>)
      modifies ports
      ensures sent == ports[..] == ZeroNodePorts(old(ports[..]))
      ensures CarriesPorts(sent, old(ports[..]))
    {
      for i := 0 to ports.Length
        invariant forall k :: 0 <= k < i ==> ports[k] == old(ports[k]).(nodePort := 0)
        invariant forall k :: i <= k < ports.Length ==> ports[k] == old(ports[k])
      {
        ports[i] := ports[i].(nodePort := 0);
      }
      sent := ports[..];
    }

    /** Deletes the objects of a route, takes its host off the gateway, and drops the record last. */
    method DeleteRoute(istiocaps: string, routeName: string)
      modifies istio
      ensures istio.State() == Perform(info, old(istio.State()), istiocaps, Withdraw(routeName))
    {
      istio.endpoints := Deleted(istio.endpoints, routeName);
      istio.services := Deleted(istio.services, routeName);
      istio.virtualServices := Deleted(istio.virtualServices, routeName);
      istio.destinationRules := Deleted(istio.destinationRules, routeName);
      match istio.gateway {
        case None =>
        case Some(fetched) =>
          var gateway := new Gateway(fetched);
          gateway.RemoveHost(info, Fqdn(routeName, info.suffix));
          istio.gateway := Some(gateway.servers[..]);
      }
      istio.records := Deleted(istio.records, istiocaps);
    }

    /** Writes the record first, then the four objects and the gateway host; the status is
        written only when the gateway was found. */
    method CreateRoute(key: string, foo: ServiceRoute, ep: seq<Subset>, service: array<ServicePort>)
      requires service.Length > 0
      requires key in routes.items && routes.items[key] == foo
      modifies istio, service, this`routes
      ensures istio.State() == Perform(info, old(istio.State()),
                RecordName(clusterName, foo.namespace, foo.name),
                Install(foo.routeName, Backend(ep, old(service[..]))))
      ensures service[..] == ZeroNodePorts(old(service[..]))
      ensures routes == if old(istio.gateway).Some?
                then old(routes).(items := old(routes).items[key := foo.(fullRouteName := HostOf(info, foo.routeName))])
                else old(routes)
    {
      var routeName := foo.routeName;
      istio.records := Created(istio.records, RecordName(clusterName, foo.namespace, foo.name), routeName);
      istio.endpoints := Created(istio.endpoints, routeName, ep);
      var sent := NewService(service);
      istio.services := Created(istio.services, routeName, sent);
      istio.virtualServices :=
        Created(istio.virtualServices, routeName, NewVirtualService(info, routeName, service[..]));
      istio.destinationRules := Created(istio.destinationRules, routeName, NewDestinationRule(info, routeName));
      match istio.gateway {
        case None =>
        case Some(fetched) =>
          var gateway := new Gateway(fetched);
          gateway.AddHost(info, Fqdn(routeName, info.suffix));
          istio.gateway := Some(gateway.servers[..]);
          routes := routes.(items := routes.items[key := foo.(fullRouteName := Fqdn(routeName, info.suffix))]);
      }
    }

    /** Rewrites the service and the endpoints of a route already held; nothing else is refreshed. */
    method UpdateRoute(ghost istiocaps: string, routeName: string, ep: seq<Subset>, service: array<ServicePort>)
      requires service.Length > 0
      modifies istio, service
      ensures istio.State() == Perform(info, old(istio.State()), istiocaps,
                                       Refresh(routeName, Backend(ep, old(service[..]))))
      ensures service[..] == ZeroNodePorts(old(service[..]))
    {
      var sent := NewService(service);
      istio.services := Updated(istio.services, routeName, sent);
      istio.endpoints := Updated(istio.endpoints, routeName, ep);
    }

    /** The source object is turned away, which its status says. */
    method TurnAway(key: string, foo: ServiceRoute)
      requires key in routes.items && routes.items[key] == foo
      modifies this`routes
      ensures routes == old(routes).(items :=
                old(routes).items[key := foo.(fullRouteName := TakenMessage(foo.routeName))])
    {
      routes := routes.(items := routes.items[key := foo.(fullRouteName := TakenMessage(foo.routeName))]);
    }

    /** No cached object but the one under this key has changed. */
    twostate predicate OnlyTouched(key: string)
      reads this, services.items.Values
    {
      && services == old(services) && endpoints == old(endpoints)
      && routes.readable == old(routes.readable)
      && (forall k :: k != key ==> (k in routes.items <==> k in old(routes.items)))
      && (forall k :: k != key && k in routes.items ==> routes.items[k] == old(routes.items[k]))
      && (forall k :: k != key && k in services.items ==> services.items[k][..] == old(services.items[k][..]))
    }

    /** Of the caches, at most the status of this one object has changed, contents of slices aside. */
    twostate predicate OnlyStatus(key: string, foo: ServiceRoute)
      reads this
    {
      && services == old(services) && endpoints == old(endpoints)
      && key in routes.items && routes == old(routes).(items := old(routes).items[key := routes.items[key]])
      && routes.items[key] == foo.(fullRouteName := routes.items[key].fullRouteName)
    }

    /** The part of a sync that follows the release, for a source object that was found. */
    method SyncFound(istiocaps: string, foo: ServiceRoute, key: string) returns (panicked: bool)
      requires Valid() && foo.namespace != "" && key == foo.namespace + "/" + foo.name
      requires ListerGet(routes, foo.namespace, foo.name) == Found(foo)
      requires istiocaps == RecordName(clusterName, foo.namespace, foo.name)
      modifies istio, this`routes, services.items.Values
      ensures Valid() && OnlyTouched(key)
      ensures foo.routeName == "" || (endpoints.readable && key !in endpoints.items)
              || (services.readable && key !in services.items) ==>
        !panicked && istio.State() == old(istio.State()) && routes == old(routes)
      ensures !old(Blind(foo.namespace, foo.name)) ==>
        var src := old(SourceAt(foo.namespace, foo.name));
        && istio.State() == Perform(info, old(istio.State()), istiocaps, BranchAct(old(istio.State()), istiocaps, src))
        && SourceAt(foo.namespace, foo.name) == SourceAfter(info, old(istio.State()), istiocaps, src)
        && !panicked
      ensures old(Blind(foo.namespace, foo.name)) ==>
        var ports := old(PortsAt(foo.namespace, foo.name));
        && BlindlySynced(istiocaps, foo, SubsetsAt(foo.namespace, foo.name), ports, panicked)
        && PortsAt(foo.namespace, foo.name)
           == if ports.Some? && istiocaps in old(istio.records) then Some(ZeroNodePorts(ports.value)) else ports
    {
      if foo.routeName == "" {
        return false;
      }
      ghost var before := routes;
      var ep := ListerGet(endpoints, foo.namespace, foo.name);
      var service := ListerGet(services, foo.namespace, foo.name);
      if ep.NotFound? || service.NotFound? {
        return false;
      }
      if ep.Found? && service.Found? {
        SyncEligible(istiocaps, foo, key, ep.value, service.value);
        StatusKeepsKeys(before, key, foo, routes.items[key].fullRouteName);
        return false;
      }
      panicked := SyncBlind(istiocaps, foo, key, ep, service);
    }

    /** Create, conflict or update, for a source with a route name, endpoints and a service. */
    method SyncEligible(istiocaps: string, foo: ServiceRoute, key: string, ep: seq<Subset>, service: array<ServicePort>)
      requires key in routes.items && routes.items[key] == foo
      requires istiocaps == RecordName(clusterName, foo.namespace, foo.name)
      requires foo.routeName != "" && service.Length > 0
      modifies istio, this`routes, service
      ensures OnlyStatus(key, foo)
      ensures var src := Seen(Found(foo), Some(ep), Some(old(service[..])));
        && istio.State() == Perform(info, old(istio.State()), istiocaps, BranchAct(old(istio.State()), istiocaps, src))
        && service.Length > 0
        && Seen(Found(routes.items[key]), Some(ep), Some(service[..]))
           == SourceAfter(info, old(istio.State()), istiocaps, src)
      ensures istiocaps in old(istio.records) ==>
        && istio.State() == old(istio.State()).(services := istio.services, endpoints := istio.endpoints)
        && (foo.routeName in istio.services ==> CarriesPorts(istio.services[foo.routeName], old(service[..])))
        && (foo.routeName in istio.endpoints ==> istio.endpoints[foo.routeName] == ep)
      ensures istiocaps !in old(istio.records) && foo.routeName in old(istio.services) ==>
        && istio.State() == old(istio.State())
        && routes.items[key].fullRouteName == foo.routeName + " already taken. please change routeName."
    {
      if istiocaps !in istio.records {
        if foo.routeName !in istio.services {
          CreateRoute(key, foo, ep, service);
        } else {
          TurnAway(key, foo);
        }
      } else {
        UpdateRoute(istiocaps, foo.routeName, ep, service);
      }
    }

    /** The stores are left as interrupted, and only a conflict is reported and not a panic. */
    twostate predicate BlindlySynced(istiocaps: string, foo: ServiceRoute, subsets: Option<seq<Subset>>,
                                     ports: Option<SourcePorts>, panicked: bool)
      reads this, istio
    {
      && istio.State() == Interrupted(old(istio.State()), istiocaps, foo.routeName, subsets, ports)
      && (panicked <==> istiocaps in old(istio.records) || foo.routeName !in old(istio.services))
      && ListerGet(routes, foo.namespace, foo.name)
         == Found(if panicked then foo else foo.(fullRouteName := TakenMessage(foo.routeName)))
    }

    /** The same three branches where a lookup has failed, but not with "not found": the first
        object that would be built from a missing one stops the sync. */
    method SyncBlind(istiocaps: string, foo: ServiceRoute, key: string, ep: Lookup<seq<Subset>>,
                     service: Lookup<array<ServicePort>>)
      returns (panicked: bool)
      requires Valid() && foo.namespace != "" && key == foo.namespace + "/" + foo.name
      requires ListerGet(routes, foo.namespace, foo.name) == Found(foo) && Blind(foo.namespace, foo.name)
      requires ep == ListerGet(endpoints, foo.namespace, foo.name)
      requires service == ListerGet(services, foo.namespace, foo.name)
      modifies istio, this`routes, if service.Found? then {service.value} else {}
      ensures Valid() && OnlyTouched(key)
      ensures var ports := old(PortsAt(foo.namespace, foo.name));
        && BlindlySynced(istiocaps, foo, SubsetsAt(foo.namespace, foo.name), ports, panicked)
        && PortsAt(foo.namespace, foo.name)
           == if ports.Some? && istiocaps in old(istio.records) then Some(ZeroNodePorts(ports.value)) else ports
      ensures istiocaps !in old(istio.records) && foo.routeName in old(istio.services) ==>
        && !panicked && istio.State() == old(istio.State()) && key in routes.items
        && routes.items[key].fullRouteName == foo.routeName + " already taken. please change routeName."
      ensures istiocaps in old(istio.records) ==>
        && panicked && istio.State() == old(istio.State()).(services := istio.services)
        && (service.Failed? ==> istio.services == old(istio.services))
        && (service.Found? && foo.routeName in istio.services ==>
             CarriesPorts(istio.services[foo.routeName], old(service.value[..])))
    {
      ghost var before := routes;
      panicked := true;
      if istiocaps !in istio.records {
        if foo.routeName !in istio.services {
          istio.records := Created(istio.records, istiocaps, foo.routeName);
          if ep.Found? {
            istio.endpoints := Created(istio.endpoints, foo.routeName, ep.value);
          }
        } else {
          TurnAway(key, foo);
          panicked := false;
        }
      } else if service.Found? {
        var sent := NewService(service.value);
        istio.services := Updated(istio.services, foo.routeName, sent);
      }
      StatusKeepsKeys(before, key, foo, routes.items[key].fullRouteName);
    }

    /** The part of a sync that gives up a route its source no longer asks for. */
    method ReleaseStale(istiocaps: string, found: Lookup<ServiceRoute>, ghost subsets: Option<seq<Subset>>,
                        ghost ports: Option<SourcePorts>)
      modifies istio
      ensures istio.State() == Release(info, old(istio.State()), istiocaps, Seen(found, subsets, ports))
    {
      var routeToDelete := "";
      if !found.Found? {
        if found.NotFound? && istiocaps in istio.records {
          routeToDelete := istio.records[istiocaps];
        }
      } else {
        if istiocaps in istio.records && found.value.routeName != istio.records[istiocaps] {
          routeToDelete := istio.records[istiocaps];
        }
      }
      if routeToDelete != "" {
        DeleteRoute(istiocaps, routeToDelete);
      }
    }

    // ------------------------------------------- the same, read off caches and stores

    /** The route cache answers and does not know the object: its lease is given up. */
    twostate predicate GoneIsReleased(at: string, owner: string, ending: Ending)
      reads this, istio
    {
      old(routes).readable && at !in old(routes).items
      && owner in old(istio.records) && old(istio.records)[owner] != "" ==>
        var route := old(istio.records)[owner];
        && ending == Synced && owner !in istio.records
        && route !in istio.endpoints && route !in istio.services
        && route !in istio.virtualServices && route !in istio.destinationRules
    }

    /** The route cache does not answer: nothing is touched, and the key comes back. */
    twostate predicate UnreadIsRequeued(ending: Ending)
      reads this, istio
    {
      !old(routes).readable ==> ending == Requeued && istio.State() == old(istio.State())
    }

    /** The object asks for a route, and endpoints and service of its own name are cached. */
    predicate Backed(at: string)
      reads this
    {
      && routes.readable && at in routes.items && routes.items[at].routeName != ""
      && endpoints.readable && at in endpoints.items && services.readable && at in services.items
    }

    /** A free service name: the record names the route, and service, endpoints and status follow. */
    twostate predicate FreeIsServed(at: string, owner: string, ending: Ending)
      reads this, istio, services.items.Values
    {
      old(Backed(at)) ==>
        var route := old(routes).items[at].routeName;
        var records := old(istio.records);
        route !in old(istio.services) && (owner in records ==> records[owner] != "" && records[owner] != route) ==>
          && ending == Synced && services == old(services) && at in routes.items
          && Served(old(istio.State()), istio.State(), owner, route,
                    old(endpoints).items[at], old(services.items[at][..]))
          && (old(istio.gateway).Some? ==> routes.items[at].fullRouteName == route + "." + info.suffix)
    }

    /** A free service name, but a cache of endpoints or services that does not answer: a panic after
        the record, or after record and endpoints. */
    twostate predicate BlindPanics(at: string, owner: string, ending: Ending)
      reads this, istio
    {
      var (ep, service) := (old(endpoints), old(services));
      old(routes).readable && at in old(routes).items && owner !in old(istio.records)
      && !(ep.readable && service.readable)
      && (ep.readable ==> at in ep.items) && (service.readable ==> at in service.items) ==>
        var route := old(routes).items[at].routeName;
        route != "" && route !in old(istio.services) ==>
          && ending == Panicked
          && istio.State() == old(istio.State()).(records := istio.records, endpoints := istio.endpoints)
          && istio.records == old(istio.records)[owner := route]
          && istio.endpoints == if ep.readable && route !in old(istio.endpoints)
                                then old(istio.endpoints)[route := ep.items[at]] else old(istio.endpoints)
    }

    /** One Reconcile of the key's record name on what the caches show; with a lookup of endpoints or
        service failed, its release, and then the branch up to the panic. */
    twostate predicate IsReconciled(namespace: string, name: string, ending: Ending)
      requires old(Valid()) && Valid()
      reads this, istio, services.items.Values
    {
      var src := old(SourceAt(namespace, name));
      var owner := RecordName(clusterName, namespace, name);
      if !old(Blind(namespace, name)) then
        var out := Reconcile(info, old(istio.State()), owner, src);
        && istio.State() == out.istio && SourceAt(namespace, name) == out.source
        && ending == if src.Unreadable? then Requeued else Synced
      else
        var released := Release(info, old(istio.State()), owner, src);
        var taken := owner !in released.records && src.route in released.services;
        && istio.State() == Interrupted(released, owner, src.route, SubsetsAt(namespace, name),
                                        old(PortsAt(namespace, name)))
        && SourceAt(namespace, name) == (if taken then src.(status := TakenMessage(src.route)) else src)
        && ending == if taken then Synced else Panicked
    }

    /** Reconciles the object of this namespace and name, unless a failed lookup makes it panic. */
    method SyncObject(namespace: string, name: string, key: string) returns (ending: Ending)
      requires Valid() && SplitKey(key) == Some((namespace, name))
      modifies istio, this`routes, services.items.Values
      ensures Valid() && OnlyTouched(key)
      ensures IsReconciled(namespace, name, ending)
    {
      SplitPartsAreSlashFree(key);
      var istiocaps := RecordName(clusterName, namespace, name);
      var found := ListerGet(routes, namespace, name);
      ghost var (s, src) := (istio.State(), SourceAt(namespace, name));
      ReleaseStale(istiocaps, found, SubsetsAt(namespace, name), PortsAt(namespace, name));
      assert istio.State() == Release(info, s, istiocaps, src);
      if !found.Found? {
        assert Reconcile(info, s, istiocaps, src) == Outcome(istio.State(), src);
        return if found.Failed? then Requeued else Synced;
      }
      ListerFindsAskedObject(routes, namespace, name);
      var panicked := SyncFound(istiocaps, found.value, key);
      ending := if panicked then Panicked else Synced;
    }

    /** Reconciles the object named by a work-queue key. Only a failed lookup of the object itself is
        reported; a failed lookup of its endpoints or service ends in a panic, unless the route is
        taken. */
    method SyncHandler(key: string) returns (ending: Ending)
      requires Valid()
      modifies istio, this`routes, services.items.Values
      ensures Valid() && OnlyTouched(key)
      ensures SplitKey(key).None? ==>
        ending == Synced && istio.State() == old(istio.State()) && routes == old(routes)
      ensures SplitKey(key).Some? ==>
        var (namespace, name) := SplitKey(key).value;
        var (at, owner) := (namespace + "/" + name, clusterName + "--" + namespace + "--" + name);
        && IsReconciled(namespace, name, ending)
        && GoneIsReleased(at, owner, ending) && UnreadIsRequeued(ending)
        && FreeIsServed(at, owner, ending) && BlindPanics(at, owner, ending)
    {
      var parts := SplitKey(key);
      if parts.None? {
        return Synced;
      }
      var (namespace, name) := parts.value;
      ghost var (s, src, at) := (istio.State(), SourceAt(namespace, name), namespace + "/" + name);
      ghost var owner := clusterName + "--" + namespace + "--" + name;
      assert Backed(at) ==>
        src == Present(routes.items[at].routeName, routes.items[at].fullRouteName,
                       Some(Backend(endpoints.items[at], services.items[at][..])));
      ending := SyncObject(namespace, name, key);
      assert FreeIsServed(at, owner, ending) by {
        if old(Backed(at)) && src.route !in s.services
           && (owner in s.records ==> s.records[owner] != "" && s.records[owner] != src.route) {
          AfterCreate(info, s, owner, src);
          assert Reconcile(info, s, owner, src).istio == istio.State();
        }
      }
    }
  }
}
