/** What one whole sync does, case by case, in terms of the stores alone: which objects and which
    status are there afterwards. */
module Effects {
  import opened Model
  import opened Reconciler

  /** The source is gone. */
  lemma AfterDeletion(info: IstioInfo, s: Istio, owner: string)
    requires owner in s.records && s.records[owner] != ""
    ensures var (route, t) := (s.records[owner], Reconcile(info, s, owner, Absent).istio);
      && owner !in t.records && route !in t.endpoints && route !in t.services
      && route !in t.virtualServices && route !in t.destinationRules
  {
  }

  /** The record names the route, and its service and, where none were there, its endpoints are made
      from the source. */
  ghost predicate Served(s: Istio, t: Istio, owner: string, route: string, subsets: seq<Subset>,
                         ports: seq<ServicePort>)
  {
    && owner in t.records && t.records[owner] == route
    && route in t.services && CarriesPorts(t.services[route], ports)
    && route in t.endpoints && (route !in s.endpoints ==> t.endpoints[route] == subsets)
  }

  /** The source asks for a route whose service name is free. */
  lemma AfterCreate(info: IstioInfo, s: Istio, owner: string, src: Source)
    requires src.Present? && src.route != "" && src.backend.Some? && src.route !in s.services
    requires owner in s.records ==> s.records[owner] != "" && s.records[owner] != src.route
    ensures var out := Reconcile(info, s, owner, src);
      var (subsets, ports) := (src.backend.value.subsets, src.backend.value.ports);
      && Served(s, out.istio, owner, src.route, subsets, ports)
      && out.source.Present? && out.source.backend.Some?
      && CarriesPorts(out.source.backend.value.ports, ports)
      && out.source.status == if s.gateway.Some? then src.route + "." + info.suffix else src.status
  {
    assert BranchOf(Release(info, s, owner, src), owner, src) == Create;
  }

  /** The owner holds the route it asks for. */
  lemma AfterUpdate(info: IstioInfo, s: Istio, owner: string, src: Source)
    requires src.Present? && src.route != "" && src.backend.Some?
    requires owner in s.records && s.records[owner] == src.route
    ensures var out := Reconcile(info, s, owner, src);
      && out.istio == s.(services := out.istio.services, endpoints := out.istio.endpoints)
      && (src.route in s.services ==>
           src.route in out.istio.services && CarriesPorts(out.istio.services[src.route], src.backend.value.ports))
      && (src.route in s.endpoints ==>
           src.route in out.istio.endpoints && out.istio.endpoints[src.route] == src.backend.value.subsets)
      && out.source.Present? && out.source.status == src.status
  {
  }

  /** Somebody else has the route, and the owner has none. */
  lemma AfterConflict(info: IstioInfo, s: Istio, owner: string, src: Source)
    requires src.Present? && src.route != "" && src.backend.Some?
    requires owner !in s.records && src.route in s.services
    ensures var out := Reconcile(info, s, owner, src);
      out.istio == s && out.source == src.(status := src.route + " already taken. please change routeName.")
  {
  }

  /** The source asks for nothing that could be served, and the owner has nothing. */
  lemma AfterNothing(info: IstioInfo, s: Istio, owner: string, src: Source)
    requires owner !in s.records && !(src.Present? && src.route != "" && src.backend.Some?)
    ensures Reconcile(info, s, owner, src) == Outcome(s, src)
  {
  }
}
