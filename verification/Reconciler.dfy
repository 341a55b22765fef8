/** One whole sync as a function on values: which lease it gives up, which branch it takes, and
    what every store, the source's status and the cached source look like afterwards. */
module Reconciler {
  import opened Wrappers
  import opened Names
  import opened Model
  import opened Hosts

  // ------------------------------------------------------- the three edits of a sync

  datatype Act =
    | Nothing
    | Withdraw(route: string)
    | Install(route: string, backend: Backend)
    | Refresh(route: string, backend: Backend)

  function Perform(info: IstioInfo, s: Istio, owner: string, act: Act): Istio {
    match act
    case Nothing => s
    case Withdraw(route) =>
      Istio(Deleted(s.records, owner),
            Deleted(s.endpoints, route),
            Deleted(s.services, route),
            Deleted(s.virtualServices, route),
            Deleted(s.destinationRules, route),
            match s.gateway
            case None => None
            case Some(servers) => Some(EditServers(info, servers, HostOf(info, route), Remove)))
    case Install(route, backend) =>
      Istio(Created(s.records, owner, route),
            Created(s.endpoints, route, backend.subsets),
            Created(s.services, route, ZeroNodePorts(backend.ports)),
            Created(s.virtualServices, route, NewVirtualService(info, route, backend.ports)),
            Created(s.destinationRules, route, NewDestinationRule(info, route)),
            match s.gateway
            case None => None
            case Some(servers) => Some(EditServers(info, servers, HostOf(info, route), Add)))
    case Refresh(route, backend) =>
      s.(services := Updated(s.services, route, ZeroNodePorts(backend.ports)),
         endpoints := Updated(s.endpoints, route, backend.subsets))
  }

  // ------------------------------------------------------------------- the decisions

  /** The owner holds a record that its source no longer asks for. */
  predicate Stale(s: Istio, owner: string, src: Source) {
    && owner in s.records
    && (src.Absent? || (src.Present? && src.route != s.records[owner]))
  }

  /** The route to release; the empty string stands for "none". */
  function RouteToDelete(s: Istio, owner: string, src: Source): string {
    if Stale(s, owner, src) then s.records[owner] else ""
  }

  function ReleaseAct(s: Istio, owner: string, src: Source): Act {
    var route := RouteToDelete(s, owner, src);
    if route != "" then Withdraw(route) else Nothing
  }

  function Release(info: IstioInfo, s: Istio, owner: string, src: Source): Istio {
    Perform(info, s, owner, ReleaseAct(s, owner, src))
  }

  /** The source asks for a route and both its endpoints and its service exist. */
  predicate Eligible(src: Source) {
    src.Present? && src.route != "" && src.backend.Some?
  }

  datatype Branch = Skip | Create | Conflict | Update

  /** Taken on the state the release has left. */
  function BranchOf(s: Istio, owner: string, src: Source): Branch {
    if !Eligible(src) then Skip
    else if owner in s.records then Update
    else if src.route in s.services then Conflict
    else Create
  }

  function BranchAct(s: Istio, owner: string, src: Source): Act {
    match BranchOf(s, owner, src)
    case Create => Install(src.route, src.backend.value)
    case Update => Refresh(src.route, src.backend.value)
    case _ => Nothing
  }

  /** Building the Istio service zeroes the node ports of the cached source service, whose port
      slice it shares. */
  function Aliased(src: Source): (cached: Source)
    requires Eligible(src)
    ensures cached.Present? && Eligible(cached)
  {
    var backend := src.backend.value;
    src.(backend := Some(Backend(backend.subsets, ZeroNodePorts(backend.ports))))
  }

  function SourceAfter(info: IstioInfo, s: Istio, owner: string, src: Source): Source {
    match BranchOf(s, owner, src)
    case Skip => src
    case Conflict => src.(status := TakenMessage(src.route))
    case Update => Aliased(src)
    case Create =>
      var cached := Aliased(src);
      if s.gateway.Some? then cached.(status := HostOf(info, src.route)) else cached
  }

  // ------------------------------------------------------------------- the whole sync

  datatype Outcome = Outcome(istio: Istio, source: Source)

  function Reconcile(info: IstioInfo, s: Istio, owner: string, src: Source): Outcome {
    var released := Release(info, s, owner, src);
    Outcome(Perform(info, released, owner, BranchAct(released, owner, src)),
            SourceAfter(info, released, owner, src))
  }

  // ------------------------------------------------------------------------------- runs

  /** One whole sync of an owner, with whatever its source shows at that moment. */
  datatype Turn = Turn(owner: string, source: Source)

  /** A run is any sequence of turns: the sources may change arbitrarily between them. */
  function Run(info: IstioInfo, s: Istio, turns: seq<Turn>): Istio
    decreases |turns|
  {
    if turns == [] then s
    else Run(info, Reconcile(info, s, turns[0].owner, turns[0].source).istio, turns[1..])
  }

  // ---------------------------------------------------------------------- frozen sources

  /** The shared Istio state and what each owner's source shows. Owners are record names. */
  datatype System = System(istio: Istio, sources: map<string, Source>)

  function SourceOf(sys: System, owner: string): Source {
    if owner in sys.sources then sys.sources[owner] else Absent
  }

  /** A sync that reads the owner's source and leaves its own status and cache changes in it. */
  function Sync(info: IstioInfo, sys: System, owner: string): System {
    var out := Reconcile(info, sys.istio, owner, SourceOf(sys, owner));
    System(out.istio, if owner in sys.sources then sys.sources[owner := out.source] else sys.sources)
  }
}
