/** When a single pass over all keys settles the system whatever its order: the exact condition, with
    a pass that fails for each way of missing it. */
module OnePass {
  import opened Wrappers
  import opened Model
  import opened Reconciler
  import opened Leases
  import opened LeaseTable
  import opened Algebra
  import opened Convergence

  lemma CalmPassSettles(info: IstioInfo, sys: System, pass: seq<string>)
    requires LeaseInv(sys.istio) && VisitsAll(sys, pass) && Calm(sys)
    ensures Settled(info, SyncAll(info, sys, pass))
  {
    PassMakesQuiet(info, sys, pass);
    forall o ensures o in pass || Quiet(info, sys, o) {
      if o !in pass {
        assert Dormant(sys, o);
        DormantStays(info, sys, o, o);
      }
    }
  }

  // ------------------------------------------------------------------ schedules of others

  /** A schedule that leaves an owner out leaves its source, its record and its objects alone. */
  lemma {:induction false} OthersKeep(info: IstioInfo, sys: System, schedule: seq<string>, o: string)
    requires LeaseInv(sys.istio) && o !in schedule
    ensures var end := SyncAll(info, sys, schedule);
      && LeaseInv(end.istio) && SourceOf(end, o) == SourceOf(sys, o)
      && SameAt(sys.istio.records, end.istio.records, o)
      && (o in sys.istio.records ==> SameObjects(sys.istio, end.istio, sys.istio.records[o]))
    decreases |schedule|
  {
    if schedule != [] {
      var p := schedule[0];
      ReconcileKeepsLeases(info, sys.istio, p, SourceOf(sys, p));
      OthersUntouched(info, sys.istio, p, SourceOf(sys, p), o);
      SyncKeepsRequests(info, sys, p, o);
      OthersKeep(info, Sync(info, sys, p), schedule[1..], o);
    }
  }

  lemma {:induction false} PassKeepsRequests(info: IstioInfo, sys: System, schedule: seq<string>, o: string)
    ensures var (src, after) := (SourceOf(sys, o), SourceOf(SyncAll(info, sys, schedule), o));
      (Eligible(src) <==> Eligible(after)) && (src.Present? ==> after.Present? && after.route == src.route)
    decreases |schedule|
  {
    if schedule != [] {
      SyncKeepsRequests(info, sys, schedule[0], o);
      PassKeepsRequests(info, Sync(info, sys, schedule[0]), schedule[1..], o);
    }
  }

  /** Some order of a finite set of keys. */
  ghost function Listed(keys: set<string>): (list: seq<string>)
    ensures forall o :: o in list <==> o in keys
    decreases |keys|
  {
    if keys == {} then []
    else
      var o :| o in keys;
      [o] + Listed(keys - {o})
  }

  function KeysOf(sys: System): set<string> {
    sys.sources.Keys + sys.istio.records.Keys
  }

  // --------------------------------------------------------------------- passes that fail

  /** The key that is about to give the route up comes last: whoever waits for it is turned away. */
  lemma LateReleaseLeavesWaiting(info: IstioInfo, sys: System, front: seq<string>, o: string, p: string)
    requires LeaseInv(sys.istio) && o != p && o in front && p !in front
    requires Eligible(SourceOf(sys, o)) && HoldsRoute(sys.istio, p, SourceOf(sys, o).route) && !Fresh(sys, p)
    ensures !Quiet(info, SyncAll(info, sys, front + [p]), o)
  {
    var route := SourceOf(sys, o).route;
    var mid := SyncAll(info, sys, front);
    var end := Sync(info, mid, p);
    SyncAllAppend(info, sys, front, [p]);
    assert SyncAll(info, mid, [p]) == SyncAll(info, end, [p][1..]) == end;
    PassMakesReady(info, sys, front);
    PassKeepsRequests(info, sys, front, o);
    OthersKeep(info, sys, front, p);
    assert Ready(mid, o) && o !in mid.istio.records;
    ReleaseFreesRoute(info, mid.istio, p, SourceOf(mid, p));
    OthersUntouched(info, mid.istio, p, SourceOf(mid, p), o);
    CreatesNext(info, end, o);
  }

  lemma ReleaseFreesRoute(info: IstioInfo, s: Istio, p: string, src: Source)
    requires LeaseInv(s) && Stale(s, p, src)
    ensures s.records[p] !in Reconcile(info, s, p, src).istio.services
  {
  }

  lemma CreatesNext(info: IstioInfo, sys: System, o: string)
    requires Eligible(SourceOf(sys, o)) && o !in sys.istio.records
    requires SourceOf(sys, o).route !in sys.istio.services
    ensures !Quiet(info, sys, o)
  {
    var (s, src) := (sys.istio, SourceOf(sys, o));
    assert Release(info, s, o, src) == s && BranchOf(s, o, src) == Create;
    CreateIsNotQuiet(info, s, o, src);
  }

  /** The key that creates over other endpoints comes first, and is not visited again. */
  lemma EarlyCreateKeepsEndpoints(info: IstioInfo, sys: System, rest: seq<string>, o: string)
    requires LeaseInv(sys.istio) && o !in rest && Eligible(SourceOf(sys, o))
    requires CreatesOverEndpoints(info, sys.istio, o, SourceOf(sys, o))
    ensures !Quiet(info, SyncAll(info, sys, [o] + rest), o)
  {
    var (src, next) := (SourceOf(sys, o), Sync(info, sys, o));
    var end := SyncAll(info, next, rest);
    assert SyncAll(info, sys, [o] + rest) == SyncAll(info, next, ([o] + rest)[1..]) && ([o] + rest)[1..] == rest;
    ReconcileKeepsLeases(info, sys.istio, o, src);
    ContentAfterSync(info, sys.istio, o, src);
    OthersKeep(info, next, rest, o);
    SyncKeepsRequests(info, sys, o, o);
    RefreshesNext(info, end, o);
  }

  lemma RefreshesNext(info: IstioInfo, sys: System, o: string)
    requires LeaseInv(sys.istio) && Eligible(SourceOf(sys, o)) && HoldsRoute(sys.istio, o, SourceOf(sys, o).route)
    requires sys.istio.endpoints[SourceOf(sys, o).route] != SourceOf(sys, o).backend.value.subsets
    ensures !Quiet(info, sys, o)
  {
    var (s, src) := (sys.istio, SourceOf(sys, o));
    assert Release(info, s, o, src) == s && BranchOf(s, o, src) == Update;
    assert Sync(info, sys, o).istio.endpoints[src.route] == src.backend.value.subsets;
  }

  lemma UncalmPassFails(info: IstioInfo, sys: System, o: string) returns (pass: seq<string>)
    requires LeaseInv(sys.istio) && !CalmFor(sys, o)
    ensures VisitsAll(sys, pass) && !Quiet(info, SyncAll(info, sys, pass), o)
  {
    var src := SourceOf(sys, o);
    if p :| p != o && p in sys.istio.records && !Fresh(sys, p) && sys.istio.records[p] == src.route {
      var front := Listed(KeysOf(sys) - {p});
      pass := front + [p];
      LateReleaseLeavesWaiting(info, sys, front, o, p);
    } else {
      var rest := Listed(KeysOf(sys) - {o});
      pass := [o] + rest;
      EarlyCreateKeepsEndpoints(info, sys, rest, o);
    }
  }

  /** Every single pass settles the system if and only if each eligible key that does not hold its
      route yet asks for one that no other key's stale record names, and that is there as a service,
      or absent from the endpoints, or there with the very same subsets. */
  lemma OnePassSettlesIff(info: IstioInfo, sys: System)
    requires LeaseInv(sys.istio)
    ensures (forall pass :: VisitsAll(sys, pass) ==> Settled(info, SyncAll(info, sys, pass))) <==> Calm(sys)
  {
    if Calm(sys) {
      forall pass | VisitsAll(sys, pass) ensures Settled(info, SyncAll(info, sys, pass)) {
        CalmPassSettles(info, sys, pass);
      }
    } else {
      var o :| !CalmFor(sys, o);
      var pass := UncalmPassFails(info, sys, o);
      assert VisitsAll(sys, pass) && !Quiet(info, SyncAll(info, sys, pass), o);
    }
  }

  /** Both ways of missing the condition occur: a key asks before the holder of its route lets go,
      and a key takes a route under which other endpoints lie. */
  lemma OnePassIsNotEnough(info: IstioInfo, src: Source, left: seq<Subset>)
    requires Eligible(src) && left != src.backend.value.subsets
    ensures var empty := Istio(map[], map[], map[], map[], map[], None);
      var held := Perform(info, empty, "a", Install(src.route, src.backend.value));
      var littered := empty.(endpoints := map[src.route := left]);
      && LeaseInv(held) && !Calm(System(held, map["b" := src]))
      && LeaseInv(littered) && !Calm(System(littered, map["b" := src]))
  {
    var empty := Istio(map[], map[], map[], map[], map[], None);
    var held := System(Perform(info, empty, "a", Install(src.route, src.backend.value)), map["b" := src]);
    assert "a" in held.istio.records && !Fresh(held, "a") && !CalmFor(held, "b");
    var littered := System(empty.(endpoints := map[src.route := left]), map["b" := src]);
    assert !Takeable(littered.istio, src) && !CalmFor(littered, "b");
  }
}
