/** With the sources left alone, two passes over all keys settle the system, whatever their order,
    and the set of routes that end up held does not depend on the order. */
module Convergence {
  import opened Model
  import opened Reconciler
  import opened Leases
  import opened LeaseTable
  import opened Algebra

  function SyncAll(info: IstioInfo, sys: System, schedule: seq<string>): System
    decreases |schedule|
  {
    if schedule == [] then sys else SyncAll(info, Sync(info, sys, schedule[0]), schedule[1..])
  }

  lemma {:induction false} SyncAllAppend(info: IstioInfo, sys: System, a: seq<string>, b: seq<string>)
    ensures SyncAll(info, sys, a + b) == SyncAll(info, SyncAll(info, sys, a), b)
    decreases |a|
  {
    if a == [] {
      assert a + b == b;
    } else {
      assert (a + b)[1..] == a[1..] + b;
      SyncAllAppend(info, Sync(info, sys, a[0]), a[1..], b);
    }
  }

  // ---------------------------------------------------- what a first sync establishes

  predicate Fresh(sys: System, o: string) {
    !Stale(sys.istio, o, SourceOf(sys, o))
  }

  /** The owner holds nothing it should give up, and a route it still waits for is either taken
      or has no endpoints left behind. */
  predicate Ready(sys: System, o: string) {
    var src := SourceOf(sys, o);
    && Fresh(sys, o)
    && (Eligible(src) && o !in sys.istio.records ==> Available(sys.istio, src.route))
  }

  predicate Available(s: Istio, route: string) {
    route in s.services || route !in s.endpoints
  }

  /** Syncing the owner changes nothing: neither stores nor statuses nor caches. */
  predicate Quiet(info: IstioInfo, sys: System, o: string) {
    Sync(info, sys, o) == sys
  }

  ghost predicate Settled(info: IstioInfo, sys: System) {
    forall o :: Quiet(info, sys, o)
  }

  predicate Dormant(sys: System, o: string) {
    o !in sys.sources && o !in sys.istio.records
  }

  /** A sync changes no request: same kind of source, same route, same endpoints. */
  lemma SyncKeepsRequests(info: IstioInfo, sys: System, p: string, o: string)
    ensures var (src, after) := (SourceOf(sys, o), SourceOf(Sync(info, sys, p), o));
      && (after.Present? <==> src.Present?) && (after.Absent? <==> src.Absent?)
      && (Eligible(after) <==> Eligible(src))
      && (src.Present? ==> after.route == src.route)
      && (Eligible(src) ==> after.backend.value.subsets == src.backend.value.subsets)
      && (o != p ==> after == src)
  {
  }

  lemma SyncMakesReady(info: IstioInfo, sys: System, o: string)
    requires LeaseInv(sys.istio)
    ensures Ready(Sync(info, sys, o), o)
  {
  }

  lemma ActKeepsAvailable(info: IstioInfo, s: Istio, owner: string, act: Act, route: string)
    requires Available(s, route)
    ensures Available(Perform(info, s, owner, act), route)
  {
  }

  lemma SyncKeepsReady(info: IstioInfo, sys: System, p: string, o: string)
    requires LeaseInv(sys.istio) && Ready(sys, o)
    ensures Ready(Sync(info, sys, p), o)
  {
    if p == o {
      SyncMakesReady(info, sys, o);
    } else {
      var src := SourceOf(sys, o);
      var released := Release(info, sys.istio, p, SourceOf(sys, p));
      SyncKeepsRequests(info, sys, p, o);
      OthersUntouched(info, sys.istio, p, SourceOf(sys, p), o);
      if Eligible(src) && o !in sys.istio.records {
        ActKeepsAvailable(info, sys.istio, p, ReleaseAct(sys.istio, p, SourceOf(sys, p)), src.route);
        ActKeepsAvailable(info, released, p, BranchAct(released, p, SourceOf(sys, p)), src.route);
      }
    }
  }

  // --------------------------------------------------- what a second sync establishes

  /** Taking the requested route would not keep other endpoints. */
  predicate Takeable(s: Istio, src: Source)
    requires Eligible(src)
  {
    src.route in s.services || src.route !in s.endpoints || s.endpoints[src.route] == src.backend.value.subsets
  }

  /** An eligible owner that does not hold its route yet asks for one that nobody else is about to
      give up, and that is takeable. */
  ghost predicate CalmFor(sys: System, o: string) {
    var src := SourceOf(sys, o);
    Eligible(src) && !HoldsRoute(sys.istio, o, src.route) ==>
      && Takeable(sys.istio, src)
      && forall p :: p != o && p in sys.istio.records && !Fresh(sys, p) ==> sys.istio.records[p] != src.route
  }

  ghost predicate Calm(sys: System) {
    forall o :: CalmFor(sys, o)
  }

  lemma ReadyIsCalm(sys: System)
    requires forall o :: Ready(sys, o)
    ensures Calm(sys)
  {
    forall o ensures CalmFor(sys, o) {
      assert Ready(sys, o);
      assert forall p :: Ready(sys, p) ==> Fresh(sys, p);
    }
  }

  lemma ActKeepsTakeable(info: IstioInfo, s: Istio, owner: string, act: Act, src: Source)
    requires Eligible(src) && Takeable(s, src) && LeaseInv(s) && Legal(s, owner, act)
    requires act.Withdraw? ==> act.route != src.route
    ensures Takeable(Perform(info, s, owner, act), src)
  {
  }

  lemma SyncKeepsTakeable(info: IstioInfo, sys: System, p: string, o: string)
    requires LeaseInv(sys.istio) && Eligible(SourceOf(sys, o)) && Takeable(sys.istio, SourceOf(sys, o))
    requires p in sys.istio.records && !Fresh(sys, p) ==> sys.istio.records[p] != SourceOf(sys, o).route
    ensures Eligible(SourceOf(Sync(info, sys, p), o))
    ensures Takeable(Sync(info, sys, p).istio, SourceOf(Sync(info, sys, p), o))
  {
    var (s, src) := (sys.istio, SourceOf(sys, p));
    var released := Release(info, s, p, src);
    SyncKeepsRequests(info, sys, p, o);
    SyncActsAreLegal(info, s, p, src);
    ReconcileKeepsLeases(info, s, p, src);
    ActKeepsTakeable(info, s, p, ReleaseAct(s, p, src), SourceOf(sys, o));
    ActKeepsTakeable(info, released, p, BranchAct(released, p, src), SourceOf(sys, o));
  }

  lemma SyncKeepsCalm(info: IstioInfo, sys: System, p: string, o: string)
    requires LeaseInv(sys.istio) && CalmFor(sys, o)
    ensures CalmFor(Sync(info, sys, p), o)
  {
    var (src, next) := (SourceOf(sys, o), Sync(info, sys, p));
    SyncKeepsRequests(info, sys, p, o);
    SyncMakesReady(info, sys, p);
    HoldsUnlessSynced(info, sys, p, o);
    if Eligible(src) && !HoldsRoute(sys.istio, o, src.route) {
      SyncKeepsTakeable(info, sys, p, o);
      forall q | q != o && q in next.istio.records && !Fresh(next, q) ensures next.istio.records[q] != src.route {
        SyncKeepsRequests(info, sys, p, q);
        HoldsUnlessSynced(info, sys, p, q);
      }
    }
  }

  /** An own record that matches its source stays, and so does any other key's record. */
  lemma HoldsUnlessSynced(info: IstioInfo, sys: System, p: string, o: string)
    requires LeaseInv(sys.istio)
    ensures var t := Sync(info, sys, p).istio;
      && (p != o ==> SameAt(sys.istio.records, t.records, o))
      && (o in sys.istio.records && Fresh(sys, o) ==> HoldsRoute(t, o, sys.istio.records[o]))
  {
    if p != o {
      OthersUntouched(info, sys.istio, p, SourceOf(sys, p), o);
    }
  }

  lemma SyncMakesQuiet(info: IstioInfo, sys: System, o: string)
    requires LeaseInv(sys.istio) && CalmFor(sys, o)
    ensures Quiet(info, Sync(info, sys, o), o)
  {
    var src := SourceOf(sys, o);
    assert !CreatesOverEndpoints(info, sys.istio, o, src);
    SyncIdempotent(info, sys.istio, o, src);
  }

  /** A quiet owner stays quiet as long as no one else gives up the route it waits for. */
  lemma SyncKeepsQuiet(info: IstioInfo, sys: System, p: string, o: string)
    requires LeaseInv(sys.istio) && p != o && CalmFor(sys, o) && Quiet(info, sys, o)
    ensures Quiet(info, Sync(info, sys, p), o)
  {
    var (s, src) := (sys.istio, SourceOf(sys, o));
    var t := Sync(info, sys, p).istio;
    QuietIsFresh(info, sys, o);
    SyncKeepsRequests(info, sys, p, o);
    OthersUntouched(info, s, p, SourceOf(sys, p), o);
    assert Reconcile(info, s, o, src).istio == Perform(info, s, o, BranchAct(s, o, src)) == s;
    match BranchOf(s, o, src)
    case Skip =>
    case Conflict =>
      ServiceStays(info, sys, p, src.route);
      assert BranchOf(t, o, src) == Conflict;
    case Create =>
      CreateIsNotQuiet(info, s, o, src);
    case Update =>
      assert BranchOf(t, o, src) == Update;
      RefreshIsIdentity(info, s, t, o, src.route, src.backend.value);
  }

  /** A settled owner's record matches its source. */
  lemma QuietIsFresh(info: IstioInfo, sys: System, o: string)
    requires LeaseInv(sys.istio) && Quiet(info, sys, o)
    ensures Fresh(sys, o)
  {
  }

  lemma CreateIsNotQuiet(info: IstioInfo, s: Istio, o: string, src: Source)
    ensures BranchOf(s, o, src) == Create ==> Perform(info, s, o, BranchAct(s, o, src)) != s
  {
  }

  lemma ServiceStays(info: IstioInfo, sys: System, p: string, route: string)
    requires p in sys.istio.records && !Fresh(sys, p) ==> sys.istio.records[p] != route
    ensures route in sys.istio.services ==> route in Sync(info, sys, p).istio.services
  {
  }

  lemma RefreshIsIdentity(info: IstioInfo, s: Istio, t: Istio, o: string, route: string, backend: Backend)
    requires SameObjects(s, t, route) && Perform(info, s, o, Refresh(route, backend)) == s
    ensures Perform(info, t, o, Refresh(route, backend)) == t
  {
  }

  // ------------------------------------------------------------------------ the passes

  lemma {:induction false} PassMakesReady(info: IstioInfo, sys: System, schedule: seq<string>)
    requires LeaseInv(sys.istio)
    ensures var end := SyncAll(info, sys, schedule);
      && LeaseInv(end.istio)
      && (forall o :: o in schedule || Ready(sys, o) ==> Ready(end, o))
      && (forall o :: Dormant(sys, o) ==> Dormant(end, o))
    decreases |schedule|
  {
    if schedule != [] {
      var next := Sync(info, sys, schedule[0]);
      ReconcileKeepsLeases(info, sys.istio, schedule[0], SourceOf(sys, schedule[0]));
      SyncMakesReady(info, sys, schedule[0]);
      forall o | Ready(sys, o) ensures Ready(next, o) {
        SyncKeepsReady(info, sys, schedule[0], o);
      }
      forall o | Dormant(sys, o) ensures Dormant(next, o) {
        DormantStays(info, sys, schedule[0], o);
      }
      PassMakesReady(info, next, schedule[1..]);
    }
  }

  lemma DormantStays(info: IstioInfo, sys: System, p: string, o: string)
    requires LeaseInv(sys.istio) && Dormant(sys, o)
    ensures Dormant(Sync(info, sys, p), o) && Ready(sys, o) && Quiet(info, sys, o)
  {
  }

  lemma {:induction false} PassMakesQuiet(info: IstioInfo, sys: System, schedule: seq<string>)
    requires LeaseInv(sys.istio) && Calm(sys)
    ensures var end := SyncAll(info, sys, schedule);
      forall o :: o in schedule || Quiet(info, sys, o) ==> Quiet(info, end, o)
    decreases |schedule|
  {
    if schedule != [] {
      var p := schedule[0];
      var next := Sync(info, sys, p);
      ReconcileKeepsLeases(info, sys.istio, p, SourceOf(sys, p));
      assert CalmFor(sys, p);
      SyncMakesQuiet(info, sys, p);
      forall o ensures CalmFor(next, o) && (Quiet(info, sys, o) ==> Quiet(info, next, o)) {
        assert CalmFor(sys, o);
        SyncKeepsCalm(info, sys, p, o);
        if o != p && Quiet(info, sys, o) {
          SyncKeepsQuiet(info, sys, p, o);
        }
      }
      PassMakesQuiet(info, next, schedule[1..]);
    }
  }

  /** A pass: it visits every key that has a source or a record, in any order, repeats allowed. */
  ghost predicate VisitsAll(sys: System, schedule: seq<string>) {
    forall o :: o in sys.sources || o in sys.istio.records ==> o in schedule
  }

  /** After two passes no sync of any key changes stores, statuses or caches. */
  lemma TwoPassesSettle(info: IstioInfo, sys: System, first: seq<string>, second: seq<string>)
    requires LeaseInv(sys.istio) && VisitsAll(sys, first) && VisitsAll(sys, second)
    ensures Settled(info, SyncAll(info, sys, first + second))
  {
    SyncAllAppend(info, sys, first, second);
    var mid := SyncAll(info, sys, first);
    PassMakesReady(info, sys, first);
    forall o ensures Ready(mid, o) && (o in second || Quiet(info, mid, o)) {
      if o !in second || o !in first {
        assert Dormant(sys, o) && Dormant(mid, o);
        DormantStays(info, sys, o, o);
        DormantStays(info, mid, o, o);
      }
    }
    ReadyIsCalm(mid);
    PassMakesQuiet(info, mid, second);
  }

  /** So the state two passes reach is final for every further schedule. */
  lemma {:induction false} SettledForever(info: IstioInfo, sys: System, further: seq<string>)
    requires Settled(info, sys)
    ensures SyncAll(info, sys, further) == sys
    decreases |further|
  {
    if further != [] {
      assert Quiet(info, sys, further[0]);
      SettledForever(info, sys, further[1..]);
    }
  }

  // ------------------------------------------------------------------------ confluence

  /** The routes that two passes leave held: those already held by a record that matches its
      source, and those that are asked for by an eligible source and not foreign. */
  function Target(sys: System): set<string> {
    (set o | o in sys.istio.records && Fresh(sys, o) :: sys.istio.records[o]) +
    (set o | o in sys.sources && Eligible(sys.sources[o])
             && sys.sources[o].route !in ForeignServices(sys.istio) :: sys.sources[o].route)
  }

  /** Every record is either an original one or answers its owner's own eligible request. */
  ghost predicate Justified(origin: System, sys: System, o: string)
    requires o in sys.istio.records
  {
    var src := SourceOf(origin, o);
    || (o in origin.istio.records && origin.istio.records[o] == sys.istio.records[o])
    || (Eligible(src) && src.route == sys.istio.records[o] && src.route !in ForeignServices(origin.istio))
  }

  ghost predicate FollowsFrom(origin: System, sys: System) {
    && LeaseInv(sys.istio)
    && ForeignServices(sys.istio) == ForeignServices(origin.istio)
    && (forall o :: RecordFollows(origin, sys, o))
    && (forall o :: SameRequest(SourceOf(origin, o), SourceOf(sys, o)))
  }

  predicate SameRequest(a: Source, b: Source) {
    && (a.Present? <==> b.Present?) && (a.Absent? <==> b.Absent?) && (Eligible(a) <==> Eligible(b))
    && (a.Present? ==> a.route == b.route)
  }

  lemma SyncFollows(info: IstioInfo, origin: System, sys: System, p: string)
    requires FollowsFrom(origin, sys)
    ensures FollowsFrom(origin, Sync(info, sys, p))
  {
    var src := SourceOf(sys, p);
    ReconcileKeepsLeases(info, sys.istio, p, src);
    ReconcileConservesForeignServices(info, sys.istio, p, src);
    RequestsFollow(info, origin, sys, p);
    forall o ensures RecordFollows(origin, Sync(info, sys, p), o) {
      RecordsFollow(info, origin, sys, p, o);
    }
  }

  lemma RequestsFollow(info: IstioInfo, origin: System, sys: System, p: string)
    requires forall o :: SameRequest(SourceOf(origin, o), SourceOf(sys, o))
    ensures forall o :: SameRequest(SourceOf(origin, o), SourceOf(Sync(info, sys, p), o))
  {
  }

  /** What FollowsFrom says about the record of one owner. */
  ghost predicate RecordFollows(origin: System, sys: System, o: string) {
    && (o in sys.istio.records ==> Justified(origin, sys, o))
    && (o in origin.istio.records && Fresh(origin, o) ==>
          o in sys.istio.records && sys.istio.records[o] == origin.istio.records[o])
  }

  lemma RecordsFollow(info: IstioInfo, origin: System, sys: System, p: string, o: string)
    requires FollowsFrom(origin, sys)
    ensures RecordFollows(origin, Sync(info, sys, p), o)
  {
    assert RecordFollows(origin, sys, o);
    assert SameRequest(SourceOf(origin, o), SourceOf(sys, o));
    if o == p {
      OwnRecordAfterSync(info, sys.istio, p, SourceOf(sys, p));
    } else {
      OthersUntouched(info, sys.istio, p, SourceOf(sys, p), o);
    }
  }

  lemma OwnRecordAfterSync(info: IstioInfo, s: Istio, p: string, src: Source)
    requires LeaseInv(s)
    ensures var t := Reconcile(info, s, p, src).istio;
      && (p in s.records && !Stale(s, p, src) ==> p in t.records && t.records[p] == s.records[p])
      && (p in t.records ==>
            || (p in s.records && t.records[p] == s.records[p])
            || (Eligible(src) && t.records[p] == src.route && src.route !in ForeignServices(s)))
  {
  }

  lemma {:induction false} RunFollows(info: IstioInfo, origin: System, sys: System, schedule: seq<string>)
    requires FollowsFrom(origin, sys)
    ensures FollowsFrom(origin, SyncAll(info, sys, schedule))
    decreases |schedule|
  {
    if schedule != [] {
      SyncFollows(info, origin, sys, schedule[0]);
      RunFollows(info, origin, Sync(info, sys, schedule[0]), schedule[1..]);
    }
  }

  /** The routes held after two passes are the closed form, for every pair of passes: which owner
      wins a contested route depends on the order, which routes are held does not. */
  lemma HeldRoutesConfluent(info: IstioInfo, sys: System, first: seq<string>, second: seq<string>)
    requires LeaseInv(sys.istio) && VisitsAll(sys, first) && VisitsAll(sys, second)
    ensures HeldRoutes(SyncAll(info, sys, first + second).istio) == Target(sys)
  {
    var end := SyncAll(info, sys, first + second);
    TwoPassesSettle(info, sys, first, second);
    assert FollowsFrom(sys, sys);
    RunFollows(info, sys, sys, first + second);
    SettledHoldsTarget(info, sys, end);
  }

  lemma SettledHoldsTarget(info: IstioInfo, origin: System, end: System)
    requires FollowsFrom(origin, end) && Settled(info, end)
    ensures HeldRoutes(end.istio) == Target(origin)
  {
    forall o | o in end.istio.records ensures end.istio.records[o] in Target(origin) {
      assert Quiet(info, end, o);
      HeldIsTargeted(info, origin, end, o);
    }
    forall o | o in origin.istio.records && Fresh(origin, o)
      ensures origin.istio.records[o] in HeldRoutes(end.istio)
    {
      assert RecordFollows(origin, end, o);
    }
    forall o | o in origin.sources && Eligible(origin.sources[o])
               && origin.sources[o].route !in ForeignServices(origin.istio)
      ensures origin.sources[o].route in HeldRoutes(end.istio)
    {
      assert Quiet(info, end, o);
      RequestIsServed(info, origin, end, o);
    }
  }

  lemma HeldIsTargeted(info: IstioInfo, origin: System, end: System, o: string)
    requires FollowsFrom(origin, end) && Quiet(info, end, o) && o in end.istio.records
    ensures end.istio.records[o] in Target(origin)
  {
    QuietIsFresh(info, end, o);
    assert RecordFollows(origin, end, o);
    assert SameRequest(SourceOf(origin, o), SourceOf(end, o));
  }

  lemma RequestIsServed(info: IstioInfo, origin: System, end: System, o: string)
    requires FollowsFrom(origin, end) && Quiet(info, end, o)
    requires Eligible(SourceOf(origin, o)) && SourceOf(origin, o).route !in ForeignServices(origin.istio)
    ensures SourceOf(origin, o).route in HeldRoutes(end.istio)
  {
  }

  /** An owner without a rival gets its route in every order: no other eligible source asks for it,
      no other fresh record holds it, and it is not foreign. */
  lemma UncontestedOwnerWins(info: IstioInfo, sys: System, first: seq<string>, second: seq<string>, o: string)
    requires LeaseInv(sys.istio) && VisitsAll(sys, first) && VisitsAll(sys, second)
    requires Eligible(SourceOf(sys, o)) && SourceOf(sys, o).route !in ForeignServices(sys.istio)
    requires forall p :: p != o && Eligible(SourceOf(sys, p)) ==> SourceOf(sys, p).route != SourceOf(sys, o).route
    requires forall p :: p != o && p in sys.istio.records && Fresh(sys, p) ==>
      sys.istio.records[p] != SourceOf(sys, o).route
    ensures var end := SyncAll(info, sys, first + second);
      o in end.istio.records && end.istio.records[o] == SourceOf(sys, o).route
  {
    var end := SyncAll(info, sys, first + second);
    var route := SourceOf(sys, o).route;
    TwoPassesSettle(info, sys, first, second);
    RunFollows(info, sys, sys, first + second);
    assert Quiet(info, end, o);
    RequestIsServed(info, sys, end, o);
    var p :| p in end.istio.records && end.istio.records[p] == route;
    assert Quiet(info, end, p);
    QuietIsFresh(info, end, p);
    assert RecordFollows(sys, end, p) && SameRequest(SourceOf(sys, p), SourceOf(end, p));
  }

  /** Who gets a contested route is a matter of order: whichever eligible key is synced first on a
      route nobody has keeps it through every further schedule. */
  lemma FirstVisitorWins(info: IstioInfo, sys: System, rest: seq<string>, o: string)
    requires LeaseInv(sys.istio) && Eligible(SourceOf(sys, o))
    requires SourceOf(sys, o).route !in ForeignServices(sys.istio) && SourceOf(sys, o).route !in HeldRoutes(sys.istio)
    ensures HoldsRoute(SyncAll(info, sys, [o] + rest).istio, o, SourceOf(sys, o).route)
  {
    var next := Sync(info, sys, o);
    assert ([o] + rest)[1..] == rest;
    BranchByHolder(info, sys.istio, o, SourceOf(sys, o));
    ReconcileKeepsLeases(info, sys.istio, o, SourceOf(sys, o));
    SyncMakesReady(info, sys, o);
    RunFollows(info, next, next, rest);
    assert RecordFollows(next, SyncAll(info, next, rest), o);
  }

  /** So for two rivals there are passes that differ only in which of the two comes first, and that
      leave different holders, for good. */
  lemma WinnerDependsOnOrder(info: IstioInfo, sys: System, rest: seq<string>, o: string, p: string)
    requires LeaseInv(sys.istio) && o != p
    requires Eligible(SourceOf(sys, o)) && Eligible(SourceOf(sys, p))
    requires SourceOf(sys, o).route == SourceOf(sys, p).route
    requires SourceOf(sys, o).route !in ForeignServices(sys.istio) && SourceOf(sys, o).route !in HeldRoutes(sys.istio)
    ensures var route := SourceOf(sys, o).route;
      var (t, u) := (SyncAll(info, sys, [o, p] + rest).istio, SyncAll(info, sys, [p, o] + rest).istio);
      && HoldsRoute(t, o, route) && !HoldsRoute(t, p, route)
      && HoldsRoute(u, p, route) && !HoldsRoute(u, o, route)
  {
    assert [o, p] + rest == [o] + ([p] + rest) && [p, o] + rest == [p] + ([o] + rest);
    FirstVisitorWins(info, sys, [p] + rest, o);
    FirstVisitorWins(info, sys, [o] + rest, p);
    PassMakesReady(info, sys, [o, p] + rest);
    PassMakesReady(info, sys, [p, o] + rest);
  }
}
