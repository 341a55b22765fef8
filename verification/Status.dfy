/** The host name a ServiceRoute shows in its status: when a sync leaves it true, when it leaves it
    stale, and whose status is true once everything has settled. */
module Status {
  import opened Wrappers
  import opened Names
  import opened Model
  import opened Reconciler
  import opened Leases
  import opened LeaseTable
  import opened Convergence
  import opened Calls

  /** Nobody has the route, neither a record nor a foreign service: a sync creates it. */
  predicate Gains(s: Istio, src: Source) {
    Eligible(src) && src.route !in ForeignServices(s) && src.route !in HeldRoutes(s)
  }

  /** Somebody else has it: a sync writes the conflict message. */
  predicate TurnedAway(s: Istio, owner: string, src: Source) {
    Eligible(src) && !Gains(s, src) && !HoldsRoute(s, owner, src.route)
  }

  /** The status shows the host of the route that is held, and of no other. */
  ghost predicate Truthful(info: IstioInfo, s: Istio, owner: string, src: Source)
    requires src.Present?
  {
    forall r :: src.status == HostOf(info, r) <==> HoldsRoute(s, owner, r)
  }

  ghost predicate ReadsAsNoHost(info: IstioInfo, status: string) {
    forall r :: status != HostOf(info, r)
  }

  // ------------------------------------------------------------------------- one sync

  predicate DnsSuffix(suffix: string) {
    suffix != "" && ' ' !in suffix
  }

  lemma TakenMessageIsNoHost(info: IstioInfo, route: string)
    requires DnsSuffix(info.suffix)
    ensures ReadsAsNoHost(info, TakenMessage(route))
  {
    var end := " routeName.";
    var message := TakenMessage(route);
    assert forall i :: 0 <= i < |end| ==> message[|message| - |end| + i] == end[i];
    forall r ensures message != HostOf(info, r) {
      var (host, n) := (HostOf(info, r), |info.suffix|);
      if n < |end| {
        assert host[|host| - n - 1] == '.' != end[|end| - n - 1];
        assert message[|message| - n - 1] == end[|end| - n - 1];
      } else {
        assert host[|host| - |end|] == info.suffix[n - |end|];
      }
    }
  }

  lemma RecordAfterSync(info: IstioInfo, s: Istio, owner: string, src: Source)
    requires LeaseInv(s) && src.Present?
    ensures forall r :: HoldsRoute(Reconcile(info, s, owner, src).istio, owner, r) <==>
      r == src.route && (HoldsRoute(s, owner, r) || Gains(s, src))
  {
    if Eligible(src) {
      BranchByHolder(info, s, owner, src);
    }
  }

  /** What one sync writes into the status of its own key. */
  lemma StatusAfterSync(info: IstioInfo, s: Istio, owner: string, src: Source)
    requires LeaseInv(s) && src.Present?
    ensures var after := Reconcile(info, s, owner, src).source;
      && after.Present? && after.route == src.route
      && after.status == if Gains(s, src) && s.gateway.Some? then HostOf(info, src.route)
                         else if TurnedAway(s, owner, src) then TakenMessage(src.route)
                         else src.status
  {
    if Eligible(src) {
      BranchByHolder(info, s, owner, src);
    }
  }

  /** A sync leaves a holder with the right status exactly when the status was right before, or the
      key ends without the route, or the sync created it and found the gateway. */
  lemma HolderShowsHost(info: IstioInfo, s: Istio, owner: string, src: Source)
    requires LeaseInv(s) && src.Present?
    ensures var out := Reconcile(info, s, owner, src);
      (HoldsRoute(out.istio, owner, src.route) ==> out.source.status == HostOf(info, src.route)) <==>
      || src.status == HostOf(info, src.route)
      || (!HoldsRoute(s, owner, src.route) && !Gains(s, src))
      || (Gains(s, src) && s.gateway.Some?)
  {
    RecordAfterSync(info, s, owner, src);
    StatusAfterSync(info, s, owner, src);
  }

  /** In both directions: what a sync leaves is true exactly when it wrote the host, or wrote a
      message that is no host, or found a status that happens to be true of the outcome. */
  lemma SyncShowsTruth(info: IstioInfo, s: Istio, owner: string, src: Source)
    requires LeaseInv(s) && src.Present?
    ensures var out := Reconcile(info, s, owner, src);
      Truthful(info, out.istio, owner, out.source) <==>
      if Gains(s, src) then s.gateway.Some? || src.status == HostOf(info, src.route)
      else if TurnedAway(s, owner, src) then ReadsAsNoHost(info, TakenMessage(src.route))
      else if HoldsRoute(s, owner, src.route) then src.status == HostOf(info, src.route)
      else ReadsAsNoHost(info, src.status)
  {
    var out := Reconcile(info, s, owner, src);
    RecordAfterSync(info, s, owner, src);
    StatusAfterSync(info, s, owner, src);
    HolderTruth(info, out.istio, owner, out.source);
  }

  /** Whoever holds the route it asks for, or none, shows the truth by showing that host, or none. */
  lemma HolderTruth(info: IstioInfo, s: Istio, owner: string, src: Source)
    requires src.Present? && (owner in s.records ==> s.records[owner] == src.route)
    ensures Truthful(info, s, owner, src) <==>
      if owner in s.records then src.status == HostOf(info, src.route) else ReadsAsNoHost(info, src.status)
  {
    forall r | HostOf(info, r) == HostOf(info, src.route) ensures r == src.route {
      FqdnInjective(r, src.route, info.suffix);
    }
    assert owner in s.records ==> HoldsRoute(s, owner, src.route);
  }

  /** A stale input: when the route name is cleared, the route is given up, and the status goes on
      showing its host. */
  lemma ClearedRouteStaysShown(info: IstioInfo, s: Istio, owner: string, backend: Option<Backend>)
    requires LeaseInv(s) && owner in s.records
    ensures var route := s.records[owner];
      var out := Reconcile(info, s, owner, Present("", HostOf(info, route), backend));
      && out.source.status == HostOf(info, route) && route !in HeldRoutes(out.istio)
      && !Truthful(info, out.istio, owner, out.source)
  {
    var route := s.records[owner];
    var out := Reconcile(info, s, owner, Present("", HostOf(info, route), backend));
    assert out.istio == Perform(info, s, owner, Withdraw(route));
    WithdrawKeepsLeases(info, s, owner);
    assert !HoldsRoute(out.istio, owner, route);
  }

  // ------------------------------------------------------------------------- schedules

  /** The owner's source asks for exactly what its record names. */
  predicate Matched(sys: System, o: string) {
    SourceOf(sys, o).Present? && HoldsRoute(sys.istio, o, SourceOf(sys, o).route)
  }

  predicate SameShown(sys: System, end: System, o: string) {
    && SourceOf(end, o).Present? && SourceOf(sys, o).Present?
    && SourceOf(end, o).route == SourceOf(sys, o).route
    && SourceOf(end, o).status == SourceOf(sys, o).status
  }

  lemma SyncKeepsMatched(info: IstioInfo, sys: System, p: string, o: string)
    requires Matched(sys, o)
    ensures Matched(Sync(info, sys, p), o) && SameShown(sys, Sync(info, sys, p), o)
  {
  }

  /** A status that was not written when its record was is never written: as long as the source
      goes on asking for the held route, every sync is an update and leaves the status alone. */
  lemma {:induction false} UnwrittenStatusStays(info: IstioInfo, sys: System, schedule: seq<string>, o: string)
    requires Matched(sys, o)
    ensures var end := SyncAll(info, sys, schedule);
      Matched(end, o) && SameShown(sys, end, o)
    decreases |schedule|
  {
    if schedule != [] {
      SyncKeepsMatched(info, sys, schedule[0], o);
      UnwrittenStatusStays(info, Sync(info, sys, schedule[0]), schedule[1..], o);
    }
  }

  /** Such a status comes from a crash: wherever a create stopped after its record, no schedule of
      later syncs shows the route that the key holds from then on. */
  lemma CrashedCreateIsNeverShown(info: IstioInfo, sys: System, o: string, n: nat, schedule: seq<string>)
    requires o in sys.sources && Eligible(sys.sources[o]) && o !in sys.istio.records && 1 <= n <= 6
    requires sys.sources[o].status != HostOf(info, sys.sources[o].route)
    ensures var src := sys.sources[o];
      var crashed := sys.(istio := CreatePrefix(info, sys.istio, o, src.route, src.backend.value, n));
      var end := SyncAll(info, crashed, schedule);
      && HoldsRoute(end.istio, o, src.route) && SourceOf(end, o).Present?
      && SourceOf(end, o).status == src.status && !Truthful(info, end.istio, o, SourceOf(end, o))
  {
    var src := sys.sources[o];
    CreatePrefixStores(info, sys.istio, o, src.route, src.backend.value, n);
    var crashed := sys.(istio := CreatePrefix(info, sys.istio, o, src.route, src.backend.value, n));
    UnwrittenStatusStays(info, crashed, schedule, o);
    var end := SyncAll(info, crashed, schedule);
    HolderTruth(info, end.istio, o, SourceOf(end, o));
  }

  // ------------------------------------------------------------------------ two passes

  /** An eligible owner that either shows the truth or does not hold the route it asks for. */
  ghost predicate Showing(info: IstioInfo, sys: System, o: string) {
    && LeaseInv(sys.istio) && sys.istio.gateway.Some? && Eligible(SourceOf(sys, o))
    && (HoldsRoute(sys.istio, o, SourceOf(sys, o).route) ==> Truthful(info, sys.istio, o, SourceOf(sys, o)))
  }

  lemma SyncKeepsShowing(info: IstioInfo, sys: System, p: string, o: string)
    requires Showing(info, sys, o) && DnsSuffix(info.suffix)
    ensures var next := Sync(info, sys, p);
      && Showing(info, next, o)
      && (p == o || Truthful(info, sys.istio, o, SourceOf(sys, o)) ==> Truthful(info, next.istio, o, SourceOf(next, o)))
  {
    var src := SourceOf(sys, o);
    ReconcileKeepsLeases(info, sys.istio, p, SourceOf(sys, p));
    if p == o {
      SyncShowsTruth(info, sys.istio, o, src);
      TakenMessageIsNoHost(info, src.route);
    } else {
      OthersUntouched(info, sys.istio, p, SourceOf(sys, p), o);
      var t := Sync(info, sys, p).istio;
      assert forall r :: HoldsRoute(t, o, r) <==> HoldsRoute(sys.istio, o, r);
    }
  }

  lemma {:induction false} PassShowsTruth(info: IstioInfo, sys: System, schedule: seq<string>, o: string)
    requires Showing(info, sys, o) && DnsSuffix(info.suffix)
    requires o in schedule || Truthful(info, sys.istio, o, SourceOf(sys, o))
    ensures var end := SyncAll(info, sys, schedule);
      SourceOf(end, o).Present? && Truthful(info, end.istio, o, SourceOf(end, o))
    decreases |schedule|
  {
    if schedule != [] {
      SyncKeepsShowing(info, sys, schedule[0], o);
      PassShowsTruth(info, Sync(info, sys, schedule[0]), schedule[1..], o);
    }
  }

  lemma SyncKeepsIdle(info: IstioInfo, sys: System, p: string, o: string)
    requires SourceOf(sys, o).Present? && !Eligible(SourceOf(sys, o))
    ensures SourceOf(Sync(info, sys, p), o) == SourceOf(sys, o)
  {
  }

  lemma {:induction false} IdleStatusStays(info: IstioInfo, sys: System, schedule: seq<string>, o: string)
    requires SourceOf(sys, o).Present? && !Eligible(SourceOf(sys, o))
    ensures SourceOf(SyncAll(info, sys, schedule), o) == SourceOf(sys, o)
    decreases |schedule|
  {
    if schedule != [] {
      SyncKeepsIdle(info, sys, schedule[0], o);
      IdleStatusStays(info, Sync(info, sys, schedule[0]), schedule[1..], o);
    }
  }

  /** Who shows the truth after two passes, read off the start: every eligible owner that did not
      hold its route yet; of those that did, the ones whose status already was its host; of the
      rest, the ones whose status named no host. */
  lemma SettledTruth(info: IstioInfo, sys: System, first: seq<string>, second: seq<string>, o: string)
    requires LeaseInv(sys.istio) && VisitsAll(sys, first) && VisitsAll(sys, second)
    requires sys.istio.gateway.Some? && DnsSuffix(info.suffix) && SourceOf(sys, o).Present?
    ensures var (src, end) := (SourceOf(sys, o), SyncAll(info, sys, first + second));
      && SourceOf(end, o).Present?
      && (Truthful(info, end.istio, o, SourceOf(end, o)) <==>
          if HoldsRoute(sys.istio, o, src.route) then src.status == HostOf(info, src.route)
          else Eligible(src) || ReadsAsNoHost(info, src.status))
  {
    var (src, end) := (SourceOf(sys, o), SyncAll(info, sys, first + second));
    if HoldsRoute(sys.istio, o, src.route) {
      UnwrittenStatusStays(info, sys, first + second, o);
      HolderTruth(info, end.istio, o, SourceOf(end, o));
    } else if Eligible(src) {
      PassShowsTruth(info, sys, first + second, o);
    } else {
      IdleStatusStays(info, sys, first + second, o);
      IdleEndsWithout(info, sys, first, second, o);
      HolderTruth(info, end.istio, o, SourceOf(end, o));
    }
  }

  lemma IdleEndsWithout(info: IstioInfo, sys: System, first: seq<string>, second: seq<string>, o: string)
    requires LeaseInv(sys.istio) && VisitsAll(sys, first) && VisitsAll(sys, second)
    requires SourceOf(sys, o).Present? && !Eligible(SourceOf(sys, o))
    requires !HoldsRoute(sys.istio, o, SourceOf(sys, o).route)
    ensures o !in SyncAll(info, sys, first + second).istio.records
  {
    var end := SyncAll(info, sys, first + second);
    TwoPassesSettle(info, sys, first, second);
    RunFollows(info, sys, sys, first + second);
    assert Quiet(info, end, o);
    QuietIsFresh(info, end, o);
    assert RecordFollows(sys, end, o) && SameRequest(SourceOf(sys, o), SourceOf(end, o));
  }

  /** Without a gateway no status ever becomes a host: a key that shows its route showed it before. */
  lemma {:induction false} NothingShownWithoutGateway(info: IstioInfo, sys: System, schedule: seq<string>, o: string)
    requires LeaseInv(sys.istio) && sys.istio.gateway.None? && DnsSuffix(info.suffix)
    requires SourceOf(sys, o).Present?
    ensures var end := SyncAll(info, sys, schedule);
      && SourceOf(end, o).Present?
      && (ReadsAsNoHost(info, SourceOf(end, o).status) || SameShown(sys, end, o))
    decreases |schedule|
  {
    if schedule != [] {
      var p := schedule[0];
      var next := Sync(info, sys, p);
      ReconcileKeepsLeases(info, sys.istio, p, SourceOf(sys, p));
      if p == o {
        StatusAfterSync(info, sys.istio, o, SourceOf(sys, o));
        TakenMessageIsNoHost(info, SourceOf(sys, o).route);
      }
      NothingShownWithoutGateway(info, next, schedule[1..], o);
    }
  }
}
