/** How the interleaved machine relates to the serialised one: a worker left alone does exactly one
    Reconcile; and where the lack of atomicity breaks what serialised runs keep. */
module Races {
  import opened Model
  import opened Reconciler
  import opened Leases
  import opened Calls
  import opened Workers

  // ------------------------------------------------------------ one worker, undisturbed

  function SucceedTimes(info: IstioInfo, c: Cluster, w: nat, n: nat): Cluster
    decreases n
  {
    if n == 0 then c else SucceedTimes(info, Do(info, c, Action(w, Succeed)), w, n - 1)
  }

  lemma {:induction false} SucceedAdd(info: IstioInfo, c: Cluster, w: nat, m: nat, n: nat)
    ensures SucceedTimes(info, c, w, m + n) == SucceedTimes(info, SucceedTimes(info, c, w, m), w, n)
    decreases m
  {
    if m > 0 {
      SucceedAdd(info, Do(info, c, Action(w, Succeed)), w, m - 1, n);
    }
  }

  lemma OneSucceed(info: IstioInfo, c: Cluster, w: nat, n: nat)
    requires w < |c.workers| && WellFormed(c.workers[w]) && n > 0
    ensures SucceedTimes(info, c, w, n) == SucceedTimes(info, Next(info, c, w, Succeed), w, n - 1)
  {
  }

  lemma {:induction false} IdleStays(info: IstioInfo, c: Cluster, w: nat, n: nat)
    requires w < |c.workers| && c.workers[w].Idle?
    ensures SucceedTimes(info, c, w, n) == c
    decreases n
  {
    if n > 0 {
      IdleStays(info, c, w, n - 1);
    }
  }

  lemma {:induction false} SoloRelease(info: IstioInfo, c: Cluster, w: nat, s: Istio, owner: string, src: Source,
                                       route: string, next: nat, n: nat)
    requires w < |c.workers| && next < 6 <= next + n && c.workers[w] == Releasing(owner, src, route, next)
    requires c.istio == ReleasePrefix(info, s, owner, route, next)
    ensures exists d: Cluster ::
      && d.istio == Perform(info, s, owner, Withdraw(route))
      && d.workers == c.workers[w := AfterRelease(owner, src)]
      && SucceedTimes(info, c, w, n) == SucceedTimes(info, d, w, n - (6 - next))
    decreases 6 - next
  {
    var d := Next(info, c, w, Succeed);
    assert d.istio == ReleasePrefix(info, s, owner, route, next + 1);
    assert SucceedTimes(info, c, w, n) == SucceedTimes(info, d, w, n - 1);
    if next < 5 {
      SoloRelease(info, d, w, s, owner, src, route, next + 1, n - 1);
    } else {
      CompletedRelease(info, s, owner, route, next + 1);
    }
  }

  lemma CreateStep(info: IstioInfo, c: Cluster, w: nat, s: Istio, owner: string, src: Source, next: nat)
    requires w < |c.workers| && next < 6 && Eligible(src) && c.workers[w] == Creating(owner, src, next)
    requires c.istio == CreatePrefix(info, s, owner, src.route, src.backend.value, next)
    ensures var d := Next(info, c, w, Succeed);
      && d.istio == CreatePrefix(info, s, owner, src.route, src.backend.value, next + 1)
      && d.workers == c.workers[w := if next == 5 then Reporting(owner) else Creating(owner, src, next + 1)]
  {
  }

  lemma {:induction false} SoloCreate(info: IstioInfo, c: Cluster, w: nat, s: Istio, owner: string, src: Source,
                                      next: nat, n: nat, all: nat)
    requires w < |c.workers| && next < all == 6 < next + n && Eligible(src)
    requires c.workers[w] == Creating(owner, src, next)
    requires c.istio == CreatePrefix(info, s, owner, src.route, src.backend.value, next)
    ensures var d := SucceedTimes(info, c, w, n);
      && d.istio == CreatePrefix(info, s, owner, src.route, src.backend.value, all)
      && d.workers == c.workers[w := Idle]
    decreases all - next
  {
    var d := Next(info, c, w, Succeed);
    CreateStep(info, c, w, s, owner, src, next);
    OneSucceed(info, c, w, n);
    if next < 5 {
      SoloCreate(info, d, w, s, owner, src, next + 1, n - 1, all);
    } else {
      SoloReport(info, d, w, owner, n - 1);
    }
  }

  lemma SoloReport(info: IstioInfo, c: Cluster, w: nat, owner: string, n: nat)
    requires w < |c.workers| && c.workers[w] == Reporting(owner) && n > 0
    ensures var d := SucceedTimes(info, c, w, n);
      d.istio == c.istio && d.workers == c.workers[w := Idle]
  {
    IdleStays(info, Next(info, c, w, Succeed), w, n - 1);
  }

  lemma SoloUpdate(info: IstioInfo, c: Cluster, w: nat, owner: string, src: Source, n: nat)
    requires w < |c.workers| && Eligible(src) && c.workers[w] == Updating(owner, src, 0) && n >= 2
    ensures var d := SucceedTimes(info, c, w, n);
      && d.istio == Perform(info, c.istio, owner, Refresh(src.route, src.backend.value))
      && d.workers == c.workers[w := Idle]
  {
    var half := Next(info, c, w, Succeed);
    var done := Next(info, half, w, Succeed);
    assert SucceedTimes(info, c, w, n) == SucceedTimes(info, half, w, n - 1);
    assert SucceedTimes(info, half, w, n - 1) == SucceedTimes(info, done, w, n - 2);
    IdleStays(info, done, w, n - 2);
  }

  lemma SoloLooks(info: IstioInfo, c: Cluster, w: nat, owner: string, src: Source, n: nat)
    requires w < |c.workers| && Eligible(src) && c.workers[w] == Checking(owner, src) && n >= 2
    ensures var decided := AfterServiceLookup(c.istio, Checked(owner, src, owner !in c.istio.records), false);
      SucceedTimes(info, c, w, n) == SucceedTimes(info, c.(workers := c.workers[w := decided]), w, n - 2)
  {
    var once := Next(info, c, w, Succeed);
    var twice := Next(info, once, w, Succeed);
    assert SucceedTimes(info, c, w, n) == SucceedTimes(info, once, w, n - 1) == SucceedTimes(info, twice, w, n - 2);
    assert twice.workers == c.workers[w := twice.workers[w]];
  }

  /** The part after the release: nine undisturbed steps take the branch of a whole sync. */
  lemma SoloBranch(info: IstioInfo, c: Cluster, w: nat, owner: string, src: Source, n: nat)
    requires w < |c.workers| && c.workers[w] == AfterRelease(owner, src) && n >= 9
    ensures var d := SucceedTimes(info, c, w, n);
      && d.istio == Perform(info, c.istio, owner, BranchAct(c.istio, owner, src))
      && d.workers == c.workers[w := Idle]
  {
    if !Eligible(src) {
      IdleStays(info, c, w, n);
    } else {
      SoloLooks(info, c, w, owner, src, n);
      var phase := AfterServiceLookup(c.istio, Checked(owner, src, owner !in c.istio.records), false);
      var decided := c.(workers := c.workers[w := phase]);
      match BranchOf(c.istio, owner, src)
      case Update => SoloUpdate(info, decided, w, owner, src, n - 2);
      case Conflict => SoloReport(info, decided, w, owner, n - 2);
      case Create =>
        var all := 6;
        SoloCreate(info, decided, w, c.istio, owner, src, 0, n - 2, all);
        CompletedCreate(info, c.istio, owner, src.route, src.backend.value, all);
    }
  }

  /** A worker whose calls all succeed and whom nobody interrupts does exactly one whole sync, in
      at most fifteen calls. */
  lemma SoloWorkerIsReconcile(info: IstioInfo, c: Cluster, w: nat, owner: string, src: Source, n: nat)
    requires w < |c.workers| && c.workers[w] == Started(owner) && n >= 15
    ensures var d := SucceedTimes(info, Next(info, c, w, Look(src, true)), w, n);
      && d.istio == Reconcile(info, c.istio, owner, src).istio
      && d.workers == c.workers[w := Idle]
  {
    var looked := Next(info, c, w, Look(src, true));
    var route := RouteToDelete(c.istio, owner, src);
    if route == "" {
      SoloBranch(info, looked, w, owner, src, n);
    } else {
      SoloRelease(info, looked, w, c.istio, owner, src, route, 0, n);
      var d: Cluster :|
        && d.istio == Perform(info, c.istio, owner, Withdraw(route))
        && d.workers == looked.workers[w := AfterRelease(owner, src)]
        && SucceedTimes(info, looked, w, n) == SucceedTimes(info, d, w, n - (6 - 0));
      SoloBranch(info, d, w, owner, src, n - 6);
    }
  }

  // -------------------------------------------------------------------- unique ownership

  ghost predicate UniqueRoutes(s: Istio) {
    forall o, p :: o in s.records && p in s.records && o != p ==> s.records[o] != s.records[p]
  }

  /** Unique ownership survives every step but one: a record create for a route that another
      record already names. */
  lemma UniqueUnlessLateRecord(info: IstioInfo, c: Cluster, w: nat, choice: Choice)
    requires WorkersInv(c) && UniqueRoutes(c.istio) && w < |c.workers|
    ensures UniqueRoutes(Next(info, c, w, choice).istio)
       <==> !(c.workers[w].Creating? && c.workers[w].next == 0 && choice == Succeed
              && c.workers[w].source.route in HeldRoutes(c.istio))
  {
    var d := Next(info, c, w, choice);
    assert WellFormed(c.workers[w]) && OwnRecord(c.istio, c.workers[w]);
    if c.workers[w].Creating? && c.workers[w].next == 0 && choice == Succeed {
      var owner, route := c.workers[w].owner, c.workers[w].source.route;
      assert d.istio.records == c.istio.records[owner := route];
      if route in HeldRoutes(c.istio) {
        var o :| o in c.istio.records && c.istio.records[o] == route;
        assert d.istio.records[o] == d.istio.records[owner];
      }
    }
  }

  /** And that step is reachable without any failure or crash: two workers that look at the same
      free route before either writes its record both get a record for it. The checks and the create
      are not atomic. */
  lemma RaceGivesTwoHolders(info: IstioInfo, c: Cluster, o: string, p: string, src: Source, psrc: Source)
    requires Initial(c) && |c.workers| >= 2 && o != p
    requires Eligible(src) && Eligible(psrc) && src.route == psrc.route
    requires o !in c.istio.records && p !in c.istio.records && src.route !in c.istio.services
    ensures exists actions :: TwoHoldersAfter(info, c, actions, o, p, src.route)
    ensures forall actions :: TwoHoldersAfter(info, c, actions, o, p, src.route)
              ==> !UniqueRoutes(RunWorkers(info, c, actions).istio)
  {
    var c1 := c.(workers := c.workers[0 := Checking(o, src)]);
    var c2 := c.(workers := c1.workers[1 := Checking(p, psrc)]);
    BothDecide(info, c2, o, p, src, psrc);
    var rest :| TwoHoldersAfter(info, c2, rest, o, p, src.route);
    var started := c.(workers := c.workers[0 := Started(o)]);
    var second := c1.(workers := c1.workers[1 := Started(p)]);
    assert Next(info, c, 0, Take(o)) == started;
    assert Next(info, started, 0, Look(src, true)) == c1 by {
      assert c1.workers == started.workers[0 := Checking(o, src)];
    }
    assert Next(info, c1, 1, Take(p)) == second;
    assert Next(info, second, 1, Look(psrc, true)) == c2 by {
      assert c2.workers == second.workers[1 := Checking(p, psrc)];
    }
    var more := OneMore(info, second, Action(1, Look(psrc, true)), rest, o, p, src.route);
    more := OneMore(info, c1, Action(1, Take(p)), more, o, p, src.route);
    more := OneMore(info, started, Action(0, Look(src, true)), more, o, p, src.route);
    more := OneMore(info, c, Action(0, Take(o)), more, o, p, src.route);
  }

  /** A run without failures of the protected calls ends with two records for one route. */
  ghost predicate TwoHoldersAfter(info: IstioInfo, c: Cluster, actions: seq<Action>,
                                  o: string, p: string, route: string)
  {
    var t := RunWorkers(info, c, actions).istio;
    && ReliableRun(info, c, actions) && o != p
    && o in t.records && p in t.records && t.records[o] == t.records[p] == route
  }

  lemma OneMore(info: IstioInfo, c: Cluster, act: Action, rest: seq<Action>, o: string, p: string, route: string)
    returns (actions: seq<Action>)
    requires act.worker < |c.workers| && WellFormed(c.workers[act.worker])
    requires Reliable(c.workers[act.worker], act.choice)
    requires TwoHoldersAfter(info, Next(info, c, act.worker, act.choice), rest, o, p, route)
    ensures TwoHoldersAfter(info, c, actions, o, p, route)
  {
    actions := [act] + rest;
    assert actions[1..] == rest;
  }

  lemma BothDecide(info: IstioInfo, c: Cluster, o: string, p: string, src: Source, psrc: Source)
    requires |c.workers| >= 2 && o != p
    requires Eligible(src) && Eligible(psrc) && src.route == psrc.route
    requires c.workers[0] == Checking(o, src) && c.workers[1] == Checking(p, psrc)
    requires o !in c.istio.records && p !in c.istio.records && src.route !in c.istio.services
    ensures exists actions :: TwoHoldersAfter(info, c, actions, o, p, src.route)
  {
    var c1 := Next(info, c, 0, Succeed);
    var c2 := Next(info, c1, 0, Succeed);
    var c3 := Next(info, c2, 1, Succeed);
    var c4 := Next(info, c3, 1, Succeed);
    BothCreate(info, c4, o, p, src, psrc);
    var more :| TwoHoldersAfter(info, c4, more, o, p, src.route);
    more := OneMore(info, c3, Action(1, Succeed), more, o, p, src.route);
    more := OneMore(info, c2, Action(1, Succeed), more, o, p, src.route);
    more := OneMore(info, c1, Action(0, Succeed), more, o, p, src.route);
    more := OneMore(info, c, Action(0, Succeed), more, o, p, src.route);
  }

  lemma BothCreate(info: IstioInfo, c: Cluster, o: string, p: string, src: Source, psrc: Source)
    requires |c.workers| >= 2 && o != p
    requires Eligible(src) && Eligible(psrc) && src.route == psrc.route
    requires c.workers[0] == Creating(o, src, 0) && c.workers[1] == Creating(p, psrc, 0)
    requires o !in c.istio.records && p !in c.istio.records
    ensures exists actions :: TwoHoldersAfter(info, c, actions, o, p, src.route)
  {
    var c1 := Next(info, c, 0, Succeed);
    var c2 := Next(info, c1, 1, Succeed);
    assert TwoHoldersAfter(info, c2, [], o, p, src.route);
    var more := OneMore(info, c1, Action(1, Succeed), [], o, p, src.route);
    more := OneMore(info, c, Action(0, Succeed), more, o, p, src.route);
  }

  /** The loser pays: when one of two holders leaves, the other keeps a record without objects. */
  lemma SecondHolderLosesObjects(info: IstioInfo, s: Istio, o: string, p: string)
    requires o in s.records && p in s.records && o != p && s.records[o] == s.records[p] != ""
    ensures var t := Reconcile(info, s, o, Absent).istio;
      && p in t.records && t.records[p] == s.records[p]
      && forall kind :: !Has(t, kind, t.records[p])
  {
  }

  /** Even without a second worker: a create that crashed lets another key in exactly until the
      service of the route exists. */
  lemma CrashLetsSecondHolderIn(info: IstioInfo, s: Istio, o: string, src: Source, p: string, psrc: Source, n: nat)
    requires o !in s.records && p !in s.records && o != p && 1 <= n <= 6
    requires Eligible(src) && Eligible(psrc) && src.route == psrc.route && src.route !in s.services
    ensures var t := Reconcile(info, CreatePrefix(info, s, o, src.route, src.backend.value, n), p, psrc).istio;
      && o in t.records && t.records[o] == src.route
      && (p in t.records <==> n < 3)
      && (p in t.records ==> t.records[p] == src.route)
  {
    CreatePrefixStores(info, s, o, src.route, src.backend.value, n);
  }
}
