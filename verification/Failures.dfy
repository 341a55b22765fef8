/** What one call that fails unnoticed can do, as runs from idle workers in which nothing else fails:
    the two hypotheses of coverage, and the three of staying on track, are each needed. */
module Failures {
  import opened Model
  import opened Reconciler
  import opened Leases
  import opened Calls
  import opened Workers
  import opened Races
  import opened Updates

  // -------------------------------------------------------------------- runs of one job

  function Job(w: nat, owner: string, src: Source, answered: bool): seq<Action> {
    [Action(w, Take(owner)), Action(w, Look(src, answered))]
  }

  function Succeeds(w: nat, n: nat): seq<Action> {
    if n == 0 then [] else [Action(w, Succeed)] + Succeeds(w, n - 1)
  }

  /** A job in which i calls succeed, one fails, and j more succeed. */
  function FailsOnce(w: nat, owner: string, src: Source, i: nat, j: nat): seq<Action> {
    Job(w, owner, src, true) + (Succeeds(w, i) + ([Action(w, Fail)] + Succeeds(w, j)))
  }

  lemma {:induction false} RunSucceeds(info: IstioInfo, c: Cluster, w: nat, n: nat)
    ensures RunWorkers(info, c, Succeeds(w, n)) == SucceedTimes(info, c, w, n)
    decreases n
  {
    if n > 0 {
      assert Succeeds(w, n)[1..] == Succeeds(w, n - 1);
      RunSucceeds(info, Do(info, c, Action(w, Succeed)), w, n - 1);
    }
  }

  /** The worker stands where the look has left it, and nothing else has changed. */
  function Begun(c: Cluster, w: nat, owner: string, src: Source, answered: bool): Cluster
    requires w < |c.workers|
  {
    c.(workers := c.workers[w := AfterLook(c.istio, owner, src, answered)])
  }

  lemma RunJob(info: IstioInfo, c: Cluster, w: nat, owner: string, src: Source, answered: bool, rest: seq<Action>)
    requires AllIdle(c) && w < |c.workers|
    ensures RunWorkers(info, c, Job(w, owner, src, answered) + rest)
         == RunWorkers(info, Begun(c, w, owner, src, answered), rest)
  {
    var job := Job(w, owner, src, answered);
    var (take, look) := (job[0], job[1]);
    var started := Do(info, c, take);
    assert started == c.(workers := c.workers[w := Started(owner)]);
    assert Do(info, started, look).workers == Begun(c, w, owner, src, answered).workers;
    assert (job + rest)[1..] == [look] + rest && ([look] + rest)[1..] == rest;
  }

  lemma RunFailsOnce(info: IstioInfo, c: Cluster, w: nat, owner: string, src: Source, i: nat, j: nat)
    requires AllIdle(c) && w < |c.workers|
    ensures RunWorkers(info, c, FailsOnce(w, owner, src, i, j))
         == SucceedTimes(info, Do(info, SucceedTimes(info, Begun(c, w, owner, src, true), w, i), Action(w, Fail)), w, j)
  {
    var begun := Begun(c, w, owner, src, true);
    var rest := [Action(w, Fail)] + Succeeds(w, j);
    RunJob(info, c, w, owner, src, true, Succeeds(w, i) + rest);
    RunAppend(info, begun, Succeeds(w, i), rest);
    RunSucceeds(info, begun, w, i);
    assert rest[1..] == Succeeds(w, j);
    RunSucceeds(info, Do(info, SucceedTimes(info, begun, w, i), Action(w, Fail)), w, j);
  }

  // ------------------------------------------------------------------ what a failure is

  /** A failed call has no effect, and, the two lookups apart, the worker goes on as if it had
      succeeded. */
  lemma FailedCallHasNoEffect(info: IstioInfo, c: Cluster, w: nat)
    requires w < |c.workers| && WellFormed(c.workers[w])
    ensures var (failed, done) := (RunWorkers(info, c, [Action(w, Fail)]), RunWorkers(info, c, [Action(w, Succeed)]));
      && failed.istio == c.istio && failed.made == c.made
      && (!c.workers[w].Checking? && !c.workers[w].Checked? ==> failed.workers == done.workers)
  {
    RunOne(info, c, Action(w, Fail));
    RunOne(info, c, Action(w, Succeed));
  }

  /** A failed lookup of the Istio service is taken for a found one: a key without a record is turned
      away, even from a free route. A key with a record updates all the same. */
  lemma FailedServiceCheckTurnsAway(info: IstioInfo, c: Cluster, w: nat, owner: string, src: Source, i: nat, j: nat)
    requires AllIdle(c) && w < |c.workers| && Eligible(src) && i == 1 && j >= 2
    requires owner in c.istio.records ==> c.istio.records[owner] == src.route
    ensures var d := RunWorkers(info, c, FailsOnce(w, owner, src, i, j));
      && AllIdle(d)
      && d.istio == if owner in c.istio.records
                    then Perform(info, c.istio, owner, Refresh(src.route, src.backend.value)) else c.istio
  {
    var begun := Begun(c, w, owner, src, true);
    RunFailsOnce(info, c, w, owner, src, i, j);
    OneSucceed(info, begun, w, i);
    var failed := Do(info, Next(info, begun, w, Succeed), Action(w, Fail));
    assert SucceedTimes(info, begun, w, i) == Next(info, begun, w, Succeed);
    if owner in c.istio.records {
      SoloUpdate(info, failed, w, owner, src, j);
    } else {
      SoloReport(info, failed, w, owner, j);
    }
  }

  // ------------------------------------------------- the two hypotheses of coverage

  /** Part of a release: n of its calls, of which the last is not the record's. */
  lemma {:induction false} ReleaseAdvances(info: IstioInfo, c: Cluster, w: nat, s: Istio, owner: string, src: Source,
                                           route: string, next: nat, n: nat)
    requires w < |c.workers| && next + n <= 5 && c.workers[w] == Releasing(owner, src, route, next)
    requires c.istio == ReleasePrefix(info, s, owner, route, next)
    ensures var d := SucceedTimes(info, c, w, n);
      && d.istio == ReleasePrefix(info, s, owner, route, next + n)
      && d.workers == c.workers[w := Releasing(owner, src, route, next + n)]
    decreases n
  {
    if n == 0 {
      assert c.workers[w := Releasing(owner, src, route, next)] == c.workers;
    } else {
      OneSucceed(info, c, w, n);
      ReleaseAdvances(info, Next(info, c, w, Succeed), w, s, owner, src, route, next + 1, n - 1);
    }
  }

  lemma {:induction false} ReleaseGoesOn(info: IstioInfo, c: Cluster, w: nat, owner: string, src: Source, route: string,
                                         next: nat, kind: Kind)
    requires w < |c.workers| && Index(kind) < next < 6 && c.workers[w] == Releasing(owner, src, route, next)
    ensures var d := SucceedTimes(info, c, w, 6 - next);
      && d.istio.records == Deleted(c.istio.records, owner)
      && (Has(c.istio, kind, route) ==> Has(d.istio, kind, route))
    decreases 6 - next
  {
    OneSucceed(info, c, w, 6 - next);
    if next < 5 {
      ReleaseGoesOn(info, Next(info, c, w, Succeed), w, owner, src, route, next + 1, kind);
    }
  }

  /** A whole sync that creates a route, then one with the source gone in which only the delete of
      one kind fails. */
  function CreateThenFailDelete(w: nat, owner: string, src: Source, kind: Kind, n: nat): seq<Action> {
    (Job(w, owner, src, true) + Succeeds(w, n)) + FailsOnce(w, owner, Absent, Index(kind), 5 - Index(kind))
  }

  /** One failed delete of any of the four kinds orphans its object: it was not there at the start,
      it is there at the end, and no record covers it. */
  lemma FailedDeleteOrphans(info: IstioInfo, c: Cluster, w: nat, owner: string, src: Source, kind: Kind, n: nat)
    requires Initial(c) && w < |c.workers| && Eligible(src) && n == 15
    requires owner !in c.istio.records && src.route !in HeldRoutes(c.istio) && !Has(c.istio, kind, src.route)
    requires src.route !in c.istio.services
    ensures var d := RunWorkers(info, c, CreateThenFailDelete(w, owner, src, kind, n));
      Has(d.istio, kind, src.route) && !Covered(d, kind, src.route)
  {
    var first := Job(w, owner, src, true) + Succeeds(w, n);
    WholeJob(info, c, w, owner, src, n);
    CreateGivesLease(info, c.istio, owner, src, kind);
    LeaseThenFailedDelete(info, c, first, w, owner, src.route, kind);
  }

  lemma LeaseThenFailedDelete(info: IstioInfo, c: Cluster, first: seq<Action>, w: nat, owner: string, route: string,
                              kind: Kind)
    requires route !in HeldRoutes(c.istio) && route != ""
    requires var made := RunWorkers(info, c, first);
      && AllIdle(made) && w < |made.workers|
      && made.istio.records == c.istio.records[owner := route] && Has(made.istio, kind, route)
    ensures var d := RunWorkers(info, c, first + FailsOnce(w, owner, Absent, Index(kind), 5 - Index(kind)));
      Has(d.istio, kind, route) && !Covered(d, kind, route)
  {
    FailedDeleteLeaves(info, RunWorkers(info, c, first), w, owner, route, kind, Index(kind));
    ThenUncovered(info, c, first, FailsOnce(w, owner, Absent, Index(kind), 5 - Index(kind)), owner, kind, route);
  }

  lemma ThenUncovered(info: IstioInfo, c: Cluster, first: seq<Action>, second: seq<Action>, owner: string, kind: Kind,
                      route: string)
    requires route !in HeldRoutes(c.istio)
    requires var made := RunWorkers(info, c, first);
      var d := RunWorkers(info, made, second);
      && made.istio.records == c.istio.records[owner := route]
      && d.istio.records == Deleted(made.istio.records, owner) && Has(d.istio, kind, route)
    ensures var d := RunWorkers(info, c, first + second);
      Has(d.istio, kind, route) && !Covered(d, kind, route)
  {
    RunAppend(info, c, first, second);
    NoRecordNoCover(RunWorkers(info, c, first + second), c.istio, owner, kind, route);
  }

  lemma NoRecordNoCover(d: Cluster, s: Istio, owner: string, kind: Kind, route: string)
    requires route !in HeldRoutes(s) && d.istio.records == Deleted(s.records[owner := route], owner)
    ensures !Covered(d, kind, route)
  {
    assert forall o :: o in d.istio.records ==> o in s.records && d.istio.records[o] == s.records[o];
  }

  lemma CreateGivesLease(info: IstioInfo, s: Istio, owner: string, src: Source, kind: Kind)
    requires Eligible(src) && owner !in s.records && src.route !in s.services
    ensures var t := Reconcile(info, s, owner, src).istio;
      t.records == s.records[owner := src.route] && Has(t, kind, src.route)
  {
    assert Reconcile(info, s, owner, src).istio == Perform(info, s, owner, Install(src.route, src.backend.value));
  }

  lemma WholeJob(info: IstioInfo, c: Cluster, w: nat, owner: string, src: Source, n: nat)
    requires AllIdle(c) && w < |c.workers| && n >= 15
    ensures var d := RunWorkers(info, c, Job(w, owner, src, true) + Succeeds(w, n));
      AllIdle(d) && |d.workers| == |c.workers| && d.istio == Reconcile(info, c.istio, owner, src).istio
  {
    var started := c.(workers := c.workers[w := Started(owner)]);
    var begun := Begun(c, w, owner, src, true);
    RunJob(info, c, w, owner, src, true, Succeeds(w, n));
    RunSucceeds(info, begun, w, n);
    SoloWorkerIsReconcile(info, started, w, owner, src, n);
    assert Next(info, started, w, Look(src, true)).workers == begun.workers;
  }

  lemma FailedDeleteLeaves(info: IstioInfo, c: Cluster, w: nat, owner: string, route: string, kind: Kind, i: nat)
    requires AllIdle(c) && w < |c.workers| && i == Index(kind)
    requires HoldsRoute(c.istio, owner, route) && route != "" && Has(c.istio, kind, route)
    ensures var d := RunWorkers(info, c, FailsOnce(w, owner, Absent, i, 5 - i));
      d.istio.records == Deleted(c.istio.records, owner) && Has(d.istio, kind, route)
  {
    var begun := Begun(c, w, owner, Absent, true);
    RunFailsOnce(info, c, w, owner, Absent, i, 5 - i);
    ReleaseAdvances(info, begun, w, c.istio, owner, Absent, route, 0, i);
    ReleasePrefixStores(info, c.istio, owner, route, i);
    var failed := Do(info, SucceedTimes(info, begun, w, i), Action(w, Fail));
    ReleaseGoesOn(info, failed, w, owner, Absent, route, i + 1, kind);
  }

  lemma {:induction false} CreateGoesOn(info: IstioInfo, c: Cluster, w: nat, owner: string, src: Source,
                                        next: nat, kind: Kind)
    requires w < |c.workers| && 1 <= next <= Index(kind) + 1 && Eligible(src)
    requires c.workers[w] == Creating(owner, src, next)
    ensures var d := SucceedTimes(info, c, w, Index(kind) + 2 - next);
      d.istio.records == c.istio.records && Has(d.istio, kind, src.route)
    decreases 6 - next
  {
    OneSucceed(info, c, w, Index(kind) + 2 - next);
    if next <= Index(kind) {
      CreateGoesOn(info, Next(info, c, w, Succeed), w, owner, src, next + 1, kind);
    }
  }

  /** One failed record create, and every object made after it is orphaned. */
  lemma FailedRecordOrphans(info: IstioInfo, c: Cluster, w: nat, owner: string, src: Source, kind: Kind, i: nat)
    requires Initial(c) && w < |c.workers| && Eligible(src) && i == 2
    requires owner !in c.istio.records && src.route !in HeldRoutes(c.istio) && !Has(c.istio, kind, src.route)
    requires src.route !in c.istio.services
    ensures var d := RunWorkers(info, c, FailsOnce(w, owner, src, i, Index(kind) + 1));
      Has(d.istio, kind, src.route) && !Covered(d, kind, src.route)
  {
    var begun := Begun(c, w, owner, src, true);
    RunFailsOnce(info, c, w, owner, src, i, Index(kind) + 1);
    SoloLooks(info, begun, w, owner, src, i);
    var decided := c.(workers := c.workers[w := Creating(owner, src, 0)]);
    assert begun.workers[w := Creating(owner, src, 0)] == decided.workers;
    CreateGoesOn(info, Do(info, decided, Action(w, Fail)), w, owner, src, 1, kind);
  }

  // ----------------------------------------------- the three ways of losing track

  /** The route's service has the ports of a source whose owner holds another route, or none. */
  predicate Overwritten(s: Istio, t: Istio, owner: string, src: Source)
    requires Eligible(src)
  {
    && t.records == s.records && !HoldsRoute(s, owner, src.route)
    && src.route in s.services && src.route in t.services
    && t.services[src.route] == ZeroNodePorts(src.backend.value.ports)
  }

  /** Two steps after a second look that found, or seemed to find, a record. */
  lemma UpdateGoesOn(info: IstioInfo, c: Cluster, w: nat, owner: string, src: Source, n: nat)
    requires w < |c.workers| && Eligible(src) && c.workers[w] == Checked(owner, src, false) && n == 2
    ensures SucceedTimes(info, c, w, n).istio == UpdateCall(c.istio, src.route, src.backend.value, 0)
  {
    OneSucceed(info, c, w, n);
    OneSucceed(info, Next(info, c, w, Succeed), w, n - 1);
  }

  lemma CheckThenUpdate(info: IstioInfo, c: Cluster, w: nat, owner: string, src: Source, n: nat)
    requires w < |c.workers| && Eligible(src) && c.workers[w] == Checking(owner, src) && n == 3
    requires owner in c.istio.records
    ensures SucceedTimes(info, c, w, n).istio == UpdateCall(c.istio, src.route, src.backend.value, 0)
  {
    OneSucceed(info, c, w, n);
    UpdateGoesOn(info, Next(info, c, w, Succeed), w, owner, src, n - 1);
  }

  /** A key without a record whose second record lookup fails rewrites the service of whoever holds
      the route. */
  lemma FailedCheckOverwrites(info: IstioInfo, c: Cluster, w: nat, owner: string, src: Source, j: nat)
    requires Initial(c) && w < |c.workers| && Eligible(src) && j == 2
    requires owner !in c.istio.records && src.route in c.istio.services
    ensures Overwritten(c.istio, RunWorkers(info, c, FailsOnce(w, owner, src, 0, j)).istio, owner, src)
  {
    var begun := Begun(c, w, owner, src, true);
    RunFailsOnce(info, c, w, owner, src, 0, j);
    UpdateGoesOn(info, Do(info, begun, Action(w, Fail)), w, owner, src, j);
  }

  /** So does a key whose record names another route and whose first record lookup fails: nothing
      is released, and the second lookup finds the old record. */
  lemma FailedLookOverwrites(info: IstioInfo, c: Cluster, w: nat, owner: string, src: Source, n: nat)
    requires Initial(c) && w < |c.workers| && Misnamed(c.istio, owner, src) && n == 3
    requires src.route in c.istio.services
    ensures Overwritten(c.istio, RunWorkers(info, c, Job(w, owner, src, false) + Succeeds(w, n)).istio, owner, src)
  {
    var begun := Begun(c, w, owner, src, false);
    RunJob(info, c, w, owner, src, false, Succeeds(w, n));
    RunSucceeds(info, begun, w, n);
    CheckThenUpdate(info, begun, w, owner, src, n);
  }

  /** And so does one whose old record survives its release, because the record delete fails. */
  lemma FailedRecordDeleteOverwrites(info: IstioInfo, c: Cluster, w: nat, owner: string, src: Source, i: nat, j: nat)
    requires Initial(c) && w < |c.workers| && Misnamed(c.istio, owner, src) && i == 5 && j == 3
    requires c.istio.records[owner] != "" && src.route in c.istio.services
    ensures Overwritten(c.istio, RunWorkers(info, c, FailsOnce(w, owner, src, i, j)).istio, owner, src)
  {
    var begun := Begun(c, w, owner, src, true);
    var route := c.istio.records[owner];
    RunFailsOnce(info, c, w, owner, src, i, j);
    ReleaseAdvances(info, begun, w, c.istio, owner, src, route, 0, i);
    ReleasePrefixStores(info, c.istio, owner, route, i);
    CheckThenUpdate(info, Do(info, SucceedTimes(info, begun, w, i), Action(w, Fail)), w, owner, src, j);
  }
}
