/** Serialisability: workers whose keys differ and whose old and new routes are disjoint may
    interleave their calls in any way, and leave the stores of whole syncs in any order. */
module Serial {
  import opened Wrappers
  import opened Model
  import opened Hosts
  import opened Reconciler
  import opened LeaseTable
  import opened Algebra
  import opened Calls
  import opened Workers
  import opened Races

  // ------------------------------------------------------------------------ footprints

  /** The two states agree on one record and on the objects of some routes. */
  ghost predicate Agree(s: Istio, t: Istio, owner: string, routes: set<string>) {
    SameAt(s.records, t.records, owner) && forall r :: r in routes ==> SameObjects(s, t, r)
  }

  function RoutesOf(s: Istio, job: Turn): set<string> {
    Routes(s, job.owner, job.source)
  }

  ghost predicate Unrelated(s: Istio, jobs: seq<Turn>) {
    forall v, w :: 0 <= v < w < |jobs| ==>
      jobs[v].owner != jobs[w].owner && RoutesOf(s, jobs[v]) !! RoutesOf(s, jobs[w])
  }

  /** All of the job's record and objects are as a whole sync of it, alone, would have left them. */
  ghost predicate DoneAt(info: IstioInfo, s: Istio, t: Istio, job: Turn) {
    Agree(Reconcile(info, s, job.owner, job.source).istio, t, job.owner, RoutesOf(s, job))
  }

  ghost predicate OtherOwner(jobs: seq<Turn>, o: string) {
    forall e :: e in jobs ==> e.owner != o
  }

  ghost predicate OtherRoute(s: Istio, jobs: seq<Turn>, r: string) {
    forall e :: e in jobs ==> r !in RoutesOf(s, e)
  }

  /** Off the footprints of the jobs nothing has changed. */
  ghost predicate Framed(s: Istio, t: Istio, u: Istio, jobs: seq<Turn>) {
    && (forall o :: OtherOwner(jobs, o) ==> SameAt(t.records, u.records, o))
    && (forall r :: OtherRoute(s, jobs, r) ==> SameObjects(t, u, r))
  }

  ghost predicate AllDone(info: IstioInfo, s: Istio, t: Istio, jobs: seq<Turn>) {
    (forall e :: e in jobs ==> DoneAt(info, s, t, e)) && Framed(s, s, t, jobs)
  }

  /** What all jobs done leaves is determined, gateway aside. */
  lemma AllDoneIsUnique(info: IstioInfo, s: Istio, t: Istio, u: Istio, jobs: seq<Turn>, turns: seq<Turn>)
    requires AllDone(info, s, t, jobs) && AllDone(info, s, u, turns)
    requires forall e :: e in jobs <==> e in turns
    ensures t.(gateway := None) == u.(gateway := None)
  {
    forall o ensures SameAt(t.records, u.records, o) {
      if !OtherOwner(jobs, o) {
        var e :| e in jobs && e.owner == o;
        assert DoneAt(info, s, t, e) && DoneAt(info, s, u, e);
      } else {
        assert OtherOwner(turns, o);
      }
    }
    forall r ensures SameObjects(t, u, r) {
      if !OtherRoute(s, jobs, r) {
        var e :| e in jobs && r in RoutesOf(s, e);
        assert DoneAt(info, s, t, e) && DoneAt(info, s, u, e);
      } else {
        assert OtherRoute(s, turns, r);
      }
    }
    SameStores(t, u);
  }

  lemma SameStores(t: Istio, u: Istio)
    requires (forall o :: SameAt(t.records, u.records, o)) && forall r :: SameObjects(t, u, r)
    ensures t.(gateway := None) == u.(gateway := None)
  {
    forall r
      ensures SameAt(t.endpoints, u.endpoints, r) && SameAt(t.services, u.services, r)
      ensures SameAt(t.virtualServices, u.virtualServices, r) && SameAt(t.destinationRules, u.destinationRules, r)
    {
      assert SameObjects(t, u, r);
    }
    SameEverywhere(t.records, u.records);
    SameEverywhere(t.endpoints, u.endpoints);
    SameEverywhere(t.services, u.services);
    SameEverywhere(t.virtualServices, u.virtualServices);
    SameEverywhere(t.destinationRules, u.destinationRules);
  }

  lemma SameEverywhere<V>(m: map<string, V>, n: map<string, V>)
    requires forall k :: SameAt(m, n, k)
    ensures m == n
  {
    assert forall k :: SameAt(m, n, k) ==> (k in m <==> k in n);
  }

  // ------------------------------------------------------------------------ whole syncs

  lemma ActAgrees(info: IstioInfo, s: Istio, t: Istio, owner: string, act: Act, routes: set<string>)
    requires Agree(s, t, owner, routes)
    ensures Agree(Perform(info, s, owner, act), Perform(info, t, owner, act), owner, routes)
  {
    forall r | r in routes
      ensures SameObjects(Perform(info, s, owner, act), Perform(info, t, owner, act), r)
    {
      ActSameObjects(info, s, t, owner, act, r);
    }
  }

  lemma ActSameObjects(info: IstioInfo, s: Istio, t: Istio, owner: string, act: Act, r: string)
    requires SameObjects(s, t, r)
    ensures SameObjects(Perform(info, s, owner, act), Perform(info, t, owner, act), r)
  {
  }

  lemma BranchAgrees(info: IstioInfo, s: Istio, t: Istio, owner: string, src: Source, routes: set<string>)
    requires Agree(s, t, owner, routes) && (Eligible(src) ==> src.route in routes)
    ensures BranchAct(s, owner, src) == BranchAct(t, owner, src)
  {
    assert Eligible(src) ==> SameObjects(s, t, src.route);
  }

  /** A sync does the same to its own footprint wherever that is the same. */
  lemma SyncAgrees(info: IstioInfo, s: Istio, t: Istio, job: Turn)
    requires Agree(s, t, job.owner, RoutesOf(s, job))
    ensures DoneAt(info, s, Reconcile(info, t, job.owner, job.source).istio, job)
  {
    var (o, src, routes) := (job.owner, job.source, RoutesOf(s, job));
    var (released, other) := (Release(info, s, o, src), Release(info, t, o, src));
    ActAgrees(info, s, t, o, ReleaseAct(s, o, src), routes);
    BranchAgrees(info, released, other, o, src, routes);
    ActAgrees(info, released, other, o, BranchAct(other, o, src), routes);
  }

  /** And it touches nothing else. */
  lemma SyncIsFramed(info: IstioInfo, t: Istio, job: Turn)
    ensures Framed(t, t, Reconcile(info, t, job.owner, job.source).istio, [job])
  {
    var (o, src) := (job.owner, job.source);
    var (act, other) := (ReleaseAct(t, o, src), Release(info, t, o, src));
    assert job in [job];
    forall r | OtherRoute(t, [job], r) ensures SameObjects(t, Reconcile(info, t, o, src).istio, r) {
      ActFrame(info, t, o, act, r);
      ActFrame(info, other, o, BranchAct(other, o, src), r);
    }
    RecordsFramed(info, t, o, act);
    RecordsFramed(info, other, o, BranchAct(other, o, src));
  }

  lemma RecordsFramed(info: IstioInfo, t: Istio, owner: string, act: Act)
    ensures forall o :: o != owner ==> SameAt(t.records, Perform(info, t, owner, act).records, o)
  {
  }

  lemma RestStillAgrees(s: Istio, t: Istio, next: Istio, first: Turn, rest: seq<Turn>)
    requires Unrelated(s, [first] + rest) && Framed(s, t, next, [first])
    requires forall e :: e in rest ==> Agree(s, t, e.owner, RoutesOf(s, e))
    ensures forall e :: e in rest ==> Agree(s, next, e.owner, RoutesOf(s, e))
    ensures Unrelated(s, rest)
    ensures forall e :: e in rest ==> e.owner != first.owner && RoutesOf(s, first) !! RoutesOf(s, e)
  {
    var jobs := [first] + rest;
    assert forall w :: 0 <= w < |rest| ==> rest[w] == jobs[w + 1];
    forall e | e in rest
      ensures Agree(s, next, e.owner, RoutesOf(s, e)) && e.owner != first.owner && RoutesOf(s, first) !! RoutesOf(s, e)
    {
      var w :| 0 <= w < |rest| && rest[w] == e == jobs[w + 1];
      assert jobs[0] == first && OtherOwner([first], e.owner);
      forall r | r in RoutesOf(s, e) ensures SameObjects(s, next, r) {
        assert OtherRoute(s, [first], r) && SameObjects(s, t, r);
      }
    }
  }

  /** Whole syncs of unrelated jobs, one after the other, do each of them. */
  lemma {:induction false} SerialRunIsDone(info: IstioInfo, s: Istio, t: Istio, turns: seq<Turn>)
    requires Unrelated(s, turns)
    requires forall e :: e in turns ==> Agree(s, t, e.owner, RoutesOf(s, e))
    ensures var u := Run(info, t, turns);
      (forall e :: e in turns ==> DoneAt(info, s, u, e)) && Framed(s, t, u, turns)
    decreases |turns|
  {
    if turns != [] {
      var (first, rest) := (turns[0], turns[1..]);
      var next := Reconcile(info, t, first.owner, first.source).istio;
      assert turns == [first] + rest;
      assert Agree(s, t, first.owner, RoutesOf(s, first));
      SyncAgrees(info, s, t, first);
      SyncIsFramed(info, t, first);
      assert RoutesOf(t, first) == RoutesOf(s, first);
      SameFootprintSameFrame(s, t, next, first);
      RestStillAgrees(s, t, next, first, rest);
      SerialRunIsDone(info, s, next, rest);
      FramesCompose(s, t, next, Run(info, next, rest), first, rest);
      FirstStaysDone(info, s, next, Run(info, next, rest), first, rest);
    }
  }

  lemma SameFootprintSameFrame(s: Istio, t: Istio, next: Istio, first: Turn)
    requires RoutesOf(t, first) == RoutesOf(s, first) && Framed(t, t, next, [first])
    ensures Framed(s, t, next, [first])
  {
    forall r | OtherRoute(s, [first], r) ensures OtherRoute(t, [first], r) {
      assert first in [first];
    }
  }

  lemma FramesCompose(s: Istio, t: Istio, next: Istio, u: Istio, first: Turn, rest: seq<Turn>)
    requires Framed(s, t, next, [first]) && Framed(s, next, u, rest)
    ensures Framed(s, t, u, [first] + rest)
  {
    assert forall e :: e in [first] + rest <==> e == first || e in rest;
    forall o | OtherOwner([first] + rest, o) ensures SameAt(t.records, u.records, o) {
      assert OtherOwner([first], o) && OtherOwner(rest, o);
    }
    forall r | OtherRoute(s, [first] + rest, r) ensures SameObjects(t, u, r) {
      assert OtherRoute(s, [first], r) && OtherRoute(s, rest, r);
    }
  }

  lemma FirstStaysDone(info: IstioInfo, s: Istio, next: Istio, u: Istio, first: Turn, rest: seq<Turn>)
    requires DoneAt(info, s, next, first) && Framed(s, next, u, rest) && Unrelated(s, [first] + rest)
    ensures DoneAt(info, s, u, first)
  {
    RestStillAgrees(s, s, s, first, rest);
    assert OtherOwner(rest, first.owner);
    forall r | r in RoutesOf(s, first) ensures OtherRoute(s, rest, r) {
    }
  }

  // ---------------------------------------------------------------------- single calls

  /** The worker is at its job, on the routes of the job. */
  predicate Fits(phase: Phase, s: Istio, job: Turn) {
    && WellFormed(phase)
    && match phase
       case Idle => true
       case Started(owner) => owner == job.owner
       case Releasing(owner, source, route, _) =>
         owner == job.owner && source == job.source && route in RoutesOf(s, job)
       case Checking(owner, source) => owner == job.owner && source == job.source
       case Checked(owner, source, _) => owner == job.owner && source == job.source
       case Creating(owner, source, _) => owner == job.owner && source == job.source
       case Updating(owner, source, _) => owner == job.owner && source == job.source
       case Reporting(owner) => owner == job.owner
  }

  /** What a worker may do in these runs: look at its source as its job shows it, and go on. */
  predicate OwnChoice(choice: Choice, job: Turn) {
    choice == Succeed || choice == Look(job.source, true)
  }

  /** What the next call of a worker, if it succeeds, does to the stores. */
  function Effect(info: IstioInfo, s: Istio, phase: Phase): Istio
    requires WellFormed(phase)
  {
    match phase
    case Releasing(owner, _, route, next) => ReleaseCall(info, s, owner, route, next)
    case Creating(owner, source, next) => CreateCall(info, s, owner, source.route, source.backend.value, next)
    case Updating(_, source, next) => UpdateCall(s, source.route, source.backend.value, next)
    case _ => s
  }

  lemma StepIsEffect(info: IstioInfo, c: Cluster, w: nat, choice: Choice, job: Turn)
    requires w < |c.workers| && WellFormed(c.workers[w]) && OwnChoice(choice, job)
    ensures Next(info, c, w, choice).istio == if choice == Succeed then Effect(info, c.istio, c.workers[w]) else c.istio
  {
  }

  lemma DeleteKindAgrees(s: Istio, t: Istio, kind: Kind, route: string, r: string)
    requires SameObjects(s, t, r)
    ensures SameObjects(DeleteKind(s, kind, route), DeleteKind(t, kind, route), r)
    ensures r != route ==> SameObjects(s, DeleteKind(s, kind, route), r)
    ensures DeleteKind(s, kind, route).records == s.records
  {
  }

  lemma CreateKindAgrees(info: IstioInfo, s: Istio, t: Istio, kind: Kind, route: string, backend: Backend, r: string)
    requires SameObjects(s, t, r)
    ensures SameObjects(CreateKind(info, s, kind, route, backend), CreateKind(info, t, kind, route, backend), r)
    ensures r != route ==> SameObjects(s, CreateKind(info, s, kind, route, backend), r)
    ensures CreateKind(info, s, kind, route, backend).records == s.records
  {
  }

  lemma WriteKeepsStores(info: IstioInfo, s: Istio, route: string, edit: Edit)
    ensures var t := WriteGateway(info, s, route, edit);
      && t.records == s.records && t.endpoints == s.endpoints && t.services == s.services
      && t.virtualServices == s.virtualServices && t.destinationRules == s.destinationRules
  {
  }

  /** The two states after a call agree on the objects of r, and a call off r leaves those alone. */
  ghost predicate SameCall(s: Istio, u: Istio, v: Istio, route: string, r: string) {
    SameObjects(u, v, r) && (r != route ==> SameObjects(s, u, r))
  }

  lemma ReleaseDeletes(info: IstioInfo, s: Istio, t: Istio, owner: string, route: string, i: nat, r: string)
    requires i < 4 && SameObjects(s, t, r)
    ensures var (u, v) := (ReleaseCall(info, s, owner, route, i), ReleaseCall(info, t, owner, route, i));
      SameCall(s, u, v, route, r) && u.records == s.records
  {
    DeleteKindAgrees(s, t, KindAt(i), route, r);
  }

  lemma ReleaseWrites(info: IstioInfo, s: Istio, t: Istio, owner: string, route: string, i: nat, r: string)
    requires i == 4 && SameObjects(s, t, r)
    ensures var (u, v) := (ReleaseCall(info, s, owner, route, i), ReleaseCall(info, t, owner, route, i));
      SameCall(s, u, v, route, r) && u.records == s.records
  {
    WriteKeepsStores(info, s, route, Remove);
    WriteKeepsStores(info, t, route, Remove);
  }

  lemma ReleaseDrops(info: IstioInfo, s: Istio, t: Istio, owner: string, route: string, i: nat, r: string)
    requires i == 5 && SameObjects(s, t, r)
    ensures var (u, v) := (ReleaseCall(info, s, owner, route, i), ReleaseCall(info, t, owner, route, i));
      SameCall(s, u, v, route, r) && u.records == Deleted(s.records, owner)
  {
  }

  lemma CreateCallAgrees(info: IstioInfo, s: Istio, t: Istio, owner: string, route: string, backend: Backend, i: nat,
                         r: string)
    requires i < 6 && SameObjects(s, t, r)
    ensures var u := CreateCall(info, s, owner, route, backend, i);
      var v := CreateCall(info, t, owner, route, backend, i);
      && SameCall(s, u, v, route, r)
      && u.records == if i == 0 then Created(s.records, owner, route) else s.records
  {
    if 1 <= i < 5 {
      CreateKindAgrees(info, s, t, KindAt(i - 1), route, backend, r);
    } else if i == 5 {
      WriteKeepsStores(info, s, route, Add);
      WriteKeepsStores(info, t, route, Add);
    }
  }

  lemma UpdateCallAgrees(s: Istio, t: Istio, route: string, backend: Backend, i: nat, r: string)
    requires i < 2 && SameObjects(s, t, r)
    ensures var (u, v) := (UpdateCall(s, route, backend, i), UpdateCall(t, route, backend, i));
      SameCall(s, u, v, route, r) && u.records == s.records
  {
    if i == 0 {
      assert UpdateCall(s, route, backend, i).services == Updated(s.services, route, ZeroNodePorts(backend.ports));
    }
  }

  function RouteOf(phase: Phase): string
    requires WellFormed(phase)
  {
    match phase
    case Releasing(_, _, route, _) => route
    case Creating(_, source, _) => source.route
    case Updating(_, source, _) => source.route
    case _ => ""
  }

  function RecordEdit(phase: Phase): MapEdit<string>
    requires WellFormed(phase)
  {
    match phase
    case Releasing(owner, _, _, next) => if next == 5 then Drop(owner) else Keep
    case Creating(owner, source, next) => if next == 0 then Make(owner, source.route) else Keep
    case _ => Keep
  }

  /** A call does the same to objects that are the same, and nothing to those off its route. */
  lemma EffectSameObjects(info: IstioInfo, s: Istio, t: Istio, phase: Phase, r: string)
    requires WellFormed(phase) && SameObjects(s, t, r)
    ensures SameCall(s, Effect(info, s, phase), Effect(info, t, phase), RouteOf(phase), r)
    ensures Effect(info, s, phase).records == EditMap(s.records, RecordEdit(phase))
  {
    match phase
    case Releasing(owner, _, route, next) =>
      if next < 4 {
        ReleaseDeletes(info, s, t, owner, route, next, r);
      } else if next == 4 {
        ReleaseWrites(info, s, t, owner, route, next, r);
      } else {
        ReleaseDrops(info, s, t, owner, route, next, r);
      }
    case Creating(owner, source, next) =>
      CreateCallAgrees(info, s, t, owner, source.route, source.backend.value, next, r);
    case Updating(_, source, next) => UpdateCallAgrees(s, t, source.route, source.backend.value, next, r);
    case _ =>
  }

  lemma RecordsOfEffect(info: IstioInfo, s: Istio, phase: Phase)
    requires WellFormed(phase)
    ensures Effect(info, s, phase).records == EditMap(s.records, RecordEdit(phase))
  {
    EffectSameObjects(info, s, s, phase, "");
  }

  lemma EffectAgrees(info: IstioInfo, s: Istio, t: Istio, phase: Phase, o: string, routes: set<string>)
    requires WellFormed(phase) && Agree(s, t, o, routes)
    ensures Agree(Effect(info, s, phase), Effect(info, t, phase), o, routes)
  {
    RecordsOfEffect(info, s, phase);
    RecordsOfEffect(info, t, phase);
    forall r | r in routes ensures SameObjects(Effect(info, s, phase), Effect(info, t, phase), r) {
      EffectSameObjects(info, s, t, phase, r);
    }
  }

  /** A call writes on the job's footprint only. */
  lemma EffectElsewhere(info: IstioInfo, s: Istio, t: Istio, phase: Phase, job: Turn)
    requires Fits(phase, s, job)
    ensures forall r :: r !in RoutesOf(s, job) ==> SameObjects(t, Effect(info, t, phase), r)
    ensures forall o :: o != job.owner ==> SameAt(t.records, Effect(info, t, phase).records, o)
  {
    RecordsOfEffect(info, t, phase);
    forall r | r !in RoutesOf(s, job) ensures SameObjects(t, Effect(info, t, phase), r) {
      EffectSameObjects(info, t, t, phase, r);
    }
  }

  /** The next phase is decided on the footprint. */
  lemma StepSamePhase(info: IstioInfo, s: Istio, c: Cluster, d: Cluster, w: nat, choice: Choice, job: Turn)
    requires w < |c.workers| && w < |d.workers| && c.workers[w] == d.workers[w] && Fits(c.workers[w], s, job)
    requires OwnChoice(choice, job) && Agree(c.istio, d.istio, job.owner, RoutesOf(s, job))
    ensures Next(info, c, w, choice).workers[w] == Next(info, d, w, choice).workers[w]
  {
    assert Eligible(job.source) ==> SameObjects(c.istio, d.istio, job.source.route);
  }

  lemma StepKeepsFit(info: IstioInfo, s: Istio, c: Cluster, w: nat, choice: Choice, job: Turn)
    requires w < |c.workers| && Fits(c.workers[w], s, job) && OwnChoice(choice, job)
    requires c.workers[w].Started? ==> SameAt(s.records, c.istio.records, job.owner)
    ensures Fits(Next(info, c, w, choice).workers[w], s, job)
    ensures Next(info, c, w, choice).workers[w].Started? <==> c.workers[w].Started? && choice == Succeed
  {
  }

  // ------------------------------------------------------------------------ simulation

  /** The worker alone: it has looked at its source, and k - 1 steps have followed. */
  function SoloAt(info: IstioInfo, c: Cluster, w: nat, src: Source, k: nat): Cluster
    decreases k
  {
    if k == 0 then c
    else Do(info, SoloAt(info, c, w, src, k - 1), Action(w, if k == 1 then Look(src, true) else Succeed))
  }

  /** Seen from the footprint of its job, a worker stands where it would stand alone. */
  ghost predicate InStepAt(info: IstioInfo, start: Cluster, c: Cluster, w: nat, job: Turn, k: nat) {
    var alone := SoloAt(info, start, w, job.source, k);
    && w < |c.workers| && w < |alone.workers| && alone.workers[w] == c.workers[w]
    && Fits(c.workers[w], start.istio, job)
    && Agree(alone.istio, c.istio, job.owner, RoutesOf(start.istio, job))
    && (k == 0 <==> c.workers[w].Started?)
  }

  ghost predicate InStep(info: IstioInfo, start: Cluster, c: Cluster, w: nat, job: Turn) {
    exists k: nat :: InStepAt(info, start, c, w, job, k)
  }

  lemma OwnStep(info: IstioInfo, start: Cluster, c: Cluster, w: nat, choice: Choice, job: Turn, k: nat)
    requires InStepAt(info, start, c, w, job, k) && OwnChoice(choice, job)
    ensures InStep(info, start, Next(info, c, w, choice), w, job)
  {
    var (alone, next) := (SoloAt(info, start, w, job.source, k), Next(info, c, w, choice));
    if c.workers[w].Started? <==> choice == Succeed {
      assert next == c;
      assert InStepAt(info, start, next, w, job, k);
    } else {
      assert SoloAt(info, start, w, job.source, k + 1) == Next(info, alone, w, choice);
      StepSamePhase(info, start.istio, alone, c, w, choice, job);
      StepKeepsFit(info, start.istio, alone, w, choice, job);
      StepIsEffect(info, alone, w, choice, job);
      StepIsEffect(info, c, w, choice, job);
      EffectAgrees(info, alone.istio, c.istio, c.workers[w], job.owner, RoutesOf(start.istio, job));
      assert InStepAt(info, start, next, w, job, k + 1);
    }
  }

  /** A step of another, unrelated job leaves a worker where it stands. */
  lemma OthersStep(info: IstioInfo, start: Cluster, c: Cluster, v: nat, choice: Choice, other: Turn, w: nat, job: Turn)
    requires v < |c.workers| && Fits(c.workers[v], start.istio, other) && OwnChoice(choice, other)
    requires v != w && job.owner != other.owner && RoutesOf(start.istio, job) !! RoutesOf(start.istio, other)
    requires InStep(info, start, c, w, job)
    ensures InStep(info, start, Next(info, c, v, choice), w, job)
  {
    var k: nat :| InStepAt(info, start, c, w, job, k);
    var next := Next(info, c, v, choice);
    StepFrame(info, c, v, choice);
    StepElsewhere(info, start.istio, c, v, choice, other);
    forall r | r in RoutesOf(start.istio, job)
      ensures SameObjects(SoloAt(info, start, w, job.source, k).istio, next.istio, r)
    {
      assert SameObjects(c.istio, next.istio, r);
    }
    assert InStepAt(info, start, next, w, job, k);
  }

  lemma StepElsewhere(info: IstioInfo, s: Istio, c: Cluster, w: nat, choice: Choice, job: Turn)
    requires w < |c.workers| && Fits(c.workers[w], s, job) && OwnChoice(choice, job)
    ensures var next := Next(info, c, w, choice);
      && (forall r :: r !in RoutesOf(s, job) ==> SameObjects(c.istio, next.istio, r))
      && (forall o :: o != job.owner ==> SameAt(c.istio.records, next.istio.records, o))
  {
    StepIsEffect(info, c, w, choice, job);
    EffectElsewhere(info, s, c.istio, c.workers[w], job);
  }

  ghost predicate AllInStep(info: IstioInfo, start: Cluster, c: Cluster, jobs: seq<Turn>) {
    && |c.workers| == |jobs|
    && (forall w :: 0 <= w < |jobs| ==> InStep(info, start, c, w, jobs[w]))
    && Framed(start.istio, start.istio, c.istio, jobs)
  }

  lemma StepStaysInStep(info: IstioInfo, start: Cluster, c: Cluster, v: nat, choice: Choice, jobs: seq<Turn>)
    requires AllInStep(info, start, c, jobs) && Unrelated(start.istio, jobs)
    requires v < |jobs| && OwnChoice(choice, jobs[v])
    ensures WellFormed(c.workers[v]) && AllInStep(info, start, Next(info, c, v, choice), jobs)
  {
    var job := jobs[v];
    var k: nat :| InStepAt(info, start, c, v, job, k);
    var next := Next(info, c, v, choice);
    OwnStep(info, start, c, v, choice, job, k);
    forall w | 0 <= w < |jobs| && w != v ensures InStep(info, start, next, w, jobs[w]) {
      OthersStep(info, start, c, v, choice, job, w, jobs[w]);
    }
    StepFrame(info, c, v, choice);
    StepElsewhere(info, start.istio, c, v, choice, job);
    FrameGoesOn(start.istio, c.istio, next.istio, jobs, job);
  }

  lemma FrameGoesOn(s: Istio, t: Istio, u: Istio, jobs: seq<Turn>, job: Turn)
    requires Framed(s, s, t, jobs) && job in jobs
    requires forall r :: r !in RoutesOf(s, job) ==> SameObjects(t, u, r)
    requires forall o :: o != job.owner ==> SameAt(t.records, u.records, o)
    ensures Framed(s, s, u, jobs)
  {
    forall r | OtherRoute(s, jobs, r) ensures SameObjects(s, u, r) {
      assert SameObjects(s, t, r) && SameObjects(t, u, r);
    }
    forall o | OtherOwner(jobs, o) ensures SameAt(s.records, u.records, o) {
      assert SameAt(s.records, t.records, o) && SameAt(t.records, u.records, o);
    }
  }

  /** Every action is one its worker's job allows. */
  ghost predicate OwnActions(actions: seq<Action>, jobs: seq<Turn>) {
    forall a :: a in actions ==> a.worker < |jobs| && OwnChoice(a.choice, jobs[a.worker])
  }

  lemma {:induction false} RunStaysInStep(info: IstioInfo, start: Cluster, c: Cluster, actions: seq<Action>,
                                          jobs: seq<Turn>)
    requires AllInStep(info, start, c, jobs) && Unrelated(start.istio, jobs) && OwnActions(actions, jobs)
    ensures AllInStep(info, start, RunWorkers(info, c, actions), jobs)
    decreases |actions|
  {
    if actions != [] {
      var a := actions[0];
      assert a in actions;
      StepStaysInStep(info, start, c, a.worker, a.choice, jobs);
      RunStaysInStep(info, start, Do(info, c, a), actions[1..], jobs);
    }
  }

  // ----------------------------------------------------------------------- the theorem

  lemma {:induction false} SoloIsSucceeds(info: IstioInfo, c: Cluster, w: nat, src: Source, k: nat)
    ensures SoloAt(info, c, w, src, k + 1) == SucceedTimes(info, Do(info, c, Action(w, Look(src, true))), w, k)
    decreases k
  {
    if k > 0 {
      var looked := Do(info, c, Action(w, Look(src, true)));
      SoloIsSucceeds(info, c, w, src, k - 1);
      var one := 1;
      SucceedAdd(info, looked, w, k - 1, one);
      var d := SucceedTimes(info, looked, w, k - 1);
      assert SucceedTimes(info, d, w, one) == Do(info, d, Action(w, Succeed));
    }
  }

  lemma StoppedStays(info: IstioInfo, c: Cluster, w: nat, k: nat, more: nat)
    requires w < |SucceedTimes(info, c, w, k).workers| && SucceedTimes(info, c, w, k).workers[w].Idle?
    ensures SucceedTimes(info, c, w, k + more) == SucceedTimes(info, c, w, k)
  {
    SucceedAdd(info, c, w, k, more);
    IdleStays(info, SucceedTimes(info, c, w, k), w, more);
  }

  /** A worker that has stopped, alone, has done its whole sync. */
  lemma SoloEnd(info: IstioInfo, start: Cluster, w: nat, job: Turn, k: nat, more: nat)
    requires more >= 15 && w < |start.workers| && start.workers[w] == Started(job.owner)
    requires var alone := SoloAt(info, start, w, job.source, k + 1); w < |alone.workers| && alone.workers[w].Idle?
    ensures SoloAt(info, start, w, job.source, k + 1).istio == Reconcile(info, start.istio, job.owner, job.source).istio
  {
    var looked := Do(info, start, Action(w, Look(job.source, true)));
    SoloIsSucceeds(info, start, w, job.source, k);
    StoppedStays(info, looked, w, k, more);
    SoloWorkerIsReconcile(info, start, w, job.owner, job.source, k + more);
  }

  ghost predicate AllStarted(c: Cluster, jobs: seq<Turn>) {
    |c.workers| == |jobs| && forall w :: 0 <= w < |jobs| ==> c.workers[w] == Started(jobs[w].owner)
  }

  lemma StoppedInStepIsDone(info: IstioInfo, start: Cluster, c: Cluster, w: nat, job: Turn, more: nat)
    requires w < |start.workers| && start.workers[w] == Started(job.owner)
    requires InStep(info, start, c, w, job) && w < |c.workers| && c.workers[w].Idle? && more >= 15
    ensures DoneAt(info, start.istio, c.istio, job)
  {
    var k: nat :| InStepAt(info, start, c, w, job, k);
    SoloEnd(info, start, w, job, k - 1, more);
  }

  lemma InterleavingIsDone(info: IstioInfo, c: Cluster, jobs: seq<Turn>, actions: seq<Action>)
    requires AllStarted(c, jobs) && Unrelated(c.istio, jobs) && OwnActions(actions, jobs)
    requires AllIdle(RunWorkers(info, c, actions))
    ensures AllDone(info, c.istio, RunWorkers(info, c, actions).istio, jobs)
  {
    var end := RunWorkers(info, c, actions);
    var zero := 0;
    forall w | 0 <= w < |jobs| ensures InStep(info, c, c, w, jobs[w]) {
      assert InStepAt(info, c, c, w, jobs[w], zero);
    }
    RunStaysInStep(info, c, c, actions, jobs);
    forall e | e in jobs ensures DoneAt(info, c.istio, end.istio, e) {
      var w :| 0 <= w < |jobs| && jobs[w] == e;
      StoppedInStepIsDone(info, c, end, w, e, 15);
    }
  }

  lemma PermutedJobs(s: Istio, jobs: seq<Turn>, turns: seq<Turn>)
    requires Unrelated(s, jobs) && multiset(turns) == multiset(jobs)
    ensures Unrelated(s, turns) && forall e :: e in jobs <==> e in turns
  {
    assert forall e :: e in jobs <==> e in multiset(jobs);
    assert forall e :: e in turns <==> e in multiset(turns);
    forall v, w | 0 <= v < w < |turns|
      ensures turns[v].owner != turns[w].owner && RoutesOf(s, turns[v]) !! RoutesOf(s, turns[w])
    {
      assert turns[v] in jobs && turns[w] in jobs;
      var i :| 0 <= i < |jobs| && jobs[i] == turns[v];
      var j :| 0 <= j < |jobs| && jobs[j] == turns[w];
      if i == j {
        TwiceThere(turns, v, w);
        OnceThere(s, jobs, i);
      }
    }
  }

  lemma TwiceThere(turns: seq<Turn>, v: nat, w: nat)
    requires v < w < |turns| && turns[v] == turns[w]
    ensures multiset(turns)[turns[v]] >= 2
  {
    assert turns == turns[..w] + turns[w..];
    assert turns[v] in turns[..w] && turns[v] in turns[w..];
  }

  lemma OnceThere(s: Istio, jobs: seq<Turn>, i: nat)
    requires Unrelated(s, jobs) && i < |jobs|
    ensures multiset(jobs)[jobs[i]] == 1
  {
    assert jobs == jobs[..i] + [jobs[i]] + jobs[i + 1..];
    assert jobs[i] !in jobs[..i] && jobs[i] !in jobs[i + 1..];
  }

  /** Workers on unrelated jobs that interleave their calls in any way and all come to an end leave
      the stores, gateway aside, that whole syncs of the jobs would have left, in whatever order. */
  lemma InterleavingIsSerial(info: IstioInfo, c: Cluster, jobs: seq<Turn>, actions: seq<Action>, turns: seq<Turn>)
    requires AllStarted(c, jobs) && Unrelated(c.istio, jobs) && OwnActions(actions, jobs)
    requires AllIdle(RunWorkers(info, c, actions)) && multiset(turns) == multiset(jobs)
    ensures RunWorkers(info, c, actions).istio.(gateway := None) == Run(info, c.istio, turns).(gateway := None)
  {
    InterleavingIsDone(info, c, jobs, actions);
    PermutedJobs(c.istio, jobs, turns);
    SerialRunIsDone(info, c.istio, c.istio, turns);
    AllDoneIsUnique(info, c.istio, RunWorkers(info, c, actions).istio, Run(info, c.istio, turns), jobs, turns);
  }
}
