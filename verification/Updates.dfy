/** Which workers may rewrite a route's content: the exact steps at which a worker loses track of its
    own record, and that without them an update only ever rewrites the route its own record names. */
module Updates {
  import opened Model
  import opened Reconciler
  import opened Leases
  import opened Workers

  /** On the way to an update, the worker's record, if there is one, names the requested route. */
  predicate OnTrack(s: Istio, phase: Phase) {
    match phase
    case Checking(owner, source) => Eligible(source) && (owner in s.records ==> HoldsRoute(s, owner, source.route))
    case Checked(owner, source, recordMissing) =>
      Eligible(source) && (!recordMissing ==> HoldsRoute(s, owner, source.route))
    case Updating(owner, source, _) => Eligible(source) && HoldsRoute(s, owner, source.route)
    case _ => true
  }

  ghost predicate TrackInv(c: Cluster) {
    && Exclusive(c.workers)
    && forall v :: 0 <= v < |c.workers| ==> WellFormed(c.workers[v]) && OnTrack(c.istio, c.workers[v])
  }

  /** The record names a route, and not the one that is asked for. */
  predicate Misnamed(s: Istio, owner: string, src: Source) {
    Eligible(src) && owner in s.records && s.records[owner] != src.route
  }

  /** A first record lookup that fails, or finds an empty route name, on a record to give up; a
      second record lookup that fails where there is no record; and a record delete that fails. */
  predicate LosesTrack(s: Istio, phase: Phase, choice: Choice) {
    || (phase.Started? && choice.Look? && Misnamed(s, phase.owner, choice.source)
        && (!choice.answered || s.records[phase.owner] == ""))
    || (phase.Checking? && choice.Fail? && phase.owner !in s.records)
    || (phase.Releasing? && choice.Fail? && phase.next == 5 && Misnamed(s, phase.owner, phase.source))
  }

  lemma CallOnTrack(info: IstioInfo, c: Cluster, w: nat, failed: bool)
    requires w < |c.workers| && WellFormed(c.workers[w]) && OnTrack(c.istio, c.workers[w])
    ensures var d := CallStep(info, c, w, failed);
      && WellFormed(d.workers[w])
      && (OnTrack(d.istio, d.workers[w])
          <==> !LosesTrack(c.istio, c.workers[w], if failed then Fail else Succeed))
  {
  }

  lemma StepOnTrack(info: IstioInfo, c: Cluster, w: nat, choice: Choice)
    requires w < |c.workers| && WellFormed(c.workers[w]) && OnTrack(c.istio, c.workers[w])
    ensures var d := Next(info, c, w, choice);
      WellFormed(d.workers[w]) && (OnTrack(d.istio, d.workers[w]) <==> !LosesTrack(c.istio, c.workers[w], choice))
  {
    match choice
    case Succeed => CallOnTrack(info, c, w, false);
    case Fail => CallOnTrack(info, c, w, true);
    case _ =>
  }

  /** Every step keeps all workers on track except exactly those three. */
  lemma StepKeepsTrack(info: IstioInfo, c: Cluster, w: nat, choice: Choice)
    requires TrackInv(c) && w < |c.workers|
    ensures TrackInv(Next(info, c, w, choice)) <==> !LosesTrack(c.istio, c.workers[w], choice)
  {
    var d := Next(info, c, w, choice);
    StepFrame(info, c, w, choice);
    StepOnTrack(info, c, w, choice);
    forall v | 0 <= v < |d.workers| && v != w ensures WellFormed(d.workers[v]) && OnTrack(d.istio, d.workers[v]) {
      if !c.workers[v].Idle? {
        assert !Holds(c.workers[w], c.workers[v].owner);
      }
    }
  }

  /** The service or the endpoints of the route are there before and after, with other contents. */
  predicate Rewritten(s: Istio, t: Istio, route: string) {
    || (route in s.services && route in t.services && t.services[route] != s.services[route])
    || (route in s.endpoints && route in t.endpoints && t.endpoints[route] != s.endpoints[route])
  }

  lemma OnlyHoldersRewrite(info: IstioInfo, c: Cluster, w: nat, choice: Choice, route: string)
    requires TrackInv(c) && w < |c.workers|
    ensures Rewritten(c.istio, Next(info, c, w, choice).istio, route) ==>
      c.workers[w].Updating? && HoldsRoute(c.istio, c.workers[w].owner, route)
  {
    assert OnTrack(c.istio, c.workers[w]);
  }

  // ------------------------------------------------------------------------------ runs

  predicate TrackedAction(c: Cluster, a: Action) {
    a.worker < |c.workers| ==> !LosesTrack(c.istio, c.workers[a.worker], a.choice)
  }

  predicate TrackedRun(info: IstioInfo, c: Cluster, actions: seq<Action>)
    decreases |actions|
  {
    actions == [] || (TrackedAction(c, actions[0]) && TrackedRun(info, Do(info, c, actions[0]), actions[1..]))
  }

  /** Tracked are the runs in which no action loses track, at the moment it is done. */
  lemma {:induction false} TrackedStepByStep(info: IstioInfo, c: Cluster, actions: seq<Action>)
    ensures TrackedRun(info, c, actions) <==>
      forall i :: 0 <= i < |actions| ==> TrackedAction(RunWorkers(info, c, actions[..i]), actions[i])
    decreases |actions|
  {
    if actions != [] {
      var (next, rest) := (Do(info, c, actions[0]), actions[1..]);
      TrackedStepByStep(info, next, rest);
      assert RunWorkers(info, c, actions[..0]) == c;
      forall i | 0 <= i < |rest| ensures RunWorkers(info, c, actions[..i + 1]) == RunWorkers(info, next, rest[..i]) {
        assert actions[..i + 1][1..] == rest[..i];
      }
      assert forall i :: 0 < i < |actions| ==> actions[i] == rest[i - 1];
      assert forall i :: 0 < i < |actions| ==>
        RunWorkers(info, c, actions[..i]) == RunWorkers(info, next, rest[..i - 1]);
    }
  }

  lemma {:induction false} RunKeepsTrack(info: IstioInfo, c: Cluster, actions: seq<Action>)
    requires TrackInv(c) && TrackedRun(info, c, actions)
    ensures TrackInv(RunWorkers(info, c, actions))
    decreases |actions|
  {
    if actions != [] {
      if actions[0].worker < |c.workers| {
        StepKeepsTrack(info, c, actions[0].worker, actions[0].choice);
      }
      RunKeepsTrack(info, Do(info, c, actions[0]), actions[1..]);
    }
  }

  /** From idle workers, however they interleave and crash and whatever else fails: at every moment
      an updating worker's own record names the route it rewrites, and the content of no other
      route is rewritten by any step. */
  lemma UpdatesStayWithinTheirLease(info: IstioInfo, c: Cluster, actions: seq<Action>, w: nat, choice: Choice,
                                    route: string)
    requires Initial(c) && TrackedRun(info, c, actions) && w < |c.workers|
    ensures var d := RunWorkers(info, c, actions);
      && w < |d.workers| && WellFormed(d.workers[w])
      && (d.workers[w].Updating? ==> HoldsRoute(d.istio, d.workers[w].owner, d.workers[w].source.route))
      && (Rewritten(d.istio, Next(info, d, w, choice).istio, route) ==>
           d.workers[w].Updating? && HoldsRoute(d.istio, d.workers[w].owner, route))
  {
    RunKeepsTrack(info, c, actions);
    WorkersStay(info, c, actions);
    var d := RunWorkers(info, c, actions);
    assert OnTrack(d.istio, d.workers[w]);
    OnlyHoldersRewrite(info, d, w, choice, route);
  }

  lemma {:induction false} WorkersStay(info: IstioInfo, c: Cluster, actions: seq<Action>)
    ensures |RunWorkers(info, c, actions).workers| == |c.workers|
    decreases |actions|
  {
    if actions != [] {
      var a := actions[0];
      if a.worker < |c.workers| && WellFormed(c.workers[a.worker]) {
        StepFrame(info, c, a.worker, a.choice);
      }
      WorkersStay(info, Do(info, c, a), actions[1..]);
    }
  }
}
