/** A worker that crashes in the middle of its job, as a run: what the stores are then, that its key can
    be taken again at once, and what the next sync of it makes of them. */
module Crashes {
  import opened Model
  import opened Hosts
  import opened Reconciler
  import opened Leases
  import opened Algebra
  import opened Calls
  import opened Workers
  import opened Races
  import opened Failures

  /** A job that is started, makes i steps, and is stopped by a crash. */
  function Stopped(w: nat, owner: string, src: Source, i: nat): seq<Action> {
    Job(w, owner, src, true) + (Succeeds(w, i) + [Action(w, Crash)])
  }

  /** The worker makes no call after the crash, and holds no key. */
  lemma RunStopped(info: IstioInfo, c: Cluster, w: nat, owner: string, src: Source, i: nat, d: Cluster)
    requires AllIdle(c) && w < |c.workers| && d == SucceedTimes(info, Begun(c, w, owner, src, true), w, i)
    requires |d.workers| == |c.workers| && WellFormed(d.workers[w])
    requires forall v :: 0 <= v < |d.workers| && v != w ==> d.workers[v] == c.workers[v]
    ensures var end := RunWorkers(info, c, Stopped(w, owner, src, i));
      AllIdle(end) && |end.workers| == |c.workers| && end.istio == d.istio
  {
    var begun := Begun(c, w, owner, src, true);
    var crash := [Action(w, Crash)];
    RunJob(info, c, w, owner, src, true, Succeeds(w, i) + crash);
    RunAppend(info, begun, Succeeds(w, i), crash);
    RunSucceeds(info, begun, w, i);
    RunOne(info, d, crash[0]);
  }

  /** In any phase: a crash touches no store, and its key can be taken again at once, by the same or
      by an idle worker. */
  lemma CrashFreesKey(info: IstioInfo, c: Cluster, w: nat, v: nat, owner: string)
    requires Exclusive(c.workers) && w < |c.workers| && v < |c.workers|
    requires WellFormed(c.workers[w]) && Holds(c.workers[w], owner) && (v == w || c.workers[v].Idle?)
    ensures var end := RunWorkers(info, c, [Action(w, Crash), Action(v, Take(owner))]);
      end.istio == c.istio && end.made == c.made && end.workers == c.workers[w := Idle][v := Started(owner)]
  {
    var (crash, take) := (Action(w, Crash), Action(v, Take(owner)));
    var freed := Do(info, c, crash);
    assert [crash, take][1..] == [take];
    RunOne(info, freed, take);
    forall u | 0 <= u < |c.workers| ensures !Holds(freed.workers[u], owner) {
      if u < w {
        assert c.workers[u].Idle? || !Holds(c.workers[w], c.workers[u].owner);
      } else if w < u {
        assert !Holds(c.workers[u], c.workers[w].owner);
      }
    }
  }

  // ------------------------------------------------------------------------- the states

  function CreatePhase(owner: string, src: Source, next: nat): Phase {
    if next == 6 then Reporting(owner) else Creating(owner, src, next)
  }

  /** Part of a create: its calls from next up to an end. */
  lemma {:induction false} CreateAdvances(info: IstioInfo, c: Cluster, w: nat, s: Istio, owner: string, src: Source,
                                          next: nat, end: nat)
    requires w < |c.workers| && next <= end <= 6 && Eligible(src) && c.workers[w] == CreatePhase(owner, src, next)
    requires c.istio == CreatePrefix(info, s, owner, src.route, src.backend.value, next)
    ensures var d := SucceedTimes(info, c, w, end - next);
      && d.istio == CreatePrefix(info, s, owner, src.route, src.backend.value, end)
      && d.workers == c.workers[w := CreatePhase(owner, src, end)]
    decreases end - next
  {
    if next < end {
      OneSucceed(info, c, w, end - next);
      CreateStep(info, c, w, s, owner, src, next);
      CreateAdvances(info, Next(info, c, w, Succeed), w, s, owner, src, next + 1, end);
    }
  }

  /** A create stopped after n of its calls leaves the state that the first n calls make, and all
      workers idle. */
  lemma CrashedCreate(info: IstioInfo, c: Cluster, w: nat, owner: string, src: Source, n: nat, looks: nat)
    requires AllIdle(c) && w < |c.workers| && n <= 6 && looks == 2
    requires Eligible(src) && owner !in c.istio.records && src.route !in c.istio.services
    ensures var end := RunWorkers(info, c, Stopped(w, owner, src, looks + n));
      && AllIdle(end) && |end.workers| == |c.workers|
      && end.istio == CreatePrefix(info, c.istio, owner, src.route, src.backend.value, n)
  {
    var begun := Begun(c, w, owner, src, true);
    var decided := begun.(workers := begun.workers[w := Creating(owner, src, 0)]);
    SoloLooks(info, begun, w, owner, src, looks + n);
    CreateAdvances(info, decided, w, c.istio, owner, src, 0, n);
    RunStopped(info, c, w, owner, src, looks + n, SucceedTimes(info, decided, w, n));
  }

  /** The same for a release. */
  lemma CrashedRelease(info: IstioInfo, c: Cluster, w: nat, owner: string, src: Source, n: nat)
    requires AllIdle(c) && w < |c.workers| && n <= 5
    requires Stale(c.istio, owner, src) && c.istio.records[owner] != ""
    ensures var end := RunWorkers(info, c, Stopped(w, owner, src, n));
      && AllIdle(end) && |end.workers| == |c.workers|
      && end.istio == ReleasePrefix(info, c.istio, owner, c.istio.records[owner], n)
  {
    var begun := Begun(c, w, owner, src, true);
    ReleaseAdvances(info, begun, w, c.istio, owner, src, c.istio.records[owner], 0, n);
    RunStopped(info, c, w, owner, src, n, SucceedTimes(info, begun, w, n));
  }

  // --------------------------------------------------------------------- the next sync

  /** A job of the same or of another key, undisturbed, after whatever has happened. */
  function ThenJob(first: seq<Action>, w: nat, owner: string, src: Source, n: nat): seq<Action> {
    first + (Job(w, owner, src, true) + Succeeds(w, n))
  }

  /** Any worker can take any key once all are idle, and does one whole sync. */
  lemma NextSync(info: IstioInfo, c: Cluster, first: seq<Action>, w: nat, owner: string, src: Source, n: nat)
    requires AllIdle(RunWorkers(info, c, first)) && w < |RunWorkers(info, c, first).workers| && n >= 15
    ensures RunWorkers(info, c, ThenJob(first, w, owner, src, n)).istio
         == Reconcile(info, RunWorkers(info, c, first).istio, owner, src).istio
  {
    RunAppend(info, c, first, Job(w, owner, src, true) + Succeeds(w, n));
    WholeJob(info, RunWorkers(info, c, first), w, owner, src, n);
  }

  ghost predicate NoDuplicates(s: Istio) {
    s.gateway.Some? ==> forall i :: 0 <= i < |s.gateway.value| ==> DuplicateFree(s.gateway.value[i].hosts)
  }

  /** A worker crashes in a create; whichever worker takes the key next, with the source gone, leaves
      no record, object or host. */
  lemma CrashedCreateIsCleaned(info: IstioInfo, c: Cluster, w: nat, v: nat, owner: string, src: Source, n: nat,
                               looks: nat, m: nat)
    requires AllIdle(c) && w < |c.workers| && v < |c.workers| && 1 <= n <= 6 && looks == 2 && m >= 15
    requires Eligible(src) && owner !in c.istio.records && src.route !in c.istio.services && NoDuplicates(c.istio)
    ensures var t := RunWorkers(info, c, ThenJob(Stopped(w, owner, src, looks + n), v, owner, Absent, m)).istio;
      owner !in t.records && Free(info, t, src.route) && forall kind :: !Has(t, kind, src.route)
  {
    var crashed := CreatePrefix(info, c.istio, owner, src.route, src.backend.value, n);
    CrashedCreate(info, c, w, owner, src, n, looks);
    NextSync(info, c, Stopped(w, owner, src, looks + n), v, owner, Absent, m);
    CleanupFromCrash(info, c.istio, crashed, owner, src.route, src.backend.value, n);
  }

  /** A worker crashes in a release; the next sync of the key, by any worker and on any source that is
      still another, ends as if it had not crashed. */
  lemma CrashedReleaseIsResumed(info: IstioInfo, c: Cluster, w: nat, v: nat, owner: string, src: Source, n: nat,
                                m: nat)
    requires AllIdle(c) && w < |c.workers| && v < |c.workers| && n <= 5 && m >= 15
    requires Stale(c.istio, owner, src) && c.istio.records[owner] != ""
    requires n < 5 || AtMostOnce(info, c.istio, c.istio.records[owner])
    ensures RunWorkers(info, c, ThenJob(Stopped(w, owner, src, n), v, owner, src, m)).istio
         == Reconcile(info, c.istio, owner, src).istio
  {
    CrashedRelease(info, c, w, owner, src, n);
    NextSync(info, c, Stopped(w, owner, src, n), v, owner, src, m);
    CrashedReleaseIsFinished(info, c.istio, owner, src, n);
  }

  /** A worker crashes in a create; another key that asks for the same route gets it too exactly if the
      service had not been created. */
  lemma CrashLetsSecondKeyIn(info: IstioInfo, c: Cluster, w: nat, v: nat, o: string, src: Source,
                             p: string, psrc: Source, n: nat, looks: nat, m: nat)
    requires AllIdle(c) && w < |c.workers| && v < |c.workers| && 1 <= n <= 6 && looks == 2 && m >= 15
    requires o !in c.istio.records && p !in c.istio.records && o != p
    requires Eligible(src) && Eligible(psrc) && src.route == psrc.route && src.route !in c.istio.services
    ensures var t := RunWorkers(info, c, ThenJob(Stopped(w, o, src, looks + n), v, p, psrc, m)).istio;
      HoldsRoute(t, o, src.route) && (HoldsRoute(t, p, src.route) <==> n < 3)
  {
    CrashedCreate(info, c, w, o, src, n, looks);
    NextSync(info, c, Stopped(w, o, src, looks + n), v, p, psrc, m);
    CrashLetsSecondHolderIn(info, c.istio, o, src, p, psrc, n);
  }
}
