/** Any number of workers, of any number of controllers, on one Istio cluster: one API call a step,
    in any interleaving, with failing calls and crashes. */
module Workers {
  import opened Model
  import opened Reconciler
  import opened Leases
  import opened Calls

  // ----------------------------------------------------------------------- the machine

  /** Where a worker stands. The counters say which call comes next. */
  datatype Phase =
    | Idle
    | Started(owner: string)
    | Releasing(owner: string, source: Source, route: string, next: nat)
    | Checking(owner: string, source: Source)
    | Checked(owner: string, source: Source, recordMissing: bool)
    | Creating(owner: string, source: Source, next: nat)
    | Updating(owner: string, source: Source, next: nat)
    | Reporting(owner: string)

  /** The Istio stores, the objects the workers created and have not deleted, and the workers. */
  datatype Cluster = Cluster(istio: Istio, made: set<(Kind, string)>, workers: seq<Phase>)

  /** What one step brings: a key from the queue, the source as the caches show it with the outcome
      of the record lookup, the outcome of the next call, or a crash. */
  datatype Choice =
    | Take(owner: string)
    | Look(source: Source, answered: bool)
    | Succeed
    | Fail
    | Crash

  predicate Holds(phase: Phase, owner: string) {
    !phase.Idle? && phase.owner == owner
  }

  /** After the release, a worker goes on only with an eligible source. */
  function AfterRelease(owner: string, src: Source): Phase {
    if Eligible(src) then Checking(owner, src) else Idle
  }

  predicate WellFormed(phase: Phase) {
    match phase
    case Releasing(_, _, _, next) => next < 6
    case Checking(_, source) => Eligible(source)
    case Checked(_, source, _) => Eligible(source)
    case Creating(_, source, next) => Eligible(source) && next < 6
    case Updating(_, source, next) => Eligible(source) && next < 2
    case _ => true
  }

  function AfterLook(s: Istio, owner: string, src: Source, answered: bool): Phase {
    var route := if answered then RouteToDelete(s, owner, src) else "";
    if route != "" then Releasing(owner, src, route, 0) else AfterRelease(owner, src)
  }

  /** A failed record lookup is not "not found" and leads to the update branch; a failed service
      lookup is not "not found" and leads to the conflict branch. */
  function AfterServiceLookup(s: Istio, phase: Phase, failed: bool): Phase
    requires phase.Checked? && WellFormed(phase)
  {
    if !phase.recordMissing then Updating(phase.owner, phase.source, 0)
    else if !failed && phase.source.route !in s.services then Creating(phase.owner, phase.source, 0)
    else Reporting(phase.owner)
  }

  /** The next call of a worker and its new phase. A failed call has no effect, and the worker
      goes on as if it had succeeded. */
  function CallStep(info: IstioInfo, c: Cluster, w: nat, failed: bool): Cluster
    requires w < |c.workers| && WellFormed(c.workers[w])
  {
    var s := c.istio;
    match c.workers[w]
    case Idle => c
    case Started(_) => c
    case Releasing(owner, src, route, next) =>
      var phase := if next == 5 then AfterRelease(owner, src) else Releasing(owner, src, route, next + 1);
      if failed then c.(workers := c.workers[w := phase])
      else Cluster(ReleaseCall(info, s, owner, route, next),
                   if next < 4 then c.made - {(KindAt(next), route)} else c.made,
                   c.workers[w := phase])
    case Checking(owner, src) =>
      c.(workers := c.workers[w := Checked(owner, src, !failed && owner !in s.records)])
    case Checked(_, _, _) =>
      c.(workers := c.workers[w := AfterServiceLookup(s, c.workers[w], failed)])
    case Creating(owner, src, next) =>
      var phase := if next == 5 then Reporting(owner) else Creating(owner, src, next + 1);
      if failed then c.(workers := c.workers[w := phase])
      else Cluster(CreateCall(info, s, owner, src.route, src.backend.value, next),
                   if 1 <= next < 5 && !Has(s, KindAt(next - 1), src.route)
                   then c.made + {(KindAt(next - 1), src.route)} else c.made,
                   c.workers[w := phase])
    case Updating(owner, src, next) =>
      var phase := if next == 1 then Idle else Updating(owner, src, next + 1);
      if failed then c.(workers := c.workers[w := phase])
      else Cluster(UpdateCall(s, src.route, src.backend.value, next), c.made, c.workers[w := phase])
    case Reporting(_) =>
      c.(workers := c.workers[w := Idle])
  }

  /** A choice that a worker cannot make in its phase leaves everything as it is. The queue never
      hands out a key that some worker holds. */
  function Next(info: IstioInfo, c: Cluster, w: nat, choice: Choice): Cluster
    requires w < |c.workers| && WellFormed(c.workers[w])
  {
    match choice
    case Crash => c.(workers := c.workers[w := Idle])
    case Take(owner) =>
      if c.workers[w].Idle? && forall v :: 0 <= v < |c.workers| ==> !Holds(c.workers[v], owner)
      then c.(workers := c.workers[w := Started(owner)])
      else c
    case Look(src, answered) =>
      if c.workers[w].Started?
      then c.(workers := c.workers[w := AfterLook(c.istio, c.workers[w].owner, src, answered)])
      else c
    case Succeed => CallStep(info, c, w, false)
    case Fail => CallStep(info, c, w, true)
  }

  // ------------------------------------------------------------------------- coverage

  /** The deleter working on this record has passed the kind. */
  predicate Passed(c: Cluster, owner: string, kind: Kind) {
    exists v :: 0 <= v < |c.workers| && PassedBy(c.workers[v], owner, kind)
  }

  predicate PassedBy(phase: Phase, owner: string, kind: Kind) {
    phase.Releasing? && phase.owner == owner && phase.next > Index(kind)
  }

  /** A record that names the route and whose deleter, if any, has not passed the kind. */
  predicate Covers(c: Cluster, owner: string, kind: Kind, route: string) {
    owner in c.istio.records && c.istio.records[owner] == route && !Passed(c, owner, kind)
  }

  ghost predicate Covered(c: Cluster, kind: Kind, route: string) {
    exists owner :: Covers(c, owner, kind, route)
  }

  /** What a worker's phase says about its own record. */
  predicate OwnRecord(s: Istio, phase: Phase)
    requires WellFormed(phase)
  {
    match phase
    case Releasing(owner, _, route, _) => owner in s.records && s.records[owner] == route
    case Checked(owner, _, recordMissing) => recordMissing ==> owner !in s.records
    case Creating(owner, source, next) =>
      if next == 0 then owner !in s.records else owner in s.records && s.records[owner] == source.route
    case _ => true
  }

  ghost predicate Exclusive(workers: seq<Phase>) {
    forall v, w :: 0 <= v < w < |workers| && !workers[v].Idle? ==> !Holds(workers[w], workers[v].owner)
  }

  ghost predicate WorkersInv(c: Cluster) {
    && Exclusive(c.workers)
    && forall v :: 0 <= v < |c.workers| ==> WellFormed(c.workers[v]) && OwnRecord(c.istio, c.workers[v])
  }

  ghost predicate CoverageInv(c: Cluster) {
    && WorkersInv(c)
    && (forall kind, route :: (kind, route) in c.made ==>
          route != "" && Has(c.istio, kind, route) && Covered(c, kind, route))
  }

  /** The calls that must not fail transiently: deletes of the four kinds and record creates. */
  predicate Reliable(phase: Phase, choice: Choice) {
    choice.Fail? ==> !(phase.Releasing? && phase.next < 4) && !(phase.Creating? && phase.next == 0)
  }

  /** A step leaves the other workers, and every record its worker does not hold, as they are; its
      worker drops its key, keeps it, or takes one that nobody held. */
  lemma StepFrame(info: IstioInfo, c: Cluster, w: nat, choice: Choice)
    requires w < |c.workers| && WellFormed(c.workers[w])
    ensures var d := Next(info, c, w, choice);
      && |d.workers| == |c.workers|
      && (forall v :: 0 <= v < |c.workers| && v != w ==> d.workers[v] == c.workers[v])
      && (forall o :: !Holds(c.workers[w], o) ==>
            (o in d.istio.records <==> o in c.istio.records)
            && (o in c.istio.records ==> d.istio.records[o] == c.istio.records[o]))
      && (d.workers[w].Idle? || Holds(c.workers[w], d.workers[w].owner)
          || (d.workers[w].Started? && forall v :: 0 <= v < |c.workers| ==> !Holds(c.workers[v], d.workers[w].owner)))
  {
  }

  lemma CallKeepsOwnRecord(info: IstioInfo, c: Cluster, w: nat, failed: bool)
    requires w < |c.workers| && WellFormed(c.workers[w]) && OwnRecord(c.istio, c.workers[w])
    requires Reliable(c.workers[w], if failed then Fail else Succeed)
    ensures var d := CallStep(info, c, w, failed);
      WellFormed(d.workers[w]) && OwnRecord(d.istio, d.workers[w])
  {
  }

  lemma StepKeepsOwnRecord(info: IstioInfo, c: Cluster, w: nat, choice: Choice)
    requires w < |c.workers| && WellFormed(c.workers[w]) && OwnRecord(c.istio, c.workers[w])
    requires Reliable(c.workers[w], choice)
    ensures var d := Next(info, c, w, choice);
      WellFormed(d.workers[w]) && OwnRecord(d.istio, d.workers[w])
  {
    match choice
    case Succeed => CallKeepsOwnRecord(info, c, w, false);
    case Fail => CallKeepsOwnRecord(info, c, w, true);
    case _ =>
  }

  lemma StepKeepsWorkers(info: IstioInfo, c: Cluster, w: nat, choice: Choice)
    requires WorkersInv(c) && w < |c.workers| && Reliable(c.workers[w], choice)
    ensures WorkersInv(Next(info, c, w, choice))
  {
    var d := Next(info, c, w, choice);
    StepFrame(info, c, w, choice);
    StepKeepsOwnRecord(info, c, w, choice);
    forall v | 0 <= v < |d.workers| ensures WellFormed(d.workers[v]) && OwnRecord(d.istio, d.workers[v]) {
      if v != w && !c.workers[v].Idle? {
        assert !Holds(c.workers[w], c.workers[v].owner);
      }
    }
  }

  /** A step takes an object out of the history only by deleting it, and puts one in only when its
      worker's record names the route. */
  lemma StepMakes(info: IstioInfo, c: Cluster, w: nat, choice: Choice, kind: Kind, route: string)
    requires CoverageInv(c) && w < |c.workers| && Reliable(c.workers[w], choice)
    requires (kind, route) in Next(info, c, w, choice).made
    ensures route != "" && Has(Next(info, c, w, choice).istio, kind, route)
    ensures (kind, route) !in c.made ==>
      c.workers[w].Creating? && c.workers[w].next > 0 && choice == Succeed && c.workers[w].source.route == route
  {
  }

  /** A covering record covers after the step too, unless the step is its own deleter's. */
  lemma StepKeepsOtherCover(info: IstioInfo, c: Cluster, w: nat, choice: Choice, o: string, kind: Kind, route: string)
    requires WorkersInv(c) && w < |c.workers| && Reliable(c.workers[w], choice)
    requires Covers(c, o, kind, route) && !(c.workers[w].Releasing? && c.workers[w].owner == o)
    ensures Covers(Next(info, c, w, choice), o, kind, route)
  {
    var d := Next(info, c, w, choice);
    StepFrame(info, c, w, choice);
    assert WellFormed(c.workers[w]) && OwnRecord(c.istio, c.workers[w]);
    forall v | 0 <= v < |d.workers| ensures !PassedBy(d.workers[v], o, kind) {
      assert !PassedBy(c.workers[v], o, kind);
    }
  }

  /** The deleter of a covering record: the kind it deletes is gone for this route, later kinds are
      still covered, and when the record goes, nothing was covered by it any more. */
  lemma DeleterKeepsCover(info: IstioInfo, c: Cluster, w: nat, choice: Choice, o: string, kind: Kind, route: string)
    requires WorkersInv(c) && w < |c.workers| && Reliable(c.workers[w], choice)
    requires Covers(c, o, kind, route) && c.workers[w].Releasing? && c.workers[w].owner == o
    requires (kind, route) in Next(info, c, w, choice).made
    ensures Covers(Next(info, c, w, choice), o, kind, route)
  {
  }

  lemma ReliableStepKeepsCoverage(info: IstioInfo, c: Cluster, w: nat, choice: Choice)
    requires CoverageInv(c) && w < |c.workers| && Reliable(c.workers[w], choice)
    ensures CoverageInv(Next(info, c, w, choice))
  {
    var d := Next(info, c, w, choice);
    StepKeepsWorkers(info, c, w, choice);
    forall kind, route | (kind, route) in d.made
      ensures route != "" && Has(d.istio, kind, route) && Covered(d, kind, route)
    {
      StepMakes(info, c, w, choice, kind, route);
      if (kind, route) in c.made {
        var o :| Covers(c, o, kind, route);
        if c.workers[w].Releasing? && c.workers[w].owner == o {
          DeleterKeepsCover(info, c, w, choice, o, kind, route);
        } else {
          StepKeepsOtherCover(info, c, w, choice, o, kind, route);
        }
      } else {
        CreatorCovers(info, c, w, kind, route);
      }
    }
  }

  lemma CreatorCovers(info: IstioInfo, c: Cluster, w: nat, kind: Kind, route: string)
    requires WorkersInv(c) && w < |c.workers|
    requires c.workers[w].Creating? && c.workers[w].next > 0 && c.workers[w].source.route == route
    ensures Covered(Next(info, c, w, Succeed), kind, route)
  {
    var d := Next(info, c, w, Succeed);
    var o := c.workers[w].owner;
    StepFrame(info, c, w, Succeed);
    assert WellFormed(c.workers[w]) && OwnRecord(c.istio, c.workers[w]);
    forall v | 0 <= v < |d.workers| ensures !PassedBy(d.workers[v], o, kind) {
    }
    assert Covers(d, o, kind, route);
  }

  /** A delete that fails unnoticed takes its own kind out of its own record's cover, and no more. */
  lemma FailedDeleteUncovers(info: IstioInfo, c: Cluster, w: nat, o: string, kind: Kind, route: string)
    requires w < |c.workers| && c.workers[w].Releasing? && c.workers[w].next < 4
    ensures Covers(Next(info, c, w, Fail), o, kind, route) <==>
      Covers(c, o, kind, route) && !(o == c.workers[w].owner && kind == KindAt(c.workers[w].next))
  {
    var d := Next(info, c, w, Fail);
    assert forall v :: 0 <= v < |c.workers| && v != w ==> d.workers[v] == c.workers[v];
    if Passed(c, o, kind) {
      var v :| 0 <= v < |c.workers| && PassedBy(c.workers[v], o, kind);
      assert PassedBy(d.workers[v], o, kind);
    } else {
      assert PassedBy(d.workers[w], o, kind) <==> o == c.workers[w].owner && kind == KindAt(c.workers[w].next);
      assert forall v :: 0 <= v < |c.workers| ==> !PassedBy(c.workers[v], o, kind);
    }
  }

  lemma FailedDeleteKeepsWorkers(info: IstioInfo, c: Cluster, w: nat)
    requires WorkersInv(c) && w < |c.workers| && c.workers[w].Releasing? && c.workers[w].next < 4
    ensures WorkersInv(Next(info, c, w, Fail))
  {
    var d := Next(info, c, w, Fail);
    assert WellFormed(c.workers[w]) && OwnRecord(c.istio, c.workers[w]);
    StepFrame(info, c, w, Fail);
  }

  /** The object whose delete may fail: nobody's history, or covered by a second record. */
  ghost predicate Spare(c: Cluster, w: nat)
    requires w < |c.workers| && c.workers[w].Releasing? && c.workers[w].next < 4
  {
    var (kind, route) := (KindAt(c.workers[w].next), c.workers[w].route);
    (kind, route) in c.made ==> exists o :: o != c.workers[w].owner && Covers(c, o, kind, route)
  }

  lemma FailedDeleteKeepsCoverage(info: IstioInfo, c: Cluster, w: nat)
    requires CoverageInv(c) && w < |c.workers| && c.workers[w].Releasing? && c.workers[w].next < 4
    ensures CoverageInv(Next(info, c, w, Fail)) <==> Spare(c, w)
  {
    var d := Next(info, c, w, Fail);
    FailedDeleteKeepsWorkers(info, c, w);
    forall o, kind, route
      ensures Covers(d, o, kind, route) <==>
        Covers(c, o, kind, route) && !(o == c.workers[w].owner && kind == KindAt(c.workers[w].next))
    {
      FailedDeleteUncovers(info, c, w, o, kind, route);
    }
    assert OwnRecord(c.istio, c.workers[w]);
    if Spare(c, w) {
      forall kind, route | (kind, route) in c.made ensures Covered(d, kind, route) {
        var o :| Covers(c, o, kind, route);
        if o == c.workers[w].owner && kind == KindAt(c.workers[w].next) {
          var p :| p != o && Covers(c, p, kind, route);
          assert Covers(d, p, kind, route);
        } else {
          assert Covers(d, o, kind, route);
        }
      }
    }
  }

  /** Every step keeps coverage, except exactly two: a record create that fails unnoticed, and a
      failed delete of an object in the history that no other record covers. */
  lemma StepKeepsCoverage(info: IstioInfo, c: Cluster, w: nat, choice: Choice)
    requires CoverageInv(c) && w < |c.workers|
    ensures CoverageInv(Next(info, c, w, choice)) <==>
      || Reliable(c.workers[w], choice)
      || (c.workers[w].Releasing? && c.workers[w].next < 4 && Spare(c, w))
  {
    if Reliable(c.workers[w], choice) {
      ReliableStepKeepsCoverage(info, c, w, choice);
    } else if c.workers[w].Releasing? {
      FailedDeleteKeepsCoverage(info, c, w);
    } else {
      assert OwnRecord(c.istio, c.workers[w]);
      assert !OwnRecord(c.istio, Next(info, c, w, choice).workers[w]);
    }
  }

  // ------------------------------------------------------------------------------ runs

  datatype Action = Action(worker: nat, choice: Choice)

  /** An action of a worker that does not exist leaves everything as it is. */
  function Do(info: IstioInfo, c: Cluster, a: Action): Cluster {
    if a.worker < |c.workers| && WellFormed(c.workers[a.worker]) then Next(info, c, a.worker, a.choice) else c
  }

  function RunWorkers(info: IstioInfo, c: Cluster, actions: seq<Action>): Cluster
    decreases |actions|
  {
    if actions == [] then c else RunWorkers(info, Do(info, c, actions[0]), actions[1..])
  }

  lemma RunOne(info: IstioInfo, c: Cluster, a: Action)
    ensures RunWorkers(info, c, [a]) == Do(info, c, a)
  {
    assert [a][1..] == [];
  }

  predicate ReliableAction(c: Cluster, a: Action) {
    a.worker < |c.workers| ==> Reliable(c.workers[a.worker], a.choice)
  }

  predicate ReliableRun(info: IstioInfo, c: Cluster, actions: seq<Action>)
    decreases |actions|
  {
    actions == [] || (ReliableAction(c, actions[0]) && ReliableRun(info, Do(info, c, actions[0]), actions[1..]))
  }

  lemma {:induction false} RunAppend(info: IstioInfo, c: Cluster, a: seq<Action>, b: seq<Action>)
    ensures RunWorkers(info, c, a + b) == RunWorkers(info, RunWorkers(info, c, a), b)
    ensures ReliableRun(info, c, a + b) <==> ReliableRun(info, c, a) && ReliableRun(info, RunWorkers(info, c, a), b)
    decreases |a|
  {
    if a == [] {
      assert a + b == b;
    } else {
      assert (a + b)[1..] == a[1..] + b;
      RunAppend(info, Do(info, c, a[0]), a[1..], b);
    }
  }

  /** Reliable are the runs in which every action is, at the moment it is done. */
  lemma {:induction false} ReliableStepByStep(info: IstioInfo, c: Cluster, actions: seq<Action>)
    ensures ReliableRun(info, c, actions) <==>
      forall i :: 0 <= i < |actions| ==> ReliableAction(RunWorkers(info, c, actions[..i]), actions[i])
    decreases |actions|
  {
    if actions != [] {
      var (next, rest) := (Do(info, c, actions[0]), actions[1..]);
      ReliableStepByStep(info, next, rest);
      assert RunWorkers(info, c, actions[..0]) == c;
      forall i | 0 <= i < |rest| ensures RunWorkers(info, c, actions[..i + 1]) == RunWorkers(info, next, rest[..i]) {
        assert actions[..i + 1][1..] == rest[..i];
      }
      assert forall i :: 0 < i < |actions| ==> actions[i] == rest[i - 1];
      assert forall i :: 0 < i < |actions| ==>
        RunWorkers(info, c, actions[..i]) == RunWorkers(info, next, rest[..i - 1]);
    }
  }

  lemma {:induction false} RunKeepsCoverage(info: IstioInfo, c: Cluster, actions: seq<Action>)
    requires CoverageInv(c) && ReliableRun(info, c, actions)
    ensures CoverageInv(RunWorkers(info, c, actions))
    decreases |actions|
  {
    if actions != [] {
      if actions[0].worker < |c.workers| {
        ReliableStepKeepsCoverage(info, c, actions[0].worker, actions[0].choice);
      }
      RunKeepsCoverage(info, Do(info, c, actions[0]), actions[1..]);
    }
  }

  /** The history misses nothing: an object that exists is in it, or was there at the start. */
  ghost predicate HistoryComplete(start: Istio, c: Cluster) {
    forall kind, route :: Has(c.istio, kind, route) ==> (kind, route) in c.made || Has(start, kind, route)
  }

  lemma StepKeepsHistory(info: IstioInfo, start: Istio, c: Cluster, w: nat, choice: Choice, kind: Kind, route: string)
    requires w < |c.workers| && WellFormed(c.workers[w])
    requires Has(c.istio, kind, route) ==> (kind, route) in c.made || Has(start, kind, route)
    requires Has(Next(info, c, w, choice).istio, kind, route)
    ensures (kind, route) in Next(info, c, w, choice).made || Has(start, kind, route)
  {
  }

  lemma {:induction false} RunKeepsHistory(info: IstioInfo, start: Istio, c: Cluster, actions: seq<Action>)
    requires HistoryComplete(start, c)
    ensures HistoryComplete(start, RunWorkers(info, c, actions))
    decreases |actions|
  {
    if actions != [] {
      var (next, w) := (Do(info, c, actions[0]), actions[0].worker);
      forall kind, route | Has(next.istio, kind, route) ensures (kind, route) in next.made || Has(start, kind, route) {
        if w < |c.workers| && WellFormed(c.workers[w]) {
          StepKeepsHistory(info, start, c, w, actions[0].choice, kind, route);
        }
      }
      RunKeepsHistory(info, start, next, actions[1..]);
    }
  }

  ghost predicate AllIdle(c: Cluster) {
    forall v :: 0 <= v < |c.workers| ==> c.workers[v].Idle?
  }

  ghost predicate Initial(c: Cluster) {
    c.made == {} && AllIdle(c)
  }

  /** From any stores with all workers idle, at every moment of every run, however the workers
      interleave and crash: each object that was not there at the start, or that a worker made in
      place of one, is covered by a record naming its route whose deleter has not passed its kind. */
  lemma WriteAheadCoverage(info: IstioInfo, c: Cluster, actions: seq<Action>, kind: Kind, route: string)
    requires Initial(c) && ReliableRun(info, c, actions)
    ensures var d := RunWorkers(info, c, actions);
      && ((kind, route) in d.made ==> Has(d.istio, kind, route) && Covered(d, kind, route))
      && (Has(d.istio, kind, route) ==> Has(c.istio, kind, route) || Covered(d, kind, route))
  {
    RunKeepsCoverage(info, c, actions);
    RunKeepsHistory(info, c.istio, c, actions);
  }

  /** So no new object is ever orphaned: some record names its route, and a whole sync of that
      record's key with its source gone, run on the stores as they are, removes it. */
  lemma NoOrphans(info: IstioInfo, c: Cluster, actions: seq<Action>, kind: Kind, route: string)
    requires Initial(c) && ReliableRun(info, c, actions)
    requires Has(RunWorkers(info, c, actions).istio, kind, route) && !Has(c.istio, kind, route)
    ensures var d := RunWorkers(info, c, actions);
      && route in HeldRoutes(d.istio)
      && (exists owner :: owner in d.istio.records && d.istio.records[owner] == route
           && !Has(Reconcile(info, d.istio, owner, Absent).istio, kind, route))
  {
    RunKeepsCoverage(info, c, actions);
    RunKeepsHistory(info, c.istio, c, actions);
    var d := RunWorkers(info, c, actions);
    var owner :| Covers(d, owner, kind, route);
    assert d.istio.records[owner] == route;
    var gone := Reconcile(info, d.istio, owner, Absent).istio;
    assert gone == Perform(info, d.istio, owner, Withdraw(route));
    WithdrawLeavesNothing(info, d.istio, owner, route);
  }
}
