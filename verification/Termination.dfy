/**
 Once the others leave the cluster alone and no call fails, the controller
 finishes, whatever was in flight at that time: it makes the writes that are due
 and its queue drains. Events are delivered before the next call for the same name.
 */
module Termination {
  import opened Prelude
  import opened NamespaceLabels
  import opened ApiStore
  import opened ReconcileSteps
  import opened StringLists
  import opened Cluster
  import opened Locality
  import opened Isolation
  import opened Safety
  import opened Convergence

  predicate CaughtUp(x: Slice) {
    x.informer.profileEvents == [] && x.informer.nsEvents == [] && x.configEvents == []
  }

  /** The controller's own steps, each of them possible and none of them failing. */
  predicate Quiet(x: Slice, step: Step) {
    match step
    case Pick(_) => x.queued && x.flight.None? && CaughtUp(x)
    case Call(_, o) => x.flight.Some? && o.Ok? && CaughtUp(x)
    case ProfileEvent(_) => x.informer.profileEvents != []
    case NamespaceEvent(_) => x.informer.nsEvents != []
    case ConfigEvent => x.configEvents != []
    case _ => false
  }

  // ---- work ---------------------------------------------------------------

  /** Namespace writes still due: one if it is missing, or owned with labels out of date. */
  function NsDue(x: Slice): nat {
    if x.o.profile.None? || x.config.None? then 0
    else if x.o.ns.None? then 1
    else if OwnedBy(x.o.ns.value, x.o.profile.value.owner) && !Settled(x.o.ns.value.labels, x.config.value) then 1
    else 0
  }

  /** Profile writes still due: one if the finalizer does not match the deletion state of an accepted profile. */
  function FinalizerDue(x: Slice): nat {
    if x.o.profile.None? then 0
    else
      var p := x.o.profile.value;
      if x.o.ns.Some? && !OwnedBy(x.o.ns.value, p.owner) then 0
      else if PROFILE_FINALIZER in p.finalizers <==> p.deleting then 1
      else 0
  }

  function FlightWork(flight: Option<Frame>): nat {
    match flight
    case None => 0
    case Some(f) =>
      match f
      case GetProfile => 8
      case GetConfig(_) => 7
      case GetNs(_, _) => 6
      case CreateNs(_, _) => 5
      case AwaitNs(_, _, _) => 4
      case UpdateNs(_, _, _) => 4
      case _ => 3
  }

  /** Decreases with every quiet step. */
  function Work(x: Slice): nat {
    60 * NsDue(x) + 60 * FinalizerDue(x)
    + 20 * (|x.informer.profileEvents| + |x.informer.nsEvents| + |x.configEvents|)
    + (if x.queued then 15 else 0) + FlightWork(x.flight)
  }

  // ---- the calm invariant -------------------------------------------------

  /** What the reconcile in flight has read is what is stored. */
  predicate Steady(x: Slice, f: Frame) {
    match f
    case GetProfile => true
    case GetConfig(p) => x.o.profile == Some(p)
    case GetNs(p, c) => x.o.profile == Some(p) && x.config == Some(c)
    case CreateNs(p, c) => x.o.profile == Some(p) && x.config == Some(c) && x.o.ns.None?
    case AwaitNs(p, _, _) => x.o.profile == Some(p) && LabelsDone(x, p)
    case _ => Fresh(x, f)
  }

  predicate Footing(x: Slice) {
    x.o.statusSubresource && x.config.Some? && Trails(x)
  }

  predicate Calm(x: Slice) {
    Footing(x) && (x.flight.Some? ==> Steady(x, x.flight.value))
  }

  /** The step did some work, and every write it made was due. */
  predicate Works(x: Slice, y: Slice) {
    && Calm(y)
    && Work(y) < Work(x)
    && Accounted(x, y)
  }

  predicate Accounted(x: Slice, y: Slice) {
    && |y.o.nsLog| + NsDue(y) == |x.o.nsLog| + NsDue(x)
    && |y.o.profileLog| + FinalizerDue(y) == |x.o.profileLog| + FinalizerDue(x)
  }

  /** Where a call that succeeded leads: to a frame with less to do, for objects nearer to what is wanted. */
  lemma CallWorks(x: Slice, y: Objects, next: Sequel)
    requires Calm(x) && CaughtUp(x) && x.flight.Some? && !next.Retry? && y.statusSubresource
    requires next.Continue? ==> Steady(x.(o := y), next.frame) && FlightWork(Some(next.frame)) < FlightWork(x.flight)
    requires Accounted(x, x.(o := y))
    requires x.o.profile == y.profile || |x.o.profileLog| < |y.profileLog|
    requires x.o.ns == y.ns || |x.o.nsLog| < |y.nsLog|
    requires |x.o.profileLog| <= |y.profileLog| && |x.o.nsLog| <= |y.nsLog|
    ensures Works(x, LocalAfterCall(LocalPublish(x, y), next))
  {
    var z := LocalAfterCall(LocalPublish(x, y), next);
    PublishTrails(x, y);
    SameDue(x.(o := y), z);
    if next.Continue? {
      SameFooting(x.(o := y), z, next.frame);
    }
  }

  /** What is due, and whether a frame is steady, depends on the stored objects and the configuration only. */
  lemma SameDue(x: Slice, y: Slice)
    requires x.o == y.o && x.config == y.config
    ensures NsDue(x) == NsDue(y) && FinalizerDue(x) == FinalizerDue(y)
  {
  }

  lemma SameFooting(x: Slice, y: Slice, f: Frame)
    requires x.o == y.o && x.config == y.config
    ensures Steady(x, f) == Steady(y, f)
  {
  }

  lemma ReadWorks(x: Slice)
    requires Calm(x) && CaughtUp(x) && x.flight.Some? && !Writes(x.flight.value)
    ensures Works(x, LocalNext(x, Call("", Ok)))
  {
    var next := AfterRead(LocalView(x), x.flight.value, Ok);
    ReadStaysSteady(x, x.flight.value);
    CallWorks(x, x.o, next);
  }

  lemma ReadStaysSteady(x: Slice, f: Frame)
    requires Calm(x) && CaughtUp(x) && x.flight == Some(f) && !Writes(f)
    ensures var next := AfterRead(LocalView(x), f, Ok);
            && !next.Retry?
            && (next.Continue? ==> Steady(x, next.frame) && FlightWork(Some(next.frame)) < FlightWork(Some(f)))
  {
  }

  lemma CreateWorks(x: Slice, p: Profile, c: Labels)
    requires Calm(x) && CaughtUp(x) && x.flight == Some(CreateNs(p, c))
    ensures Works(x, LocalNext(x, Call("", Ok)))
  {
    SettleIsIdempotent(map[ISTIO_INJECTION := "enabled"], c);
    var y := LocalPutNs(x.o, NsController(p, c), FreshNamespace(p, c));
    assert LabelsDone(x.(o := y), p);
    CallWorks(x, y, AfterWrite(CreateNs(p, c), |x.o.nsLog| + 1));
  }

  lemma UpdateWorks(x: Slice, p: Profile, c: Labels, ns: Namespace)
    requires Calm(x) && CaughtUp(x) && x.flight == Some(UpdateNs(p, c, ns))
    ensures Works(x, LocalNext(x, Call("", Ok)))
  {
    SettleIsIdempotent(ns.labels, c);
    var y := LocalPutNs(x.o, NsController(p, c), ns.(labels := Settle(ns.labels, c)));
    assert LabelsDone(x.(o := y), p);
    CallWorks(x, y, AfterWrite(UpdateNs(p, c, ns), |x.o.nsLog| + 1));
  }

  lemma FinalizerWorks(x: Slice)
    requires Calm(x) && CaughtUp(x) && x.flight.Some? &&
             (x.flight.value.AddFinalizer? || x.flight.value.RemoveFinalizer?)
    ensures Works(x, LocalNext(x, Call("", Ok)))
  {
    var f := x.flight.value;
    var q := LocalRequest(x.o, f);
    WithoutMembers(f.p.finalizers, PROFILE_FINALIZER);
    assert q.Success? && q.value.ns == x.o.ns && |q.value.profileLog| == |x.o.profileLog| + 1;
    CallWorks(x, q.value, Done(Complete));
  }

  lemma RejectWorks(x: Slice, p: Profile, gaveUp: bool)
    requires Calm(x) && CaughtUp(x) && x.flight == Some(Reject(p, gaveUp))
    ensures LocalRequest(x.o, Reject(p, gaveUp)) == Success(x.o)
    ensures Works(x, LocalNext(x, Call("", Ok)))
  {
    UnchangedStatus(x.o, p, p.status + [RejectionMessage(p, gaveUp)]);
    CallWorks(x, x.o, AfterWrite(Reject(p, gaveUp), |x.o.nsLog| + 1));
  }

  lemma UnchangedStatus(o: Objects, p: Profile, status: seq<string>)
    requires o.statusSubresource && o.profile == Some(p)
    ensures LocalUpdateProfile(o, Rejecting, p.(status := status)) == Success(o)
  {
  }

  lemma StepWorks(x: Slice, step: Step)
    requires Calm(x) && Quiet(x, step)
    ensures Works(x, LocalNext(x, step))
  {
    match step
    case Call(n, o) =>
      assert LocalNext(x, Call(n, Ok)) == LocalNext(x, Call("", Ok));
      if !Writes(x.flight.value) {
        ReadWorks(x);
      } else {
        match x.flight.value
        case CreateNs(p, c) => CreateWorks(x, p, c);
        case UpdateNs(p, c, ns) => UpdateWorks(x, p, c, ns);
        case Reject(p, gaveUp) => RejectWorks(x, p, gaveUp);
        case _ => FinalizerWorks(x);
      }
    case _ =>
  }

  // ---- a reconcile that has read something out of date --------------------

  /** The reconcile in flight was begun before the last change to what it has read. */
  predicate Stale(x: Slice) {
    x.flight.Some? && !Steady(x, x.flight.value)
  }

  /** Decreases with every quiet step, stale reconciles included: each call of one may undo some work. */
  function Effort(x: Slice): nat {
    Work(x) + if Stale(x) then 300 * CallsLeft(x.flight.value) else 0
  }

  predicate BeforeNamespaceWrite(f: Frame) {
    f.GetConfig? || f.GetNs? || f.CreateNs? || f.UpdateNs?
  }

  /** Namespace writes that may still come: a stale reconcile may make one that has to be made good. */
  function NsBudget(x: Slice): nat {
    if Stale(x) && BeforeNamespaceWrite(x.flight.value) then 2 else NsDue(x)
  }

  function ProfileBudget(x: Slice): nat {
    if Stale(x) then 1 else FinalizerDue(x)
  }

  predicate WithinBudget(x: Slice, y: Slice) {
    && |y.o.nsLog| + NsBudget(y) <= |x.o.nsLog| + NsBudget(x)
    && |y.o.profileLog| + ProfileBudget(y) <= |x.o.profileLog| + ProfileBudget(x)
  }

  /** What a call of any reconcile may commit: at most one version of one object, and of a profile only what was due. */
  lemma CallCommits(x: Slice, f: Frame, y: Objects)
    requires Sound(x) && x.o.statusSubresource && SoundFrame(x.o, f)
    requires y == x.o || (Writes(f) && LocalRequest(x.o, f) == Success(y))
    ensures |y.nsLog| + NsDue(x.(o := y)) <= |x.o.nsLog| + if BeforeNamespaceWrite(f) then 2 else NsDue(x)
    ensures |y.profileLog| + FinalizerDue(x.(o := y)) <= |x.o.profileLog| + 1
  {
    if y == x.o {
      assert x.(o := y) == x;
    } else if !f.CreateNs? && !f.UpdateNs? {
      SameVersionSameProfile(x.o, f.p);
      WithoutMembers(f.p.finalizers, PROFILE_FINALIZER);
      if f.Reject? {
        UnchangedStatus(x.o, f.p, f.p.status + [RejectionMessage(f.p, f.gaveUp)]);
      }
    }
  }

  lemma StaleCallCommits(x: Slice)
    requires Sound(x) && Footing(x) && Stale(x)
    ensures var o := LocalExec(LocalView(x), x.o, x.flight.value, Ok).0;
            && |o.nsLog| + NsDue(x.(o := o)) <= |x.o.nsLog| + NsBudget(x)
            && |o.profileLog| + FinalizerDue(x.(o := o)) <= |x.o.profileLog| + 1
  {
    CallCommits(x, x.flight.value, LocalExec(LocalView(x), x.o, x.flight.value, Ok).0);
  }

  lemma StaleCallWorks(x: Slice)
    requires Sound(x) && Footing(x) && Stale(x)
    ensures var y := LocalNext(x, Call("", Ok)); Effort(y) < Effort(x) && WithinBudget(x, y)
  {
    var (o, next) := LocalExec(LocalView(x), x.o, x.flight.value, Ok);
    StaleCallCommits(x);
    StaleCallEnds(x, o, next);
  }

  lemma StaleCallEnds(x: Slice, o: Objects, next: Sequel)
    requires Stale(x) && (o, next) == LocalExec(LocalView(x), x.o, x.flight.value, Ok)
    requires |o.nsLog| + NsDue(x.(o := o)) <= |x.o.nsLog| + NsBudget(x)
    requires |o.profileLog| + FinalizerDue(x.(o := o)) <= |x.o.profileLog| + 1
    ensures var y := LocalAfterCall(LocalPublish(x, o), next); Effort(y) < Effort(x) && WithinBudget(x, y)
  {
    var y := LocalAfterCall(LocalPublish(x, o), next);
    SameDue(x.(o := o), y);
    assert |y.informer.profileEvents| <= |x.informer.profileEvents| + 1;
    assert |y.informer.nsEvents| <= |x.informer.nsEvents| + 1;
    assert Work(y) < Work(x) + 300;
    if next.Continue? {
      assert CallsLeft(next.frame) + 1 <= CallsLeft(x.flight.value);
    }
  }

  /** A quiet step of a name that has a stale reconcile in flight. */
  lemma StaleStepWorks(x: Slice, step: Step)
    requires Sound(x) && Footing(x) && Stale(x) && Quiet(x, step)
    ensures var y := LocalNext(x, step); Effort(y) < Effort(x) && WithinBudget(x, y)
  {
    match step
    case Call(n, o) =>
      assert LocalNext(x, Call(n, Ok)) == LocalNext(x, Call("", Ok));
      StaleCallWorks(x);
    case ProfileEvent(_) => SameFooting(x, LocalNext(x, step), x.flight.value);
    case NamespaceEvent(_) => SameFooting(x, LocalNext(x, step), x.flight.value);
    case ConfigEvent => SameFooting(x, LocalNext(x, step), x.flight.value);
    case Pick(_) =>
  }

  /** Every quiet step lowers the effort left and stays within the budget of writes. */
  lemma StepEndures(x: Slice, step: Step)
    requires Sound(x) && Footing(x) && Quiet(x, step)
    ensures var y := LocalNext(x, step);
            && Sound(y) && Footing(y)
            && Effort(y) < Effort(x) && WithinBudget(x, y)
            && (!Stale(x) ==> !Stale(y) && Accounted(x, y))
  {
    StepSound(x, step);
    StepTrails(x, step);
    StepGrows(x, step);
    if Stale(x) {
      StaleStepWorks(x, step);
    } else {
      StepWorks(x, step);
    }
    assert LocalNext(x, step).config == x.config;
  }

  // ---- one name, whatever goes on elsewhere -------------------------------

  /** Nobody writes here, and no call made for this name fails. */
  predicate QuietAt(s: State, steps: seq<Step>, n: Name)
    decreases |steps|
  {
    steps == [] ||
    ((Touches(steps[0], n) ==> Quiet(At(s, n), steps[0])) && QuietAt(Next(s, steps[0]), steps[1..], n))
  }

  /** The controller has no step left to make for this name. */
  ghost predicate StuckAt(s: State, n: Name) {
    forall step :: Touches(step, n) ==> !Quiet(At(s, n), step)
  }

  /** The controller never stops with work left for a name: it stops only when the name is idle. */
  lemma StuckMeansIdle(s: State, n: Name)
    requires StuckAt(s, n)
    ensures Idle(At(s, n))
  {
    assert !Quiet(At(s, n), ConfigEvent);
    assert !Quiet(At(s, n), ProfileEvent(n));
    assert !Quiet(At(s, n), NamespaceEvent(n));
    assert !Quiet(At(s, n), Pick(n));
    assert !Quiet(At(s, n), Call(n, Ok));
  }

  lemma QuietStepAt(s: State, step: Step, n: Name)
    requires Sound(At(s, n)) && Footing(At(s, n)) && (Touches(step, n) ==> Quiet(At(s, n), step))
    ensures var x, y := At(s, n), At(Next(s, step), n);
            && Sound(y) && Footing(y)
            && Effort(y) + (if Touches(step, n) then 1 else 0) <= Effort(x)
            && WithinBudget(x, y)
            && (!Stale(x) ==> !Stale(y) && Accounted(x, y))
  {
    NextAt(s, step, n);
    if Touches(step, n) {
      StepEndures(At(s, n), step);
    }
  }

  /**
   Over a run that is quiet at a name, the steps made there are bounded by the
   effort, and the writes are within budget; without a stale reconcile they are
   exactly those that were due at its start.
   */
  lemma {:induction false} QuietRunWrites(s: State, steps: seq<Step>, n: Name)
    requires Sound(At(s, n)) && Footing(At(s, n)) && QuietAt(s, steps, n)
    ensures var x, y := At(s, n), At(Run(s, steps), n);
            && Sound(y) && Footing(y)
            && |Project(steps, n)| + Effort(y) <= Effort(x)
            && WithinBudget(x, y)
            && (!Stale(x) ==> !Stale(y) && Accounted(x, y))
    decreases |steps|
  {
    if steps != [] {
      QuietStepAt(s, steps[0], n);
      QuietRunWrites(Next(s, steps[0]), steps[1..], n);
    }
  }

  lemma {:induction false} QuietIsTame(s: State, steps: seq<Step>, n: Name)
    requires QuietAt(s, steps, n)
    ensures TameAt(s, steps, n)
    decreases |steps|
  {
    if steps != [] {
      QuietIsTame(Next(s, steps[0]), steps[1..], n);
    }
  }

  lemma {:induction false} TameAppend(s: State, a: seq<Step>, b: seq<Step>, n: Name)
    requires TameAt(s, a, n) && TameAt(Run(s, a), b, n)
    ensures TameAt(s, a + b, n)
    decreases |a|
  {
    if a == [] {
      assert a + b == b;
    } else {
      assert (a + b)[0] == a[0] && (a + b)[1..] == a[1..] + b;
      TameAppend(Next(s, a[0]), a[1..], b, n);
    }
  }

  lemma ReachableAt(before: seq<Step>, n: Name)
    requires Run(Empty(true), before).store.config.Some?
    ensures Sound(At(Run(Empty(true), before), n)) && Footing(At(Run(Empty(true), before), n))
  {
    RunSound(Empty(true), before, n);
    RunTrails(Empty(true), before, n);
    RunGrows(Empty(true), before, n);
  }

  /**
   Eventual convergence, from every state the cluster can get into as soon as
   there is a configuration, whatever is in flight, and whatever goes on at other
   names: left alone at `n`, the controller makes at most `Effort` steps there. It
   commits the profile at most once and the namespace at most twice; without a
   stale reconcile it makes exactly the writes that were due, at most one each.
   When no step is left, the name is idle, and settled if others were tame there.
   */
  lemma LeftAloneConverges(before: seq<Step>, calm: seq<Step>, n: Name)
    requires Run(Empty(true), before).store.config.Some?
    requires QuietAt(Run(Empty(true), before), calm, n)
    ensures var s := Run(Empty(true), before);
            var t := Run(s, calm);
            var x, y := At(s, n), At(t, n);
            && |Project(calm, n)| <= Effort(x)
            && |NsLog(t.store, n)| + NsBudget(y) <= |NsLog(s.store, n)| + NsBudget(x)
            && |ProfileLog(t.store, n)| + ProfileBudget(y) <= |ProfileLog(s.store, n)| + ProfileBudget(x)
            && NsBudget(x) <= 2 && ProfileBudget(x) <= 1
            && (!Stale(x) ==>
                  && |NsLog(t.store, n)| - |NsLog(s.store, n)| == NsDue(x) - NsDue(y) <= 1
                  && |ProfileLog(t.store, n)| - |ProfileLog(s.store, n)| == FinalizerDue(x) - FinalizerDue(y))
            && (StuckAt(t, n) ==> Idle(y))
            && (StuckAt(t, n) && TameAt(Empty(true), before, n) ==>
                  Converged(y) && NsDue(y) == FinalizerDue(y) == 0)
  {
    var s := Run(Empty(true), before);
    var t := Run(s, calm);
    ReachableAt(before, n);
    QuietRunWrites(s, calm, n);
    assert At(t, n).o.nsLog == NsLog(t.store, n) && At(s, n).o.nsLog == NsLog(s.store, n);
    if StuckAt(t, n) {
      StuckMeansIdle(t, n);
      if TameAt(Empty(true), before, n) {
        StuckIsConverged(before, calm, n);
      }
    }
  }

  lemma StuckIsConverged(before: seq<Step>, calm: seq<Step>, n: Name)
    requires TameAt(Empty(true), before, n)
    requires var s := Run(Empty(true), before);
             && s.store.config.Some? && QuietAt(s, calm, n)
             && StuckAt(Run(s, calm), n) && Footing(At(Run(s, calm), n))
    ensures var y := At(Run(Run(Empty(true), before), calm), n);
            Converged(y) && NsDue(y) == FinalizerDue(y) == 0
  {
    var s := Run(Empty(true), before);
    StuckMeansIdle(Run(s, calm), n);
    QuietIsTame(s, calm, n);
    TameAppend(Empty(true), before, calm, n);
    RunAppend(Empty(true), before, calm);
    QuiescenceImpliesConvergence(true, before + calm, n);
    NothingDue(At(Run(s, calm), n));
  }

  lemma NothingDue(x: Slice)
    requires Footing(x) && Converged(x)
    ensures NsDue(x) == FinalizerDue(x) == 0
  {
  }

  /** Further reconciles of a settled profile, however many, write nothing. */
  lemma SettledStaysUntouched(s: State, steps: seq<Step>, n: Name)
    requires Sound(At(s, n)) && Calm(At(s, n)) && Converged(At(s, n)) && QuietAt(s, steps, n)
    ensures NsLog(Run(s, steps).store, n) == NsLog(s.store, n)
    ensures ProfileLog(Run(s, steps).store, n) == ProfileLog(s.store, n)
  {
    QuietRunWrites(s, steps, n);
    NothingDue(At(s, n));
    RunGrows(s, steps, n);
    var t := Run(s, steps);
    assert At(s, n).o.nsLog == NsLog(s.store, n) && At(t, n).o.nsLog == NsLog(t.store, n);
  }

  // ---- the whole cluster --------------------------------------------------

  /** Nothing is going on at this name and no configuration event will start anything. */
  predicate Inert(x: Slice) {
    !x.queued && x.flight.None? && x.informer.profileEvents == [] &&
    x.informer.nsEvents == [] && x.informer.profile.None?
  }

  ghost predicate AllOnFooting(s: State) {
    forall n :: Sound(At(s, n)) && Footing(At(s, n))
  }

  ghost predicate Covers(names: seq<Name>, s: State) {
    forall n :: n in names || Inert(At(s, n))
  }

  predicate QuietStep(s: State, step: Step) {
    if step.ConfigEvent? then s.configEvents != []
    else !Global(step) && Quiet(At(s, step.name), step)
  }

  predicate QuietRun(s: State, steps: seq<Step>)
    decreases |steps|
  {
    steps == [] || (QuietStep(s, steps[0]) && QuietRun(Next(s, steps[0]), steps[1..]))
  }

  function SumOfEffort(s: State, names: seq<Name>): nat {
    if names == [] then 0 else Effort(At(s, names[0])) + SumOfEffort(s, names[1..])
  }

  function TotalEffort(s: State, names: seq<Name>): nat {
    |s.configEvents| + SumOfEffort(s, names)
  }

  lemma {:induction false} SumDecreases(s: State, t: State, names: seq<Name>, n: Name)
    requires forall m :: Effort(At(t, m)) <= Effort(At(s, m))
    requires Effort(At(t, n)) < Effort(At(s, n))
    ensures SumOfEffort(t, names) <= SumOfEffort(s, names) - if n in names then 1 else 0
  {
    if names != [] {
      SumDecreases(s, t, names[1..], n);
      assert Effort(At(t, names[0])) <= Effort(At(s, names[0]));
      assert n in names <==> n == names[0] || n in names[1..];
    }
  }

  lemma QuietHere(s: State, step: Step, n: Name)
    requires Sound(At(s, n)) && Footing(At(s, n)) && QuietStep(s, step)
    ensures var x, y := At(s, n), At(Next(s, step), n);
            && Sound(y) && Footing(y)
            && Effort(y) <= Effort(x)
            && (Touches(step, n) ==> Effort(y) < Effort(x))
            && (Inert(x) ==> Inert(y))
  {
    NextAt(s, step, n);
    if Touches(step, n) {
      StepEndures(At(s, n), step);
    }
  }

  /** One quiet step of the cluster: no name has more to do, and at one of them it is strictly less. */
  lemma QuietStepWorks(s: State, step: Step, names: seq<Name>)
    requires AllOnFooting(s) && Covers(names, s) && QuietStep(s, step)
    ensures AllOnFooting(Next(s, step)) && Covers(names, Next(s, step))
    ensures TotalEffort(Next(s, step), names) < TotalEffort(s, names)
  {
    var t := Next(s, step);
    forall n
      ensures Sound(At(t, n)) && Footing(At(t, n)) && Effort(At(t, n)) <= Effort(At(s, n))
      ensures n in names || Inert(At(t, n))
    {
      assert Sound(At(s, n)) && Footing(At(s, n));
      QuietHere(s, step, n);
    }
    var n := if step.ConfigEvent? then "" else step.name;
    assert Sound(At(s, n)) && Footing(At(s, n));
    QuietHere(s, step, n);
    SumDecreases(s, t, names, n);
    ConfigEventsCount(s, step, n);
  }

  /** The step delivers the first configuration event, or leaves them alone and is one of a name that counts. */
  lemma ConfigEventsCount(s: State, step: Step, n: Name)
    requires QuietStep(s, step) && (!step.ConfigEvent? ==> n == step.name)
    ensures step.ConfigEvent? ==> |Next(s, step).configEvents| < |s.configEvents|
    ensures !step.ConfigEvent? ==> !Inert(At(s, n)) && |Next(s, step).configEvents| == |s.configEvents|
  {
    if !step.ConfigEvent? {
      NextAt(s, step, n);
      assert At(Next(s, step), n).configEvents == At(s, n).configEvents;
    }
  }

  /** Quiet runs are finite. */
  lemma {:induction false} QuietRunsEnd(s: State, steps: seq<Step>, names: seq<Name>)
    requires AllOnFooting(s) && Covers(names, s) && QuietRun(s, steps)
    ensures |steps| + TotalEffort(Run(s, steps), names) <= TotalEffort(s, names)
    decreases |steps|
  {
    if steps != [] {
      QuietStepWorks(s, steps[0], names);
      QuietRunsEnd(Next(s, steps[0]), steps[1..], names);
    }
  }

  /** No quiet step is possible any more. */
  ghost predicate Stuck(s: State) {
    forall step :: !QuietStep(s, step)
  }

  lemma StuckIsStuckAt(s: State, n: Name)
    requires Stuck(s)
    ensures StuckAt(s, n)
  {
    forall step | Touches(step, n)
      ensures !Quiet(At(s, n), step)
    {
      assert !QuietStep(s, step);
    }
  }

  lemma {:induction false} QuietRunIsQuietAt(s: State, steps: seq<Step>, n: Name)
    requires QuietRun(s, steps)
    ensures QuietAt(s, steps, n)
    decreases |steps|
  {
    if steps != [] {
      QuietRunIsQuietAt(Next(s, steps[0]), steps[1..], n);
    }
  }

  // ---- from any state the cluster can get into ----------------------------

  /** The names a run is about. */
  function NamesOf(steps: seq<Step>): seq<Name> {
    if steps == [] then []
    else (if Global(steps[0]) then [] else [steps[0].name]) + NamesOf(steps[1..])
  }

  lemma {:induction false} ElsewhereInert(s: State, steps: seq<Step>, n: Name)
    requires n !in NamesOf(steps)
    requires Inert(At(s, n)) && At(s, n).o.profile.None? && At(s, n).o.ns.None?
    ensures Inert(At(Run(s, steps), n))
    decreases |steps|
  {
    if steps != [] {
      NextAt(s, steps[0], n);
      ElsewhereInert(Next(s, steps[0]), steps[1..], n);
    }
  }

  lemma ReachableOnFooting(before: seq<Step>)
    requires Run(Empty(true), before).store.config.Some?
    ensures AllOnFooting(Run(Empty(true), before))
    ensures Covers(NamesOf(before), Run(Empty(true), before))
  {
    var s := Run(Empty(true), before);
    forall n
      ensures Sound(At(s, n)) && Footing(At(s, n))
      ensures n in NamesOf(before) || Inert(At(s, n))
    {
      ReachableAt(before, n);
      if n !in NamesOf(before) {
        ElsewhereInert(Empty(true), before, n);
      }
    }
  }

  /** The controller can always be left alone until it stops. */
  lemma {:induction false} RunsToTheEnd(s: State, names: seq<Name>) returns (calm: seq<Step>)
    requires AllOnFooting(s) && Covers(names, s)
    ensures QuietRun(s, calm) && Stuck(Run(s, calm))
    decreases TotalEffort(s, names)
  {
    calm := [];
    if !Stuck(s) {
      var step :| QuietStep(s, step);
      QuietStepWorks(s, step, names);
      var rest := RunsToTheEnd(Next(s, step), names);
      calm := [step] + rest;
      assert calm[1..] == rest;
    }
  }

  /**
   Left alone as a whole, from any state with a configuration: every run of the
   controller has at most `TotalEffort` steps, and there is one that ends with
   nothing left to do at any name.
   */
  lemma TheControllerStops(before: seq<Step>) returns (calm: seq<Step>)
    requires Run(Empty(true), before).store.config.Some?
    ensures var s := Run(Empty(true), before);
            && (forall steps :: QuietRun(s, steps) ==> |steps| <= TotalEffort(s, NamesOf(before)))
            && QuietRun(s, calm)
            && forall n :: QuietAt(s, calm, n) && StuckAt(Run(s, calm), n)
  {
    var s := Run(Empty(true), before);
    ReachableOnFooting(before);
    forall steps | QuietRun(s, steps)
      ensures |steps| <= TotalEffort(s, NamesOf(before))
    {
      QuietRunsEnd(s, steps, NamesOf(before));
    }
    calm := RunsToTheEnd(s, NamesOf(before));
    forall n
      ensures QuietAt(s, calm, n) && StuckAt(Run(s, calm), n)
    {
      QuietRunIsQuietAt(s, calm, n);
      StuckIsStuckAt(Run(s, calm), n);
    }
  }

  // ---- what would not end -------------------------------------------------

  /**
   A rejection is recorded in the profile's status exactly when the status is not
   a subresource, and then it is the profile's own event that starts the next
   reconcile: rejected profiles would be reconciled for ever.
   */
  lemma RejectionIsRecordedOrEnds(x: Slice, p: Profile, gaveUp: bool)
    requires x.flight == Some(Reject(p, gaveUp)) && x.o.profile == Some(p)
    requires !(p.deleting && p.finalizers == [])
    ensures var y := LocalNext(x, Call("", Ok));
            && y.flight.None?
            && (x.o.statusSubresource ==> y == x.(flight := None))
            && (!x.o.statusSubresource ==>
                  && y.o.profile.Some? && y.o.profile.value.status == p.status + [RejectionMessage(p, gaveUp)]
                  && y.informer.profileEvents == x.informer.profileEvents + [y.o.profile])
  {
    var status := p.status + [RejectionMessage(p, gaveUp)];
    if x.o.statusSubresource {
      UnchangedStatus(x.o, p, status);
      Unpublished(x);
    } else {
      RecordedStatus(x.o, p, status);
    }
  }

  lemma RecordedStatus(o: Objects, p: Profile, status: seq<string>)
    requires !o.statusSubresource && o.profile == Some(p) && |status| > |p.status|
    requires !(p.deleting && p.finalizers == [])
    ensures var r := LocalUpdateProfile(o, Rejecting, p.(status := status));
            r == Success(LocalPutProfile(o, Rejecting, p.(status := status))) &&
            r.value.profile.Some? && r.value.profile.value.status == status && r.value.profile != o.profile
  {
  }

  /** The namespace of this name exists and does not name the profile's owner. */
  predicate Barred(x: Slice) {
    x.o.profile.Some? && x.o.ns.Some? && !OwnedBy(x.o.ns.value, x.o.profile.value.owner)
  }

  /** A steady reconcile of a barred profile has come no further than to its rejection. */
  lemma BarredFlight(x: Slice, f: Frame)
    requires Barred(x) && Steady(x, f)
    ensures !Writes(f) || f.Reject?
  {
  }

  lemma BarredCall(v: View, x: Objects, f: Frame)
    requires x.statusSubresource && (!Writes(f) || (f.Reject? && x.profile == Some(f.p)))
    ensures LocalExec(v, x, f, Ok).0 == x
  {
    if Writes(f) {
      UnchangedStatus(x, f.p, f.p.status + [RejectionMessage(f.p, f.gaveUp)]);
    }
  }

  lemma BarredStep(x: Slice, step: Step)
    requires Calm(x) && Quiet(x, step) && Barred(x)
    ensures LocalNext(x, step).o == x.o
  {
    if step.Call? {
      BarredFlight(x, x.flight.value);
      BarredCall(LocalView(x), x.o, x.flight.value);
    }
  }

  /**
   A profile whose name is a namespace it does not own is left alone, even when
   it is being deleted: however long the controller runs, the finalizer stays and
   the deletion does not complete.
   */
  lemma {:induction false} ForeignNamespaceBlocksDeletion(s: State, steps: seq<Step>, n: Name)
    requires Calm(At(s, n)) && QuietAt(s, steps, n) && Barred(At(s, n))
    ensures ObjectsAt(Run(s, steps).store, n) == ObjectsAt(s.store, n)
    decreases |steps|
  {
    if steps != [] {
      NextAt(s, steps[0], n);
      if Touches(steps[0], n) {
        StepWorks(At(s, n), steps[0]);
        BarredStep(At(s, n), steps[0]);
      }
      assert At(Next(s, steps[0]), n).o == At(s, n).o;
      ForeignNamespaceBlocksDeletion(Next(s, steps[0]), steps[1..], n);
    }
  }
}
