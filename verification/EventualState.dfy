/**
 The concurrent system and the sequential reconcile agree: left alone, the
 cluster ends at every name in what one uninterrupted reconcile of that name
 would have left, begun when the one then in flight is over.
 */
module EventualState {
  import opened Prelude
  import opened NamespaceLabels
  import opened ApiStore
  import opened ReconcileSteps
  import opened StringLists
  import opened Cluster
  import opened Locality
  import opened Safety
  import opened Convergence
  import opened Termination
  import opened CrashRestart

  lemma StepStorable(x: Slice, step: Step)
    requires Storable(x.o)
    ensures Storable(LocalNext(x, step).o)
  {
    AtMostOneCommit(x, step);
  }

  lemma {:induction false} RunStorable(s: State, steps: seq<Step>, n: Name)
    requires Storable(At(s, n).o)
    ensures Storable(At(Run(s, steps), n).o)
    decreases |steps|
  {
    if steps != [] {
      NextAt(s, steps[0], n);
      if Touches(steps[0], n) {
        StepStorable(At(s, n), steps[0]);
      }
      RunStorable(Next(s, steps[0]), steps[1..], n);
    }
  }

  // ---- where a reconcile lands --------------------------------------------

  /** The objects once the reconcile at this frame is over, with nobody else around and no call failing. */
  function Finished(x: Objects, c: Labels, f: Frame): Objects
    decreases CallsLeft(f)
  {
    var (y, next) := LocalExec(ViewOf(x, c), x, f, Ok);
    if next.Continue? then Finished(y, c, next.frame) else y
  }

  lemma {:induction false} DriveFinishes(st: Store, n: Name, f: Frame)
    requires st.config.Some?
    ensures Drive(st, n, f, []).0.config == st.config
    ensures ObjectsAt(Drive(st, n, f, []).0, n) == Finished(ObjectsAt(st, n), st.config.value, f)
    decreases CallsLeft(f)
  {
    ExecAt(DirectView(st, n), st, n, f, Ok, n);
    var (st', next) := Exec(DirectView(st, n), st, n, f, Ok);
    if next.Continue? {
      DriveFinishes(st', n, next.frame);
    }
  }

  lemma {:induction false} FinishedStorable(x: Objects, c: Labels, f: Frame)
    requires Storable(x)
    ensures Storable(Finished(x, c, f))
    decreases CallsLeft(f)
  {
    ExecCommitsOnce(ViewOf(x, c), x, f, Ok);
    var (y, next) := LocalExec(ViewOf(x, c), x, f, Ok);
    if next.Continue? {
      FinishedStorable(y, c, next.frame);
    }
  }

  lemma {:induction false} FinishedKeepsGoal(x: Objects, c: Labels, f: Frame)
    requires Storable(x) && Aligned(x, c, f)
    ensures Goal(Finished(x, c, f), c) == Goal(x, c)
    decreases CallsLeft(f)
  {
    CallKeepsGoal(x, c, f, Ok);
    var (y, next) := LocalExec(ViewOf(x, c), x, f, Ok);
    if next.Continue? {
      FinishedKeepsGoal(y, c, next.frame);
    }
  }

  /** The store once the reconcile of `n` that is in flight has run to its end. */
  function AfterFlight(s: State, n: Name): Store {
    if n in s.flights then Drive(s.store, n, s.flights[n], []).0 else s.store
  }

  function Landed(x: Slice): Objects
    requires x.config.Some?
  {
    if x.flight.Some? then Finished(x.o, x.config.value, x.flight.value) else x.o
  }

  function Destination(x: Slice): Shape
    requires x.config.Some?
  {
    Goal(Landed(x), x.config.value)
  }

  /** No quiet step changes what a name is heading for, however stale the reconcile in flight. */
  lemma StepKeepsDestination(x: Slice, step: Step)
    requires Footing(x) && Storable(x.o) && Quiet(x, step)
    ensures var y := LocalNext(x, step); y.config == x.config && Destination(y) == Destination(x)
  {
    match step
    case Pick(_) => FinishedKeepsGoal(x.o, x.config.value, GetProfile);
    case Call(_, o) => assert LocalView(x) == ViewOf(x.o, x.config.value);
    case _ =>
  }

  lemma {:induction false} QuietRunKeepsDestination(s: State, steps: seq<Step>, n: Name)
    requires Footing(At(s, n)) && Storable(At(s, n).o) && QuietAt(s, steps, n)
    ensures var x, y := At(s, n), At(Run(s, steps), n);
            y.config == x.config && Destination(y) == Destination(x)
    decreases |steps|
  {
    if steps != [] {
      NextAt(s, steps[0], n);
      if Touches(steps[0], n) {
        StepTrails(At(s, n), steps[0]);
        StepGrows(At(s, n), steps[0]);
        StepKeepsDestination(At(s, n), steps[0]);
        StepStorable(At(s, n), steps[0]);
      }
      QuietRunKeepsDestination(Next(s, steps[0]), steps[1..], n);
    }
  }

  lemma ConvergedIsGoal(x: Slice)
    requires Converged(x) && x.config.Some?
    ensures Visible(x.o) == Goal(x.o, x.config.value)
  {
  }

  // ---- left alone ---------------------------------------------------------

  /**
   The run `before` was tame at `n`, and the controller was then left alone there
   until it had no step left to make, whatever went on at other names.
   */
  ghost predicate LeftAlone(before: seq<Step>, calm: seq<Step>, n: Name) {
    && TameAt(Empty(true), before, n)
    && var s := Run(Empty(true), before);
    && s.store.config.Some?
    && QuietAt(s, calm, n)
    && StuckAt(Run(s, calm), n)
  }

  lemma LeftAloneReachesGoal(before: seq<Step>, calm: seq<Step>, n: Name)
    requires LeftAlone(before, calm, n)
    ensures var s := Run(Empty(true), before);
            && Storable(ObjectsAt(AfterFlight(s, n), n))
            && AfterFlight(s, n).config == s.store.config
            && Visible(ObjectsAt(Run(s, calm).store, n)) == Goal(ObjectsAt(AfterFlight(s, n), n), s.store.config.value)
  {
    var s := Run(Empty(true), before);
    var t := Run(s, calm);
    LeftAloneConverges(before, calm, n);
    ReachableAt(before, n);
    RunStorable(Empty(true), before, n);
    QuietRunKeepsDestination(s, calm, n);
    ConvergedIsGoal(At(t, n));
    assert At(s, n).o == ObjectsAt(s.store, n) && At(t, n).o == ObjectsAt(t.store, n);
    if n in s.flights {
      DriveFinishes(s.store, n, s.flights[n]);
      FinishedStorable(ObjectsAt(s.store, n), s.store.config.value, s.flights[n]);
    }
  }

  /**
   From every state the cluster can get into: the controller left alone until it
   has nothing more to do leaves at `n` the annotations, labels, owner and
   finalizers that one sequential reconcile without faults leaves there, begun
   where the reconcile in flight, if there is one, has come to its end.
   */
  lemma LeftAloneIsOneReconcile(before: seq<Step>, calm: seq<Step>, n: Name)
    requires LeftAlone(before, calm, n)
    ensures var s := Run(Empty(true), before);
            Visible(ObjectsAt(Run(s, calm).store, n)) == Visible(ObjectsAt(Reconciled(AfterFlight(s, n), n, []).0, n))
  {
    LeftAloneReachesGoal(before, calm, n);
    CutAndRestartedIsUninterrupted(AfterFlight(Run(Empty(true), before), n), n, [], [], n);
  }

  // ---- deletion -----------------------------------------------------------

  /** The controller's finalizer is off the profile, or the profile is gone. */
  predicate Released(st: Store, n: Name) {
    n in st.profiles ==> PROFILE_FINALIZER !in st.profiles[n].finalizers
  }

  /**
   A profile being deleted is released exactly when its namespace is missing or
   names its owner at the time the reconcile in flight, if any, is over: the
   namespace of somebody else holds the deletion up for as long as it is there.
   */
  lemma DeletionCompletesIff(before: seq<Step>, calm: seq<Step>, n: Name)
    requires LeftAlone(before, calm, n)
    requires var st := AfterFlight(Run(Empty(true), before), n);
             n in st.profiles && st.profiles[n].deleting && !Released(st, n)
    ensures var s := Run(Empty(true), before);
            var st := AfterFlight(s, n);
            Released(Run(s, calm).store, n) <==>
              n !in st.namespaces || OwnedBy(st.namespaces[n], st.profiles[n].owner)
  {
    var s := Run(Empty(true), before);
    var st, end := AfterFlight(s, n), Run(s, calm).store;
    LeftAloneReachesGoal(before, calm, n);
    WithoutMembers(st.profiles[n].finalizers, PROFILE_FINALIZER);
    assert ObjectsAt(st, n).profile == Some(st.profiles[n]);
    assert Visible(ObjectsAt(end, n)).profile.Some? <==> n in end.profiles;
    assert n in end.profiles ==> Visible(ObjectsAt(end, n)).profile.value.finalizers == end.profiles[n].finalizers;
  }
}
