/**
 Runs worth knowing: what can go wrong, built step by step from the empty
 cluster, and what then goes on for ever.
 */
module Scenarios {
  import opened Prelude
  import opened NamespaceLabels
  import opened ApiStore
  import opened ReconcileSteps
  import opened StringLists
  import opened Cluster
  import opened Locality
  import opened Isolation
  import opened Safety
  import opened Convergence
  import opened Termination
  import opened CrashRestart
  import opened EventualState

  // ---- building a run -----------------------------------------------------

  lemma Extend(sub: bool, steps: seq<Step>, step: Step, n: Name) returns (longer: seq<Step>)
    requires Touches(step, n)
    ensures longer == steps + [step]
    ensures At(Run(Empty(sub), longer), n) == LocalNext(At(Run(Empty(sub), steps), n), step)
    ensures TameAt(Empty(sub), steps, n) && Tame(At(Run(Empty(sub), steps), n), step) ==> TameAt(Empty(sub), longer, n)
  {
    var s := Run(Empty(sub), steps);
    longer := steps + [step];
    RunAppend(Empty(sub), steps, [step]);
    assert Run(s, [step]) == Next(s, step) by {
      assert [step][1..] == [];
    }
    NextAt(s, step, n);
    if TameAt(Empty(sub), steps, n) && Tame(At(s, n), step) {
      assert [step][1..] == [];
      TameAppend(Empty(sub), steps, [step], n);
    }
  }

  const NO_LABELS: Labels := map[]

  function AliceAt(version: nat, finalizers: seq<string>, deleting: bool): Profile {
    Profile(version, "alice", finalizers, deleting, [])
  }

  /** A namespace somebody made by hand. */
  const STRANGER := Namespace(0, map[], NO_LABELS, false)

  lemma NothingToSettle()
    ensures Settled(NO_LABELS, NO_LABELS)
  {
    assert Settle(NO_LABELS, NO_LABELS).Keys == {};
  }

  /** Both caches hold what is stored, and nothing is going on. */
  predicate AtRest(x: Slice, sub: bool, profile: Profile, ns: Option<Namespace>) {
    && x.o.profile == x.informer.profile == Some(profile)
    && x.o.ns == x.informer.ns == ns
    && x.config == x.seenConfig == Some(NO_LABELS)
    && x.o.statusSubresource == sub
    && CaughtUp(x) && x.flight.None?
  }

  lemma ArrangeConfig(sub: bool, n: Name) returns (steps: seq<Step>)
    ensures TameAt(Empty(sub), steps, n)
    ensures At(Run(Empty(sub), steps), n)
            == Slice(Objects(None, None, [], [], sub), NO_NEWS, false, None, Some(NO_LABELS), Some(NO_LABELS), [])
  {
    steps := [];
    assert At(Run(Empty(sub), steps), n) ==
             Slice(Objects(None, None, [], [], sub), NO_NEWS, false, None, None, None, []);
    steps := Extend(sub, steps, EditConfig(Some(NO_LABELS)), n);
    steps := Extend(sub, steps, ConfigEvent, n);
  }

  lemma ArrangeProfile(sub: bool, n: Name, finalizers: seq<string>) returns (steps: seq<Step>)
    ensures TameAt(Empty(sub), steps, n)
    ensures var x := At(Run(Empty(sub), steps), n);
            && AtRest(x, sub, AliceAt(1, finalizers, false), None) && x.queued && x.o.nsLog == []
  {
    steps := ArrangeConfig(sub, n);
    steps := Extend(sub, steps, EditProfile(n, AliceAt(0, finalizers, false)), n);
    var x := At(Run(Empty(sub), steps), n);
    assert x.o.profile == Some(AliceAt(1, finalizers, false));
    assert x.informer.profileEvents == [x.o.profile];
    steps := Extend(sub, steps, ProfileEvent(n), n);
  }

  /** A profile and a namespace, made by others and known to the controller. */
  lemma Arrange(sub: bool, n: Name, finalizers: seq<string>, ns: Namespace) returns (steps: seq<Step>)
    requires TameNs(Some(ns))
    ensures TameAt(Empty(sub), steps, n)
    ensures var x := At(Run(Empty(sub), steps), n);
            AtRest(x, sub, AliceAt(1, finalizers, false), Some(ns.(version := 1))) && x.queued
  {
    steps := ArrangeProfile(sub, n, finalizers);
    steps := Extend(sub, steps, EditNamespace(n, Some(ns)), n);
    var y := At(Run(Empty(sub), steps), n);
    assert y.informer.nsEvents == [NsEvent(None, Some(ns.(version := 1)))];
    steps := Extend(sub, steps, NamespaceEvent(n), n);
  }

  lemma DeletionAsked(x: Slice, sub: bool, n: Name, finalizers: seq<string>, ns: Option<Namespace>)
    requires AtRest(x, sub, AliceAt(1, finalizers, false), ns) && Sound(x) && finalizers != []
    ensures var y := LocalNext(x, EditProfile(n, AliceAt(0, finalizers, true)));
            && y.o.profile == Some(AliceAt(2, finalizers, true))
            && y.informer == x.informer.(profileEvents := [y.o.profile])
            && y == x.(o := y.o, informer := y.informer) && y.o.ns == ns && y.o.statusSubresource == sub
  {
    assert |x.o.profileLog| == 1;
    assert x.informer.nsEvents + [] == x.informer.nsEvents;
    assert x.informer.profileEvents + [Some(AliceAt(2, finalizers, true))] == [Some(AliceAt(2, finalizers, true))];
  }

  /** Somebody asks for the deletion of the profile, and the controller is told. */
  lemma AskForDeletion(sub: bool, n: Name, steps: seq<Step>, finalizers: seq<string>, ns: Option<Namespace>)
      returns (longer: seq<Step>)
    requires TameAt(Empty(sub), steps, n) && finalizers != []
    requires AtRest(At(Run(Empty(sub), steps), n), sub, AliceAt(1, finalizers, false), ns)
    requires Sound(At(Run(Empty(sub), steps), n))
    ensures TameAt(Empty(sub), longer, n)
    ensures var x := At(Run(Empty(sub), longer), n);
            AtRest(x, sub, AliceAt(2, finalizers, true), ns) && x.queued
  {
    DeletionAsked(At(Run(Empty(sub), steps), n), sub, n, finalizers, ns);
    longer := Extend(sub, steps, EditProfile(n, AliceAt(0, finalizers, true)), n);
    longer := Extend(sub, longer, ProfileEvent(n), n);
  }

  /** The reconcile goes as far as its look at the namespace. */
  lemma ReconcileUpToNamespace(sub: bool, n: Name, steps: seq<Step>, profile: Profile, ns: Option<Namespace>)
      returns (longer: seq<Step>)
    requires TameAt(Empty(sub), steps, n)
    requires AtRest(At(Run(Empty(sub), steps), n), sub, profile, ns) && At(Run(Empty(sub), steps), n).queued
    ensures TameAt(Empty(sub), longer, n)
    ensures At(Run(Empty(sub), longer), n)
            == At(Run(Empty(sub), steps), n).(queued := false, flight := Some(GetNs(profile, NO_LABELS)))
  {
    longer := Extend(sub, steps, Pick(n), n);
    longer := ReadOn(sub, n, longer, profile, GetProfile, GetConfig(profile));
    longer := ReadOn(sub, n, longer, profile, GetConfig(profile), GetNs(profile, NO_LABELS));
  }

  /** One read that leads from one frame to the next. */
  lemma ReadOn(sub: bool, n: Name, steps: seq<Step>, profile: Profile, f: Frame, g: Frame) returns (longer: seq<Step>)
    requires TameAt(Empty(sub), steps, n)
    requires var x := At(Run(Empty(sub), steps), n);
             x.flight == Some(f) && !Writes(f) && AfterRead(LocalView(x), f, Ok) == Continue(g)
    ensures TameAt(Empty(sub), longer, n)
    ensures At(Run(Empty(sub), longer), n) == At(Run(Empty(sub), steps), n).(flight := Some(g))
  {
    longer := Extend(sub, steps, Call(n, Ok), n);
    Unpublished(At(Run(Empty(sub), steps), n));
  }

  // ---- a namespace of somebody else ---------------------------------------

  /**
   A profile being deleted whose namespace is somebody else's: left alone, the
   controller stops with the finalizer still in place.
   */
  lemma DeletionHeldUp(n: Name) returns (before: seq<Step>, calm: seq<Step>)
    ensures LeftAlone(before, calm, n)
    ensures var s := Run(Empty(true), before);
            && n !in s.flights && n in s.store.profiles && s.store.profiles[n].deleting
            && !Released(s.store, n)
            && !Released(Run(s, calm).store, n)
  {
    var fs := [PROFILE_FINALIZER];
    before := Arrange(true, n, fs, STRANGER);
    RunSound(Empty(true), before, n);
    before := AskForDeletion(true, n, before, fs, Some(STRANGER.(version := 1)));
    var s := Run(Empty(true), before);
    var x := At(s, n);
    assert x.o.profile == Lookup(s.store.profiles, n) && x.o.ns == Lookup(s.store.namespaces, n);
    assert x.flight == Lookup(s.flights, n) && x.config == s.store.config;
    assert n in s.store.profiles && s.store.profiles[n] == AliceAt(2, fs, true);
    assert PROFILE_FINALIZER in fs;
    calm := TheControllerStops(before);
    assert QuietAt(s, calm, n) && StuckAt(Run(s, calm), n);
    DeletionCompletesIff(before, calm, n);
  }

  const FINALIZERS := [PROFILE_FINALIZER]

  lemma RemovalIsNext(x: Slice, mine: Namespace)
    requires mine.annotations == map[OWNER := "alice"] && mine.labels == NO_LABELS
    requires x.informer.ns == Some(mine)
    ensures var p := AliceAt(2, FINALIZERS, true);
            AfterRead(LocalView(x), GetNs(p, NO_LABELS), Ok) == Continue(RemoveFinalizer(p, SawNamespace(mine)))
  {
    NothingToSettle();
    assert FINALIZERS[0] == PROFILE_FINALIZER;
  }

  /** A reconcile that is about to take the finalizer off a profile whose namespace it has seen owned. */
  lemma RemovalInFlight(n: Name, mine: Namespace) returns (before: seq<Step>)
    requires mine == Namespace(0, map[OWNER := "alice"], NO_LABELS, true)
    ensures TameAt(Empty(true), before, n)
    ensures var x := At(Run(Empty(true), before), n);
            && AtRest(x.(flight := None), true, AliceAt(2, FINALIZERS, true), Some(mine.(version := 1)))
            && x.flight == Some(RemoveFinalizer(AliceAt(2, FINALIZERS, true), SawNamespace(mine.(version := 1))))
  {
    before := Arrange(true, n, FINALIZERS, mine);
    RunSound(Empty(true), before, n);
    before := AskForDeletion(true, n, before, FINALIZERS, Some(mine.(version := 1)));
    var p := AliceAt(2, FINALIZERS, true);
    before := ReconcileUpToNamespace(true, n, before, p, Some(mine.(version := 1)));
    RemovalIsNext(At(Run(Empty(true), before), n), mine.(version := 1));
    before := ReadOn(true, n, before, p, GetNs(p, NO_LABELS), RemoveFinalizer(p, SawNamespace(mine.(version := 1))));
  }

  /** Removing a last finalizer checks the version of the profile and nothing else. */
  lemma LastFinalizerGoes(x: Slice, n: Name, p: Profile, ev: Evidence)
    requires x.flight == Some(RemoveFinalizer(p, ev)) && x.o.profile == Some(p)
    requires p.deleting && p.finalizers == [PROFILE_FINALIZER]
    ensures LocalNext(x, Call(n, Ok)).o.profile.None?
  {
    assert Without(p.finalizers, PROFILE_FINALIZER) == [];
  }

  /**
   ... unless a reconcile that saw an older, owned version of the namespace is
   still in flight: only the version of the profile is checked, so it takes the
   finalizer off although the namespace is somebody else's by now.
   */
  lemma StaleRemovalReleases(n: Name) returns (before: seq<Step>)
    ensures TameAt(Empty(true), before, n)
    ensures var x := At(Run(Empty(true), before), n);
            && Barred(x) && PROFILE_FINALIZER in x.o.profile.value.finalizers
            && LocalNext(x, Call(n, Ok)).o.profile.None?
  {
    var mine := Namespace(0, map[OWNER := "alice"], NO_LABELS, true);
    before := RemovalInFlight(n, mine);
    var x := At(Run(Empty(true), before), n);
    before := Extend(true, before, EditNamespace(n, Some(mine.(annotations := map[OWNER := "bob"]))), n);
    var y := At(Run(Empty(true), before), n);
    assert y.flight == x.flight && y.o.profile == x.o.profile;
    LastFinalizerGoes(y, n, x.o.profile.value, SawNamespace(mine.(version := 1)));
  }

  // ---- a namespace nobody watches -----------------------------------------

  /**
   A rejected profile is stranded when the namespace that stood in its way is
   deleted: nothing wakes the controller, and nothing is left to do it later.
   */
  lemma Stranded(n: Name) returns (before: seq<Step>)
    ensures TameAt(Empty(true), before, n)
    ensures var x := At(Run(Empty(true), before), n);
            var y := LocalNext(LocalNext(x, EditNamespace(n, None)), NamespaceEvent(n));
            Idle(x) && Converged(x) && Idle(y) && !Converged(y)
  {
    var p := AliceAt(1, [], false);
    before := Arrange(true, n, [], STRANGER);
    before := ReconcileUpToNamespace(true, n, before, p, Some(STRANGER.(version := 1)));
    before := ReadOn(true, n, before, p, GetNs(p, NO_LABELS), Reject(p, false));
    var x := At(Run(Empty(true), before), n);
    before := Extend(true, before, Call(n, Ok), n);
    RejectedSilently(x, n, p, false);
    UnwatchedEdit(x.(flight := None), n, None);
  }

  // ---- a wait that is outrun ----------------------------------------------

  function Calls(n: Name, outcomes: seq<Outcome>): seq<Step> {
    if outcomes == [] then [] else [Call(n, outcomes[0])] + Calls(n, outcomes[1..])
  }

  lemma {:induction false} WaitingInVain(x: Slice, n: Name, p: Profile, ev: Evidence, left: nat, outcomes: seq<Outcome>)
    requires x.flight == Some(AwaitNs(p, ev, left)) && x.informer.ns.None? && |outcomes| == left + 1
    ensures LocalRun(x, Calls(n, outcomes)) == x.(flight := Some(Reject(p, true)))
    decreases left
  {
    Unpublished(x);
    var y := LocalNext(x, Call(n, outcomes[0]));
    assert Calls(n, outcomes)[1..] == Calls(n, outcomes[1..]);
    if left > 0 {
      assert y == x.(flight := Some(AwaitNs(p, ev, left - 1)));
      WaitingInVain(y, n, p, ev, left - 1, outcomes[1..]);
    } else {
      assert Calls(n, outcomes[1..]) == [];
    }
  }

  /** The reconcile is about to create the namespace, and no event is under way. */
  predicate AboutToCreate(x: Slice, p: Profile, c: Labels) {
    && x.flight == Some(CreateNs(p, c))
    && x.o.profile == Some(p) && x.o.ns.None? && x.o.statusSubresource
    && x.informer.ns.None? && x.informer.nsEvents == []
  }

  lemma Created(x: Slice, n: Name, p: Profile, c: Labels)
    requires AboutToCreate(x, p, c)
    ensures var made := FreshNamespace(p, c).(version := |x.o.nsLog| + 1);
            var y := LocalNext(x, Call(n, Ok));
            && y.flight == Some(AwaitNs(p, MadeNamespace(|x.o.nsLog| + 1), MAX_WAIT_RETRIES))
            && y.o.ns == Some(made) && y.o.profile == Some(p) && y.o.statusSubresource
            && y.informer.ns.None? && y.informer.nsEvents == [NsEvent(None, Some(made))]
  {
  }

  lemma RejectedSilently(x: Slice, n: Name, p: Profile, gaveUp: bool)
    requires x.flight == Some(Reject(p, gaveUp)) && x.o.profile == Some(p) && x.o.statusSubresource
    ensures LocalNext(x, Call(n, Ok)) == x.(flight := None)
  {
    UnchangedStatus(x.o, p, p.status + [RejectionMessage(p, gaveUp)]);
    Unpublished(x);
  }

  lemma GaveUpAndWoken(x: Slice, n: Name, p: Profile, made: Namespace)
    requires x.flight == Some(Reject(p, true)) && x.o.profile == Some(p) && x.o.statusSubresource
    requires x.informer.nsEvents == [NsEvent(None, Some(made))] && made.controlled
    ensures var y := LocalNext(x, Call(n, Ok));
            var z := LocalNext(y, NamespaceEvent(n));
            y == x.(flight := None) && z.queued && z.informer.ns == Some(made)
  {
    RejectedSilently(x, n, p, true);
  }

  /**
   The wait for a namespace just created reads the cache. If the event of the
   creation is late, all its reads fail, whatever they answer otherwise, and the
   profile is rejected although its namespace is there. The event then queues it.
   */
  lemma WaitOutrunByTheCache(s: State, n: Name, p: Profile, c: Labels, outcomes: seq<Outcome>)
    requires AboutToCreate(At(s, n), p, c) && |outcomes| == 6
    ensures var x := At(Run(Run(Run(s, [Call(n, Ok)]), Calls(n, outcomes)), [Call(n, Ok)]), n);
            && x.flight.None?
            && x.o.ns == Some(FreshNamespace(p, c).(version := |At(s, n).o.nsLog| + 1))
            && x.o.profile == Some(p)
            && LocalNext(x, NamespaceEvent(n)).queued
            && LocalNext(x, NamespaceEvent(n)).informer.ns == x.o.ns
  {
    var s1 := Run(s, [Call(n, Ok)]);
    var s2 := Run(s1, Calls(n, outcomes));
    CallsTouch(n, outcomes);
    RunAt(s, [Call(n, Ok)], n);
    RunAt(s1, Calls(n, outcomes), n);
    RunAt(s2, [Call(n, Ok)], n);
    LocalRunOne(At(s, n), Call(n, Ok));
    LocalRunOne(At(s2, n), Call(n, Ok));
    Created(At(s, n), n, p, c);
    WaitingInVain(At(s1, n), n, p, MadeNamespace(|At(s, n).o.nsLog| + 1), MAX_WAIT_RETRIES, outcomes);
    GaveUpAndWoken(At(s2, n), n, p, FreshNamespace(p, c).(version := |At(s, n).o.nsLog| + 1));
  }

  /** Such a state is reached from the empty cluster by a profile and its first reconcile. */
  lemma AboutToCreateIsReached(n: Name) returns (before: seq<Step>)
    ensures TameAt(Empty(true), before, n)
    ensures AboutToCreate(At(Run(Empty(true), before), n), AliceAt(1, [], false), NO_LABELS)
  {
    var p := AliceAt(1, [], false);
    before := ArrangeProfile(true, n, []);
    before := ReconcileUpToNamespace(true, n, before, p, None);
    before := ReadOn(true, n, before, p, GetNs(p, NO_LABELS), CreateNs(p, NO_LABELS));
  }

  // ---- exactly when a wait fails ------------------------------------------

  /** One of the reads of the wait is answered while the cache has the namespace. */
  predicate Seen(x: Slice, steps: seq<Step>)
    decreases |steps|
  {
    steps != [] &&
    ((steps[0].Call? && steps[0].outcome.Ok? && x.flight.Some? && x.flight.value.AwaitNs? && x.informer.ns.Some?)
     || Seen(LocalNext(x, steps[0]), steps[1..]))
  }

  function CallCount(steps: seq<Step>): nat {
    if steps == [] then 0 else (if steps[0].Call? then 1 else 0) + CallCount(steps[1..])
  }

  /** The reconcile in flight is neither cut short nor followed by another one. */
  predicate Uncut(steps: seq<Step>) {
    forall i :: 0 <= i < |steps| ==> !steps[i].Pick? && !steps[i].Restart?
  }

  lemma OnlyCallsMoveFlights(x: Slice, step: Step)
    requires !step.Call? && !step.Pick? && !step.Restart?
    ensures LocalNext(x, step).flight == x.flight
  {
  }

  lemma {:induction false} RejectingStays(x: Slice, steps: seq<Step>)
    requires Uncut(steps) && CallCount(steps) == 0
    requires x.flight.Some? && !x.flight.value.AwaitNs?
    ensures LocalRun(x, steps).flight == x.flight && !Seen(x, steps)
    decreases |steps|
  {
    if steps != [] {
      OnlyCallsMoveFlights(x, steps[0]);
      RejectingStays(LocalNext(x, steps[0]), steps[1..]);
    }
  }

  predicate PastTheWait(flight: Option<Frame>) {
    flight.Some? ==> flight.value.AddFinalizer? || flight.value.RemoveFinalizer?
  }

  lemma {:induction false} PastTheWaitStays(x: Slice, steps: seq<Step>)
    requires Uncut(steps) && PastTheWait(x.flight)
    ensures PastTheWait(LocalRun(x, steps).flight)
    decreases |steps|
  {
    if steps != [] {
      if !steps[0].Call? {
        OnlyCallsMoveFlights(x, steps[0]);
      }
      PastTheWaitStays(LocalNext(x, steps[0]), steps[1..]);
    }
  }

  lemma WaitStep(x: Slice, step: Step, p: Profile, ev: Evidence, left: nat)
    requires x.flight == Some(AwaitNs(p, ev, left)) && !step.Pick? && !step.Restart?
    ensures var y := LocalNext(x, step);
            if !step.Call? then y.flight == x.flight
            else if step.outcome.Ok? && x.informer.ns.Some? then PastTheWait(y.flight)
            else y.flight == Some(if left == 0 then Reject(p, true) else AwaitNs(p, ev, left - 1))
  {
    if !step.Call? {
      OnlyCallsMoveFlights(x, step);
    }
  }

  lemma {:induction false} WaitEnds(x: Slice, steps: seq<Step>, p: Profile, ev: Evidence, left: nat)
    requires x.flight == Some(AwaitNs(p, ev, left)) && Uncut(steps) && CallCount(steps) == left + 1
    ensures LocalRun(x, steps).flight == Some(Reject(p, true)) <==> !Seen(x, steps)
    decreases |steps|
  {
    var y, rest := LocalNext(x, steps[0]), steps[1..];
    assert Uncut(rest);
    WaitStep(x, steps[0], p, ev, left);
    if !steps[0].Call? {
      WaitEnds(y, rest, p, ev, left);
    } else if steps[0].outcome.Ok? && x.informer.ns.Some? {
      PastTheWaitStays(y, rest);
    } else if left == 0 {
      RejectingStays(y, rest);
    } else {
      WaitEnds(y, rest, p, ev, left - 1);
    }
  }

  /**
   The wait for a new namespace, with its six reads among any steps of anybody:
   it ends in the rejection of the profile exactly when none of the reads was
   answered while the cache had the namespace.
   */
  lemma WaitRejectsIff(s: State, steps: seq<Step>, n: Name, p: Profile, ev: Evidence)
    requires At(s, n).flight == Some(AwaitNs(p, ev, MAX_WAIT_RETRIES))
    requires Uncut(Project(steps, n)) && CallCount(Project(steps, n)) == 6
    ensures Lookup(Run(s, steps).flights, n) == Some(Reject(p, true)) <==> !Seen(At(s, n), Project(steps, n))
  {
    RunProjects(s, steps, n);
    WaitEnds(At(s, n), Project(steps, n), p, ev, MAX_WAIT_RETRIES);
    assert Lookup(Run(s, steps).flights, n) == At(Run(s, steps), n).flight;
  }

  lemma {:induction false} CallsTouch(n: Name, outcomes: seq<Outcome>)
    ensures forall step :: step in Calls(n, outcomes) ==> Touches(step, n)
  {
    if outcomes != [] {
      CallsTouch(n, outcomes[1..]);
    }
  }

  lemma LocalRunOne(x: Slice, step: Step)
    ensures LocalRun(x, [step]) == LocalNext(x, step)
  {
    assert [step][1..] == [];
  }

  // ---- rejections that are recorded ---------------------------------------

  /** A barred profile about to be reconciled, on a server that stores the status. */
  predicate Restless(x: Slice) {
    && x.queued && x.flight.None? && CaughtUp(x) && Trails(x)
    && x.config.Some? && !x.o.statusSubresource
    && Barred(x) && Storable(x.o)
  }

  /** One reconcile, up to the event of the status it has written. */
  function Round(n: Name): seq<Step> {
    [Pick(n), Call(n, Ok), Call(n, Ok), Call(n, Ok), Call(n, Ok), ProfileEvent(n)]
  }

  predicate QuietAlong(x: Slice, steps: seq<Step>)
    decreases |steps|
  {
    steps == [] || (Quiet(x, steps[0]) && QuietAlong(LocalNext(x, steps[0]), steps[1..]))
  }

  lemma {:induction false} QuietAlongIsQuiet(s: State, steps: seq<Step>, n: Name)
    requires forall step :: step in steps ==> !Global(step) && step.name == n
    requires QuietAlong(At(s, n), steps)
    ensures QuietRun(s, steps)
    decreases |steps|
  {
    if steps != [] {
      NextAt(s, steps[0], n);
      QuietAlongIsQuiet(Next(s, steps[0]), steps[1..], n);
    }
  }

  lemma RejectionWritten(x: Slice, n: Name, p: Profile)
    requires x.flight == Some(Reject(p, false)) && x.o.profile == Some(p) && x.informer.profileEvents == []
    requires !x.o.statusSubresource && Storable(x.o)
    ensures var y := LocalNext(x, Call(n, Ok));
            var q := p.(status := p.status + [RejectionMessage(p, false)], version := |x.o.profileLog| + 1);
            && y.flight.None? && y.o.profile == Some(q) && y.o.ns == x.o.ns
            && |y.o.profileLog| == |x.o.profileLog| + 1 && y.o.statusSubresource == x.o.statusSubresource
            && y.informer == x.informer.(profileEvents := [Some(q)])
            && y.config == x.config && y.seenConfig == x.seenConfig && y.configEvents == x.configEvents
  {
    var status := p.status + [RejectionMessage(p, false)];
    RecordedStatus(x.o, p, status);
    assert x.informer.nsEvents + [] == x.informer.nsEvents;
    assert [] + [Some(p)] == [Some(p)];
  }

  lemma OneRound(x: Slice, n: Name)
    requires Restless(x)
    ensures QuietAlong(x, Round(n))
    ensures var y := LocalRun(x, Round(n)); Restless(y) && |y.o.profileLog| == |x.o.profileLog| + 1
  {
    var p, c := x.o.profile.value, x.config.value;
    var x1 := x.(queued := false, flight := Some(GetProfile));
    var x2, x3 := x1.(flight := Some(GetConfig(p))), x1.(flight := Some(GetNs(p, c)));
    var x4 := x1.(flight := Some(Reject(p, false)));
    Unpublished(x1);
    Unpublished(x2);
    Unpublished(x3);
    assert LocalNext(x, Pick(n)) == x1 && LocalNext(x1, Call(n, Ok)) == x2;
    assert LocalNext(x2, Call(n, Ok)) == x3 && LocalNext(x3, Call(n, Ok)) == x4;
    RejectionWritten(x4, n, p);
    var x5 := LocalNext(x4, Call(n, Ok));
    var x6 := LocalNext(x5, ProfileEvent(n));
    assert Restless(x6);
    Rounding(x, n, x1, x2, x3, x4, x5, x6);
  }

  lemma RoundEnd(x3: Slice, n: Name, x4: Slice, x5: Slice, x6: Slice)
    requires LocalNext(x3, Call(n, Ok)) == x4 && LocalNext(x4, Call(n, Ok)) == x5 &&
             LocalNext(x5, ProfileEvent(n)) == x6
    requires Quiet(x3, Call(n, Ok)) && Quiet(x4, Call(n, Ok)) && Quiet(x5, ProfileEvent(n))
    ensures var steps := [Call(n, Ok), Call(n, Ok), ProfileEvent(n)];
            LocalRun(x3, steps) == x6 && QuietAlong(x3, steps)
  {
    var call, last := Call(n, Ok), ProfileEvent(n);
    Lead(x5, last, x6, []);
    assert [last] + [] == [last];
    Lead(x4, call, x5, [last]);
    Lead(x3, call, x4, [call, last]);
  }

  lemma Rounding(x: Slice, n: Name, x1: Slice, x2: Slice, x3: Slice, x4: Slice, x5: Slice, x6: Slice)
    requires LocalNext(x, Pick(n)) == x1 && LocalNext(x1, Call(n, Ok)) == x2 && LocalNext(x2, Call(n, Ok)) == x3
    requires LocalNext(x3, Call(n, Ok)) == x4 && LocalNext(x4, Call(n, Ok)) == x5 &&
             LocalNext(x5, ProfileEvent(n)) == x6
    requires Quiet(x, Pick(n)) && Quiet(x1, Call(n, Ok)) && Quiet(x2, Call(n, Ok)) && Quiet(x3, Call(n, Ok))
    requires Quiet(x4, Call(n, Ok)) && Quiet(x5, ProfileEvent(n))
    ensures LocalRun(x, Round(n)) == x6 && QuietAlong(x, Round(n))
  {
    var call, last := Call(n, Ok), ProfileEvent(n);
    RoundEnd(x3, n, x4, x5, x6);
    Lead(x2, call, x3, [call, call, last]);
    Lead(x1, call, x2, [call, call, call, last]);
    Lead(x, Pick(n), x1, [call, call, call, call, last]);
    assert Round(n) == [Pick(n)] + [call, call, call, call, last];
  }

  lemma Lead(x: Slice, step: Step, y: Slice, rest: seq<Step>)
    requires Quiet(x, step) && LocalNext(x, step) == y && QuietAlong(y, rest)
    ensures QuietAlong(x, [step] + rest) && LocalRun(x, [step] + rest) == LocalRun(y, rest)
  {
    assert ([step] + rest)[1..] == rest;
  }

  /**
   On a server that stores the status, a rejected profile is reconciled for ever:
   each rejection is recorded and its event brings about the next, with nobody
   else around and no call failing, for any number of rounds.
   */
  lemma {:induction false} RejectedForEver(s: State, n: Name, rounds: nat) returns (steps: seq<Step>)
    requires Restless(At(s, n))
    ensures |steps| == 6 * rounds && QuietRun(s, steps)
    ensures Restless(At(Run(s, steps), n))
    ensures |ProfileLog(Run(s, steps).store, n)| == |ProfileLog(s.store, n)| + rounds
    decreases rounds
  {
    steps := [];
    if rounds > 0 {
      OneRound(At(s, n), n);
      RunAt(s, Round(n), n);
      QuietAlongIsQuiet(s, Round(n), n);
      var t := Run(s, Round(n));
      assert At(t, n).o.profileLog == ProfileLog(t.store, n) && At(s, n).o.profileLog == ProfileLog(s.store, n);
      var rest := RejectedForEver(t, n, rounds - 1);
      steps := Round(n) + rest;
      RunAppend(s, Round(n), rest);
      QuietAppend(s, Round(n), rest);
    }
  }

  lemma {:induction false} QuietAppend(s: State, a: seq<Step>, b: seq<Step>)
    requires QuietRun(s, a) && QuietRun(Run(s, a), b)
    ensures QuietRun(s, a + b)
    decreases |a|
  {
    if a == [] {
      assert a + b == b;
    } else {
      assert (a + b)[0] == a[0] && (a + b)[1..] == a[1..] + b;
      QuietAppend(Next(s, a[0]), a[1..], b);
    }
  }

  /** On such a server, a profile and a namespace somebody made by hand are enough. */
  lemma RestlessIsReached(n: Name, rounds: nat) returns (before: seq<Step>, steps: seq<Step>)
    ensures Restless(At(Run(Empty(false), before), n))
    ensures var s := Run(Empty(false), before);
            && QuietRun(s, steps) && |steps| == 6 * rounds
            && |ProfileLog(Run(s, steps).store, n)| == |ProfileLog(s.store, n)| + rounds
  {
    before := Arrange(false, n, [], STRANGER);
    RunTrails(Empty(false), before, n);
    steps := RejectedForEver(Run(Empty(false), before), n, rounds);
  }
}
