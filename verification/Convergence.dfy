/**
 An idle controller has converged: a profile that is neither queued, nor in
 flight, nor about to be queued by an event under way, is settled.
 */
module Convergence {
  import opened Prelude
  import opened NamespaceLabels
  import opened ApiStore
  import opened ReconcileSteps
  import opened StringLists
  import opened Cluster
  import opened Locality
  import opened Safety

  // ---- what settled means -------------------------------------------------

  /** Rejected for good, or owned, labelled as configured, and with the finalizer its deletion state asks for. */
  predicate Converged(x: Slice) {
    x.o.profile.Some? ==>
      var p := x.o.profile.value;
      && x.o.ns.Some?
      && (OwnedBy(x.o.ns.value, p.owner) ==>
            && x.config.Some?
            && Settled(x.o.ns.value.labels, x.config.value)
            && (PROFILE_FINALIZER in p.finalizers <==> !p.deleting))
  }

  predicate Idle(x: Slice) {
    !x.queued && x.flight.None? && x.informer.profileEvents == [] && x.informer.nsEvents == [] && x.configEvents == []
  }

  // ---- the writes of others -----------------------------------------------

  /** Neither under the controller's control nor annotated with an owner. */
  predicate Foreign(ns: Option<Namespace>) {
    ns.Some? && !ns.value.controlled && OWNER !in ns.value.annotations
  }

  predicate TameNs(ns: Option<Namespace>) {
    ns.Some? ==> ns.value.controlled || OWNER !in ns.value.annotations
  }

  /**
   Others may write any profile and any configuration at any time. They keep an
   owner annotation only on namespaces under the controller's control, and delete
   only those: no event would tell the controller about anything else.
   */
  predicate Tame(x: Slice, step: Step) {
    step.EditNamespace? ==>
      if step.ns.Some? then TameNs(step.ns) else x.o.ns.None? || x.o.ns.value.controlled
  }

  /** What happens elsewhere in the cluster is nobody's business here. */
  predicate TameAt(s: State, steps: seq<Step>, n: Name)
    decreases |steps|
  {
    steps == [] ||
    ((Touches(steps[0], n) ==> Tame(At(s, n), steps[0])) && TameAt(Next(s, steps[0]), steps[1..], n))
  }

  // ---- caches trail the server --------------------------------------------

  predicate TameEvent(e: NsEvent) {
    TameNs(e.before) && TameNs(e.after) && (e.after.None? ==> Controlled(e.before))
  }

  /** The events lead from what is cached to what is stored. */
  predicate NsChain(cached: Option<Namespace>, events: seq<NsEvent>, stored: Option<Namespace>)
    decreases |events|
  {
    if events == [] then cached == stored
    else events[0].before == cached && NsChain(events[0].after, events[1..], stored)
  }

  function Latest<T>(cached: Option<T>, events: seq<Option<T>>): Option<T> {
    if events == [] then cached else events[|events| - 1]
  }

  /** The caches are behind the server by the events under way and by nothing else. */
  predicate Trails(x: Slice) {
    && Latest(x.informer.profile, x.informer.profileEvents) == x.o.profile
    && Latest(x.seenConfig, x.configEvents) == x.config
    && NsChain(x.informer.ns, x.informer.nsEvents, x.o.ns)
  }

  predicate Synced(x: Slice) {
    && Trails(x)
    && TameNs(x.o.ns) && TameNs(x.informer.ns)
    && (forall k :: 0 <= k < |x.informer.nsEvents| ==> TameEvent(x.informer.nsEvents[k]))
  }

  predicate AnyWakes(events: seq<NsEvent>) {
    exists k :: 0 <= k < |events| && Wakes(events[k])
  }

  /** Queued, or certain to be queued by an event under way. */
  predicate Awake(x: Slice) {
    x.queued || x.informer.profileEvents != [] || AnyWakes(x.informer.nsEvents) || x.configEvents != []
  }

  /** Without a waking event under way, a cached namespace is the stored one, or both are foreign. */
  lemma {:induction false} QuietChain(cached: Option<Namespace>, events: seq<NsEvent>, stored: Option<Namespace>)
    requires NsChain(cached, events, stored)
    requires forall k :: 0 <= k < |events| ==> TameEvent(events[k]) && !Wakes(events[k])
    ensures cached == stored || (Foreign(stored) && (cached.None? || Foreign(cached)))
    decreases |events|
  {
    if events != [] {
      assert TameEvent(events[0]) && !Wakes(events[0]);
      QuietChain(events[0].after, events[1..], stored);
    }
  }

  lemma {:induction false} ChainAppend(cached: Option<Namespace>, events: seq<NsEvent>,
                                   mid: Option<Namespace>, stored: Option<Namespace>)
    requires NsChain(cached, events, mid)
    ensures NsChain(cached, events + [NsEvent(mid, stored)], stored)
    decreases |events|
  {
    if events == [] {
      assert (events + [NsEvent(mid, stored)])[1..] == [];
    } else {
      assert (events + [NsEvent(mid, stored)])[1..] == events[1..] + [NsEvent(mid, stored)];
      ChainAppend(events[0].after, events[1..], mid, stored);
    }
  }

  lemma PublishTrails(x: Slice, y: Objects)
    requires Trails(x)
    ensures Trails(LocalPublish(x, y))
  {
    if x.o.ns != y.ns {
      ChainAppend(x.informer.ns, x.informer.nsEvents, x.o.ns, y.ns);
    } else {
      assert x.informer.nsEvents + [] == x.informer.nsEvents;
    }
  }

  lemma CallTrails(x: Slice, next: Sequel)
    requires Trails(x)
    ensures Trails(LocalAfterCall(x, next))
  {
  }

  /** Every step of every actor, tame or not, keeps the caches behind the server by the events under way. */
  lemma StepTrails(x: Slice, step: Step)
    requires Trails(x)
    ensures Trails(LocalNext(x, step))
  {
    match step
    case Call(_, o) =>
      if x.flight.Some? {
        var (y, next) := LocalExec(LocalView(x), x.o, x.flight.value, o);
        PublishTrails(x, y);
        CallTrails(LocalPublish(x, y), next);
      }
    case EditProfile(_, p) => PublishTrails(x, LocalWriteProfile(x.o, p));
    case EditNamespace(_, ns) => PublishTrails(x, LocalWriteNs(x.o, ns));
    case _ =>
  }

  lemma {:induction false} RunTrails(s: State, steps: seq<Step>, n: Name)
    requires Trails(At(s, n))
    ensures Trails(At(Run(s, steps), n))
    decreases |steps|
  {
    if steps != [] {
      NextAt(s, steps[0], n);
      if Touches(steps[0], n) {
        StepTrails(At(s, n), steps[0]);
      }
      RunTrails(Next(s, steps[0]), steps[1..], n);
    }
  }

  // ---- the invariant ------------------------------------------------------

  /** A reconcile nobody will repeat has read what is stored now, and everything it has read so far fits. */
  predicate Fresh(x: Slice, f: Frame) {
    match f
    case GetProfile => true
    case GetConfig(p) => x.o.profile == Some(p)
    case GetNs(p, c) => x.o.profile == Some(p) && x.config == Some(c)
    case CreateNs(p, c) => x.o.ns.None? || Foreign(x.o.ns)
    case AwaitNs(_, _, _) => false
    case UpdateNs(p, c, ns) =>
      x.o.profile == Some(p) && x.config == Some(c) && x.o.ns == Some(ns) &&
      OwnedBy(ns, p.owner) && !Settled(ns.labels, c)
    case AddFinalizer(p, _) => x.o.profile == Some(p) && LabelsDone(x, p) &&
      !p.deleting && PROFILE_FINALIZER !in p.finalizers
    case RemoveFinalizer(p, _) => x.o.profile == Some(p) && LabelsDone(x, p) &&
      p.deleting && PROFILE_FINALIZER in p.finalizers
    case Reject(p, _) => x.o.profile == Some(p) && x.o.ns.Some? && !OwnedBy(x.o.ns.value, p.owner)
  }

  predicate LabelsDone(x: Slice, p: Profile) {
    && x.o.ns.Some? && OwnedBy(x.o.ns.value, p.owner)
    && x.config.Some? && Settled(x.o.ns.value.labels, x.config.value)
  }

  predicate Vigilant(x: Slice) {
    x.o.profile.Some? && !Awake(x) ==> if x.flight.Some? then Fresh(x, x.flight.value) else Converged(x)
  }

  predicate Live(x: Slice) {
    Sound(x) && Synced(x) && Vigilant(x)
  }

  // ---- writes -------------------------------------------------------------

  lemma PublishSynced(x: Slice, y: Objects)
    requires Synced(x) && TameNs(y.ns)
    requires y.ns.None? ==> x.o.ns.None? || x.o.ns.value.controlled
    ensures Synced(LocalPublish(x, y))
    ensures Awake(x) ==> Awake(LocalPublish(x, y))
    ensures x.o.profile != y.profile ==> Awake(LocalPublish(x, y))
    ensures x.o.ns != y.ns && (Controlled(x.o.ns) || Controlled(y.ns)) ==> Awake(LocalPublish(x, y))
    ensures !Awake(x) && x.o.profile == y.profile && (x.o.ns == y.ns || !(Controlled(x.o.ns) || Controlled(y.ns))) ==>
      !Awake(LocalPublish(x, y))
  {
    var z := LocalPublish(x, y);
    var before, after := x.informer.nsEvents, z.informer.nsEvents;
    if x.o.ns != y.ns {
      ChainAppend(x.informer.ns, before, x.o.ns, y.ns);
      assert after == before + [NsEvent(x.o.ns, y.ns)];
      assert after[|before|] == NsEvent(x.o.ns, y.ns);
      assert forall k :: 0 <= k < |before| ==> after[k] == before[k];
      if AnyWakes(before) {
        var k :| 0 <= k < |before| && Wakes(before[k]);
        assert Wakes(after[k]);
      }
    } else {
      assert after == before;
    }
  }

  lemma EditProfileLive(x: Slice, p: Profile)
    requires Live(x)
    ensures Synced(LocalPublish(x, LocalWriteProfile(x.o, p))) && Vigilant(LocalPublish(x, LocalWriteProfile(x.o, p)))
  {
    var y := LocalWriteProfile(x.o, p);
    assert y.ns == x.o.ns;
    PublishSynced(x, y);
    if y == x.o {
      Unpublished(x);
    } else if y.profile == x.o.profile {
      assert y.profile.None?;
    }
  }

  lemma Unpublished(x: Slice)
    ensures LocalPublish(x, x.o) == x
  {
    assert x.informer.profileEvents + [] == x.informer.profileEvents;
    assert x.informer.nsEvents + [] == x.informer.nsEvents;
  }

  lemma EditNamespaceLive(x: Slice, step: Step)
    requires Live(x) && step.EditNamespace? && Tame(x, step)
    ensures Synced(LocalNext(x, step)) && Vigilant(LocalNext(x, step))
  {
    var y := LocalWriteNs(x.o, step.ns);
    PublishSynced(x, y);
    if y == x.o {
      Unpublished(x);
    }
  }

  // ---- calls --------------------------------------------------------------

  /** What a reconcile that nobody will repeat reads is what is stored, up to foreign namespaces. */
  lemma ReadsAreFresh(x: Slice)
    requires Synced(x) && !Awake(x)
    ensures x.informer.profile == x.o.profile && x.seenConfig == x.config
    ensures x.informer.ns == x.o.ns || (Foreign(x.o.ns) && (x.informer.ns.None? || Foreign(x.informer.ns)))
  {
    QuietChain(x.informer.ns, x.informer.nsEvents, x.o.ns);
  }

  lemma ReadStaysFresh(x: Slice, f: Frame, o: Outcome)
    requires Synced(x) && !Awake(x) && !Writes(f) && Fresh(x, f) && x.o.profile.Some?
    ensures match AfterRead(LocalView(x), f, o)
            case Continue(g) => Fresh(x, g)
            case Done(_) => Converged(x)
            case Retry => true
  {
    ReadsAreFresh(x);
  }

  lemma ReadLive(x: Slice, o: Outcome)
    requires Synced(x) && Vigilant(x) && x.flight.Some? && !Writes(x.flight.value)
    ensures Synced(LocalNext(x, Call("", o))) && Vigilant(LocalNext(x, Call("", o)))
  {
    Unpublished(x);
    if !Awake(x) && x.o.profile.Some? {
      ReadStaysFresh(x, x.flight.value, o);
    }
  }

  /** An accepted write of the controller leaves a namespace that is as tame as the one it found. */
  lemma RequestKeepsTame(o: Objects, f: Frame)
    requires SoundHistory(o) && Writes(f) && SoundFrame(o, f) && TameNs(o.ns) && LocalRequest(o, f).Success?
    ensures TameNs(LocalRequest(o, f).value.ns)
    ensures LocalRequest(o, f).value.ns.None? ==> o.ns.None?
    ensures LocalRequest(o, f).value.profile.Some? ==> o.profile.Some?
  {
    match f
    case UpdateNs(p, c, ns) => assert o.ns == Some(ns);
    case _ =>
  }

  /** An accepted write of a fresh frame wakes the name up again, unless it rejected a profile without recording it. */
  lemma FreshWrite(x: Slice, f: Frame)
    requires Synced(x) && Writes(f) && Fresh(x, f) && LocalRequest(x.o, f).Success?
    ensures var y := LocalRequest(x.o, f).value;
            || x.o.profile != y.profile
            || (x.o.ns != y.ns && (Controlled(x.o.ns) || Controlled(y.ns)))
            || (f.Reject? && y == x.o)
  {
    if f.RemoveFinalizer? {
      WithoutMembers(f.p.finalizers, PROFILE_FINALIZER);
    }
  }

  lemma RefusedWriteLive(x: Slice, o: Outcome)
    requires Live(x) && x.flight.Some? && Writes(x.flight.value)
    requires o.Failed? || LocalRequest(x.o, x.flight.value).Failure?
    ensures Synced(LocalNext(x, Call("", o))) && Vigilant(LocalNext(x, Call("", o)))
  {
    Unpublished(x);
  }

  /** A call that leaves the objects `y` either wakes the name up, or changed nothing and is not the last word. */
  lemma WrittenVigilant(x: Slice, y: Objects, next: Sequel)
    requires Synced(x) && TameNs(y.ns)
    requires y.ns.None? ==> x.o.ns.None?
    requires y.profile.Some? ==> x.o.profile.Some?
    requires Awake(x) || x.o.profile.None? || x.o.profile != y.profile
             || (x.o.ns != y.ns && (Controlled(x.o.ns) || Controlled(y.ns)))
             || (y == x.o && !next.Continue? && Converged(x))
    ensures var z := LocalAfterCall(LocalPublish(x, y), next); Synced(z) && Vigilant(z)
  {
    PublishSynced(x, y);
    if y == x.o {
      Unpublished(x);
    }
  }

  lemma AcceptedWriteLive(x: Slice, o: Outcome)
    requires Live(x) && x.flight.Some? && Writes(x.flight.value)
    requires !o.Failed? && LocalRequest(x.o, x.flight.value).Success?
    ensures Synced(LocalNext(x, Call("", o))) && Vigilant(LocalNext(x, Call("", o)))
  {
    var f := x.flight.value;
    var (y, next) := LocalExec(LocalView(x), x.o, f, o);
    RequestKeepsTame(x.o, f);
    if !Awake(x) && x.o.profile.Some? {
      FreshWrite(x, f);
    }
    WrittenVigilant(x, y, next);
  }

  lemma CallLive(x: Slice, n: Name, o: Outcome)
    requires Live(x)
    ensures Synced(LocalNext(x, Call(n, o))) && Vigilant(LocalNext(x, Call(n, o)))
  {
    assert LocalNext(x, Call(n, o)) == LocalNext(x, Call("", o));
    if x.flight.Some? {
      if !Writes(x.flight.value) {
        ReadLive(x, o);
      } else if o.Failed? || LocalRequest(x.o, x.flight.value).Failure? {
        RefusedWriteLive(x, o);
      } else {
        AcceptedWriteLive(x, o);
      }
    }
  }

  /** Every tame step keeps every name vigilant. */
  lemma StepLive(x: Slice, step: Step)
    requires Live(x) && Tame(x, step)
    ensures Live(LocalNext(x, step))
  {
    StepSound(x, step);
    StepVigilant(x, step);
  }

  lemma StepVigilant(x: Slice, step: Step)
    requires Live(x) && Tame(x, step)
    ensures Synced(LocalNext(x, step)) && Vigilant(LocalNext(x, step))
  {
    match step
    case Pick(_) =>
    case Call(n, o) => CallLive(x, n, o);
    case ProfileEvent(_) =>
    case NamespaceEvent(_) => NamespaceEventLive(x, step);
    case ConfigEvent =>
    case OwnedEvent(_) =>
    case EditProfile(_, p) => EditProfileLive(x, p);
    case EditNamespace(_, _) => EditNamespaceLive(x, step);
    case EditConfig(_) =>
    case Restart =>
  }

  lemma NamespaceEventLive(x: Slice, step: Step)
    requires Live(x) && step.NamespaceEvent?
    ensures Synced(LocalNext(x, step)) && Vigilant(LocalNext(x, step))
  {
    var events := x.informer.nsEvents;
    if events != [] {
      assert TameEvent(events[0]);
      if AnyWakes(events) && !Wakes(events[0]) {
        var k :| 0 <= k < |events| && Wakes(events[k]);
        assert Wakes(events[1..][k - 1]);
      }
      if AnyWakes(events[1..]) {
        var k :| 0 <= k < |events[1..]| && Wakes(events[1..][k]);
        assert Wakes(events[k + 1]);
      }
    }
  }

  lemma {:induction false} RunLive(s: State, steps: seq<Step>, n: Name)
    requires Live(At(s, n)) && TameAt(s, steps, n)
    ensures Live(At(Run(s, steps), n))
    decreases |steps|
  {
    if steps != [] {
      NextAt(s, steps[0], n);
      if Touches(steps[0], n) {
        StepLive(At(s, n), steps[0]);
      }
      RunLive(Next(s, steps[0]), steps[1..], n);
    }
  }

  /**
   Quiescence implies convergence: after any run that is tame at this name, with
   any interleaving of profiles, stale caches, failed calls, lost replies and
   restarts, a name about which nothing is queued, in flight or under way is settled.
   */
  lemma QuiescenceImpliesConvergence(sub: bool, steps: seq<Step>, n: Name)
    requires TameAt(Empty(sub), steps, n)
    requires Idle(At(Run(Empty(sub), steps), n))
    ensures Converged(At(Run(Empty(sub), steps), n))
  {
    RunLive(Empty(sub), steps, n);
  }

  /**
   A restart makes up for everything that was done behind the controller's back:
   whatever happened before, if the namespace stored then is controlled or names
   no owner, and others are tame from then on, an idle name is settled.
   */
  lemma RestartHeals(sub: bool, before: seq<Step>, after: seq<Step>, n: Name)
    requires var s := Next(Run(Empty(sub), before), Restart); TameNs(At(s, n).o.ns) && TameAt(s, after, n)
    requires Idle(At(Run(Next(Run(Empty(sub), before), Restart), after), n))
    ensures Converged(At(Run(Next(Run(Empty(sub), before), Restart), after), n))
  {
    var s := Run(Empty(sub), before);
    RunSound(Empty(sub), before, n);
    RunTrails(Empty(sub), before, n);
    NextAt(s, Restart, n);
    StepSound(At(s, n), Restart);
    StepTrails(At(s, n), Restart);
    RunLive(Next(s, Restart), after, n);
  }

  /**
   Why others must be tame: a change to a namespace the controller does not
   control, before or after, leaves an idle name idle, so whether it is still
   settled is left to chance. Deleting a foreign namespace always strands its
   profile; an owner annotation strands it unless labels and finalizer happen to fit.
   */
  lemma UnwatchedEdit(x: Slice, n: Name, ns: Option<Namespace>)
    requires Idle(x) && x.o.profile.Some? && !Controlled(x.o.ns) && !Controlled(ns)
    requires x.o.ns.Some? && (ns.Some? ==> ns.value.(version := x.o.ns.value.version) != x.o.ns.value)
    ensures var y := LocalNext(LocalNext(x, EditNamespace(n, ns)), NamespaceEvent(n));
            var p := x.o.profile.value;
            && Idle(y) && y.o.profile == x.o.profile && y.o.ns.Some? == ns.Some?
            && (Converged(y) <==>
                  && ns.Some?
                  && (OwnedBy(ns.value, p.owner) ==>
                        && x.config.Some? && Settled(ns.value.labels, x.config.value)
                        && (PROFILE_FINALIZER in p.finalizers <==> !p.deleting)))
  {
    var y := LocalNext(x, EditNamespace(n, ns));
    assert y.o.ns != x.o.ns by {
      assert ns.Some? ==> y.o.ns == Some(ns.value.(version := |x.o.nsLog| + 1));
      assert ns.Some? ==> y.o.ns.value.(version := x.o.ns.value.version) == ns.value.(version := x.o.ns.value.version);
    }
    assert y.informer.nsEvents == [NsEvent(x.o.ns, y.o.ns)];
  }
}
