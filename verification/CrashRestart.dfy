/**
 Cutting a reconcile anywhere and starting over ends where one uninterrupted
 reconcile would have ended.
 */
module CrashRestart {
  import opened Prelude
  import opened NamespaceLabels
  import opened ApiStore
  import opened ReconcileSteps
  import opened StringLists
  import opened Locality

  /** What users see of a name: everything but versions and status. */
  datatype Shape = Shape(profile: Option<ProfileShape>, ns: Option<NsShape>)
  datatype ProfileShape = ProfileShape(owner: string, finalizers: seq<string>, deleting: bool)
  datatype NsShape = NsShape(annotations: map<string, string>, labels: Labels, controlled: bool)

  function Visible(o: Objects): Shape {
    Shape(
      if o.profile.Some? then
        Some(ProfileShape(o.profile.value.owner, o.profile.value.finalizers, o.profile.value.deleting))
      else None,
      if o.ns.Some? then Some(NsShape(o.ns.value.annotations, o.ns.value.labels, o.ns.value.controlled)) else None)
  }

  /** What a reconcile is for: the namespace it wants, and the finalizers if it gets it. */
  function Goal(o: Objects, c: Labels): Shape {
    if o.profile.None? then Visible(o)
    else
      var p := o.profile.value;
      if o.ns.None? then
        Shape(FinalizerGoal(p), Some(NsShape(map[OWNER := p.owner], InitialLabels(c), true)))
      else if OwnedBy(o.ns.value, p.owner) then
        Shape(FinalizerGoal(p),
              Some(NsShape(o.ns.value.annotations, Settle(o.ns.value.labels, c), o.ns.value.controlled)))
      else Visible(o)
  }

  function FinalizerGoal(p: Profile): Option<ProfileShape> {
    if PROFILE_FINALIZER in p.finalizers <==> !p.deleting then
      Some(ProfileShape(p.owner, p.finalizers, p.deleting))
    else if !p.deleting then
      Some(ProfileShape(p.owner, p.finalizers + [PROFILE_FINALIZER], false))
    else
      var rest := Without(p.finalizers, PROFILE_FINALIZER);
      if rest == [] then None else Some(ProfileShape(p.owner, rest, true))
  }

  /** A deleting profile without finalizers is already gone. */
  predicate Storable(o: Objects) {
    o.profile.Some? && o.profile.value.deleting ==> o.profile.value.finalizers != []
  }

  predicate OwnedAndLabelled(o: Objects, owner: string, c: Labels) {
    o.ns.Some? && OwnedBy(o.ns.value, owner) && Settled(o.ns.value.labels, c)
  }

  /** With nobody else around, a reconcile at this frame knows what is stored. */
  predicate Aligned(o: Objects, c: Labels, f: Frame) {
    match f
    case GetProfile => true
    case GetConfig(p) => o.profile == Some(p)
    case GetNs(p, d) => o.profile == Some(p) && d == c
    case CreateNs(p, d) => o.profile == Some(p) && d == c && o.ns.None?
    case AwaitNs(p, _, _) => o.profile == Some(p) && OwnedAndLabelled(o, p.owner, c)
    case UpdateNs(p, d, ns) => o.profile == Some(p) && d == c && o.ns == Some(ns) && OwnedBy(ns, p.owner)
    case AddFinalizer(p, _) =>
      o.profile == Some(p) && OwnedAndLabelled(o, p.owner, c) && !p.deleting && PROFILE_FINALIZER !in p.finalizers
    case RemoveFinalizer(p, _) =>
      o.profile == Some(p) && OwnedAndLabelled(o, p.owner, c) && p.deleting && PROFILE_FINALIZER in p.finalizers
    case Reject(p, gaveUp) => o.profile == Some(p) && o.ns.Some? && (!gaveUp ==> !OwnedBy(o.ns.value, p.owner))
  }

  function ViewOf(o: Objects, c: Labels): View {
    View(o.profile, o.ns, Some(c))
  }

  // ---- one call -----------------------------------------------------------

  /** Neither a committed nor a failed call changes what the reconcile is heading for. */
  lemma CallKeepsGoal(x: Objects, c: Labels, f: Frame, o: Outcome)
    requires Storable(x) && Aligned(x, c, f)
    ensures var (y, next) := LocalExec(ViewOf(x, c), x, f, o);
            && Storable(y)
            && Goal(y, c) == Goal(x, c)
            && (next.Continue? ==> Aligned(y, c, next.frame))
            && (next.Done? && next.verdict != GaveUp ==> Visible(y) == Goal(x, c))
  {
    if !Writes(f) {
      ReadKeepsGoal(x, c, f, o);
    } else {
      WriteKeepsGoal(x, c, f);
    }
  }

  lemma ReadKeepsGoal(x: Objects, c: Labels, f: Frame, o: Outcome)
    requires Storable(x) && Aligned(x, c, f) && !Writes(f)
    ensures var next := AfterRead(ViewOf(x, c), f, o);
            && (next.Continue? ==> Aligned(x, c, next.frame))
            && (next.Done? && next.verdict != GaveUp ==> Visible(x) == Goal(x, c))
  {
  }

  lemma WriteKeepsGoal(x: Objects, c: Labels, f: Frame)
    requires Storable(x) && Aligned(x, c, f) && Writes(f)
    ensures var r := LocalRequest(x, f);
            && r.Success?
            && Storable(r.value)
            && Goal(r.value, c) == Goal(x, c)
            && var next := AfterWrite(f, |x.nsLog| + 1);
            && (next.Continue? ==> Aligned(r.value, c, next.frame))
            && (next.Done? && next.verdict != GaveUp ==> Visible(r.value) == Goal(x, c))
  {
    match f
    case CreateNs(p, d) => SettleIsIdempotent(map[ISTIO_INJECTION := "enabled"], c);
    case UpdateNs(p, d, ns) => SettleIsIdempotent(ns.labels, c);
    case AddFinalizer(p, ev) => AddKeepsGoal(x, c, p, ev);
    case RemoveFinalizer(p, ev) => RemoveKeepsGoal(x, c, p, ev);
    case Reject(p, gaveUp) => RejectKeepsGoal(x, c, p, p.status + [RejectionMessage(p, gaveUp)]);
  }

  lemma AddKeepsGoal(x: Objects, c: Labels, p: Profile, ev: Evidence)
    requires Aligned(x, c, AddFinalizer(p, ev))
    ensures var r := LocalRequest(x, AddFinalizer(p, ev));
            r.Success? && Storable(r.value) && Goal(r.value, c) == Goal(x, c) == Visible(r.value)
  {
  }

  lemma RemoveKeepsGoal(x: Objects, c: Labels, p: Profile, ev: Evidence)
    requires Aligned(x, c, RemoveFinalizer(p, ev))
    ensures var r := LocalRequest(x, RemoveFinalizer(p, ev));
            r.Success? && Storable(r.value) && Goal(r.value, c) == Goal(x, c) == Visible(r.value)
  {
    WithoutMembers(p.finalizers, PROFILE_FINALIZER);
  }

  lemma RejectKeepsGoal(x: Objects, c: Labels, p: Profile, status: seq<string>)
    requires Storable(x) && x.profile == Some(p) && |status| == |p.status| + 1
    ensures var r := LocalUpdateProfile(x, Rejecting, p.(status := status));
            r.Success? && Storable(r.value) && Goal(r.value, c) == Goal(x, c) &&
            Visible(r.value) == Visible(x) && r.value.ns == x.ns
  {
  }

  // ---- one reconcile ------------------------------------------------------

  lemma {:induction false} DriveKeepsGoal(st: Store, n: Name, f: Frame, faults: seq<Outcome>)
    requires st.config.Some? && Storable(ObjectsAt(st, n)) && Aligned(ObjectsAt(st, n), st.config.value, f)
    ensures var (end, next) := Drive(st, n, f, faults);
            var c := st.config.value;
            && end.config == st.config
            && Storable(ObjectsAt(end, n))
            && Goal(ObjectsAt(end, n), c) == Goal(ObjectsAt(st, n), c)
            && (next.Done? && next.verdict != GaveUp ==> Visible(ObjectsAt(end, n)) == Goal(ObjectsAt(st, n), c))
    decreases CallsLeft(f)
  {
    var o := NextOutcome(faults);
    ExecAt(DirectView(st, n), st, n, f, o, n);
    CallKeepsGoal(ObjectsAt(st, n), st.config.value, f, o);
    var (st', next) := Exec(DirectView(st, n), st, n, f, o);
    if next.Continue? {
      DriveKeepsGoal(st', n, next.frame, RestOf(faults));
    }
  }

  lemma CallSucceeds(x: Objects, c: Labels, f: Frame)
    requires Storable(x) && Aligned(x, c, f) && (f.Reject? ==> !f.gaveUp)
    ensures var next := LocalExec(ViewOf(x, c), x, f, Ok).1;
            && !next.Retry?
            && (next.Done? ==> next.verdict != GaveUp)
            && (next.Continue? && next.frame.Reject? ==> !next.frame.gaveUp)
  {
    if Writes(f) {
      WriteKeepsGoal(x, c, f);
    }
  }

  /** Without faults a reconcile comes to its end. */
  lemma {:induction false} DriveCompletes(st: Store, n: Name, f: Frame)
    requires st.config.Some? && Storable(ObjectsAt(st, n)) && Aligned(ObjectsAt(st, n), st.config.value, f)
    requires f.Reject? ==> !f.gaveUp
    ensures var next := Drive(st, n, f, []).1; next.Done? && next.verdict != GaveUp
    decreases CallsLeft(f)
  {
    ExecAt(DirectView(st, n), st, n, f, Ok, n);
    CallKeepsGoal(ObjectsAt(st, n), st.config.value, f, Ok);
    CallSucceeds(ObjectsAt(st, n), st.config.value, f);
    var (st', next) := Exec(DirectView(st, n), st, n, f, Ok);
    if next.Continue? {
      DriveCompletes(st', n, next.frame);
    }
  }

  /** Reconciles touch nothing that belongs to another name. */
  lemma {:induction false} DriveIsLocal(st: Store, n: Name, f: Frame, faults: seq<Outcome>, m: Name)
    requires m != n
    ensures ObjectsAt(Drive(st, n, f, faults).0, m) == ObjectsAt(st, m)
    decreases CallsLeft(f)
  {
    var o := NextOutcome(faults);
    ExecAt(DirectView(st, n), st, n, f, o, m);
    var (st', next) := Exec(DirectView(st, n), st, n, f, o);
    if next.Continue? {
      DriveIsLocal(st', n, next.frame, RestOf(faults), m);
    }
  }

  // ---- any number of attempts ---------------------------------------------

  /** Reconciles one after the other, each cut or delayed as its own script says. */
  function AfterAttempts(st: Store, n: Name, attempts: seq<seq<Outcome>>): Store
    decreases |attempts|
  {
    if attempts == [] then st
    else AfterAttempts(Reconciled(st, n, attempts[0]).0, n, attempts[1..])
  }

  lemma {:induction false} AttemptsKeepGoal(st: Store, n: Name, attempts: seq<seq<Outcome>>)
    requires st.config.Some? && Storable(ObjectsAt(st, n))
    ensures var end := AfterAttempts(st, n, attempts);
            && end.config == st.config && Storable(ObjectsAt(end, n))
            && Goal(ObjectsAt(end, n), st.config.value) == Goal(ObjectsAt(st, n), st.config.value)
    decreases |attempts|
  {
    if attempts != [] {
      DriveKeepsGoal(st, n, GetProfile, attempts[0]);
      AttemptsKeepGoal(Reconciled(st, n, attempts[0]).0, n, attempts[1..]);
    }
  }

  lemma {:induction false} AttemptsAreLocal(st: Store, n: Name, attempts: seq<seq<Outcome>>, m: Name)
    requires m != n
    ensures ObjectsAt(AfterAttempts(st, n, attempts), m) == ObjectsAt(st, m)
    decreases |attempts|
  {
    if attempts != [] {
      DriveIsLocal(st, n, GetProfile, attempts[0], m);
      AttemptsAreLocal(Reconciled(st, n, attempts[0]).0, n, attempts[1..], m);
    }
  }

  /**
   Crash-restart equivalence. However many reconciles were cut, at whatever call,
   with the last write of each committed or not: one that then completes leaves
   the annotations, labels, owner and finalizers that a single uninterrupted
   reconcile would have left, and those are the goal of the state it all began in.
   */
  lemma CutAndRestartedIsUninterrupted(st: Store, n: Name, attempts: seq<seq<Outcome>>, last: seq<Outcome>, m: Name)
    requires st.config.Some? && Storable(ObjectsAt(st, n))
    ensures var (once, answer) := Reconciled(st, n, []);
            var (again, end) := Reconciled(AfterAttempts(st, n, attempts), n, last);
            && answer.Done? && answer.verdict != GaveUp
            && Visible(ObjectsAt(once, n)) == Goal(ObjectsAt(st, n), st.config.value)
            && (end.Done? && end.verdict != GaveUp ==> Visible(ObjectsAt(again, n)) == Visible(ObjectsAt(once, n)))
            && (m != n ==> ObjectsAt(again, m) == ObjectsAt(once, m) == ObjectsAt(st, m))
  {
    DriveKeepsGoal(st, n, GetProfile, []);
    DriveCompletes(st, n, GetProfile);
    AttemptsKeepGoal(st, n, attempts);
    DriveKeepsGoal(AfterAttempts(st, n, attempts), n, GetProfile, last);
    if m != n {
      DriveIsLocal(st, n, GetProfile, [], m);
      AttemptsAreLocal(st, n, attempts, m);
      DriveIsLocal(AfterAttempts(st, n, attempts), n, GetProfile, last, m);
    }
  }

  /** The wait gives up when its first read and all its retries fail ... */
  lemma {:induction false} WaitGivesUp(st: Store, n: Name, p: Profile, ev: Evidence, left: nat, faults: seq<Outcome>)
    requires left < |faults| && forall i :: 0 <= i <= left ==> faults[i] != Ok
    ensures Drive(st, n, AwaitNs(p, ev, left), faults) == Drive(st, n, Reject(p, true), faults[left + 1..])
    decreases left
  {
    if left > 0 {
      WaitGivesUp(st, n, p, ev, left - 1, faults[1..]);
      assert faults[1..][left..] == faults[left + 1..];
    }
  }

  /** ... and with a namespace that is there, only then: the first read that succeeds leads on to the finalizer. */
  lemma {:induction false} WaitSucceeds(st: Store, n: Name, p: Profile, ev: Evidence, left: nat,
                                      faults: seq<Outcome>, i: nat)
    requires n in st.namespaces
    requires i <= left && i < |faults| && faults[i] == Ok && forall j :: 0 <= j < i ==> faults[j] != Ok
    ensures Drive(st, n, AwaitNs(p, ev, left), faults) ==
            match ToFinalizer(p, ev)
            case Continue(f) => Drive(st, n, f, faults[i + 1..])
            case done => (st, done)
    decreases left
  {
    if i > 0 {
      WaitSucceeds(st, n, p, ev, left - 1, faults[1..], i - 1);
      assert faults[1..][i..] == faults[i + 1..];
    }
  }
}
