/**
 How often the controller writes an object, over every run of the cluster: each
 write is paid for by something somebody else has done.
 */
module WriteBounds {
  import opened Prelude
  import opened NamespaceLabels
  import opened ApiStore
  import opened ReconcileSteps
  import opened StringLists
  import opened Cluster
  import opened Locality
  import opened Safety
  import opened Convergence

  // ---- how often a namespace is written -----------------------------------

  function ControllerCommits(log: seq<NsCommit>): nat {
    if log == [] then 0
    else ControllerCommits(log[..|log| - 1]) + if log[|log| - 1].writer.NsController? then 1 else 0
  }

  lemma OneMoreCommit(log: seq<NsCommit>, c: NsCommit)
    ensures ControllerCommits(log + [c]) == ControllerCommits(log) + if c.writer.NsController? then 1 else 0
  {
    assert (log + [c])[..|log|] == log;
  }

  predicate Unsettled(o: Objects, c: Option<Labels>) {
    c.Some? && (o.ns.None? || !Settled(o.ns.value.labels, c.value))
  }

  /** The configuration the reconcile in flight still means to apply. */
  function Held(flight: Option<Frame>): Option<Labels> {
    match flight
    case Some(GetNs(_, c)) => Some(c)
    case Some(CreateNs(_, c)) => Some(c)
    case Some(UpdateNs(_, c, _)) => Some(c)
    case _ => None
  }

  /** What may still be written: under a configuration read earlier, and then once more under the one now seen. */
  function Pending(o: Objects, held: Option<Labels>, seen: Option<Labels>): nat {
    if held != seen && Unsettled(o, held) then 2 else if Unsettled(o, seen) then 1 else 0
  }

  function Credit(x: Slice): nat {
    |x.configEvents| + Pending(x.o, Held(x.flight), x.seenConfig)
  }

  /** What others add to the credit: a change of the configuration one write, of the namespace two. */
  function Granted(step: Step): nat {
    if step.EditConfig? then 1 else if step.EditNamespace? then 2 else 0
  }

  predicate Pays(o: Objects, y: Objects, held: Option<Labels>, seen: Option<Labels>) {
    ControllerCommits(y.nsLog) + Pending(y, None, seen) <= ControllerCommits(o.nsLog) + Pending(o, held, seen)
  }

  /** A write of the controller pays for itself: what it applies is settled afterwards. */
  lemma SettlingPays(o: Objects, p: Profile, c: Labels, ns: Namespace, seen: Option<Labels>)
    requires Unsettled(o, Some(c)) && Settled(ns.labels, c)
    ensures Pays(o, LocalPutNs(o, NsController(p, c), ns), Some(c), seen)
  {
    OneMoreCommit(o.nsLog, NsCommit(NsController(p, c), o.ns, ns.(version := |o.nsLog| + 1)));
  }

  lemma WritePays(o: Objects, f: Frame, seen: Option<Labels>)
    requires SoundHistory(o) && Writes(f) && SoundFrame(o, f) && LocalRequest(o, f).Success?
    ensures Pays(o, LocalRequest(o, f).value, Held(Some(f)), seen)
  {
    match f
    case CreateNs(p, c) =>
      SettleIsIdempotent(map[ISTIO_INJECTION := "enabled"], c);
      SettlingPays(o, p, c, FreshNamespace(p, c), seen);
    case UpdateNs(p, c, ns) =>
      SettleIsIdempotent(ns.labels, c);
      assert o.ns == Some(ns);
      SettlingPays(o, p, c, ns.(labels := Settle(ns.labels, c)), seen);
    case _ => ProfileWritePays(o, f, seen);
  }

  lemma ProfileWritePays(o: Objects, f: Frame, seen: Option<Labels>)
    requires f.AddFinalizer? || f.RemoveFinalizer? || f.Reject?
    requires LocalRequest(o, f).Success?
    ensures Pays(o, LocalRequest(o, f).value, None, seen)
  {
    var y := LocalRequest(o, f).value;
    assert y.nsLog == o.nsLog && y.ns == o.ns;
  }

  lemma ReadPays(x: Slice, f: Frame, o: Outcome)
    requires x.flight == Some(f) && !Writes(f)
    ensures var next := AfterRead(LocalView(x), f, o);
            Pending(x.o, if next.Continue? then Held(Some(next.frame)) else None, x.seenConfig)
            <= Pending(x.o, Held(x.flight), x.seenConfig)
  {
  }

  lemma CreditAfterCall(x: Slice, y: Objects, next: Sequel)
    ensures Credit(LocalAfterCall(LocalPublish(x, y), next))
            == |x.configEvents| + Pending(y, if next.Continue? then Held(Some(next.frame)) else None, x.seenConfig)
    ensures LocalAfterCall(LocalPublish(x, y), next).o == y
  {
  }

  lemma CallPays(x: Slice, f: Frame, o: Outcome)
    requires Sound(x) && x.flight == Some(f)
    ensures var (y, next) := LocalExec(LocalView(x), x.o, f, o);
            ControllerCommits(y.nsLog)
            + Pending(y, if next.Continue? then Held(Some(next.frame)) else None, x.seenConfig)
            <= ControllerCommits(x.o.nsLog) + Pending(x.o, Held(Some(f)), x.seenConfig)
  {
    if !Writes(f) {
      ReadPays(x, f, o);
    } else if !o.Failed? && LocalRequest(x.o, f).Success? {
      WritePays(x.o, f, x.seenConfig);
    }
  }

  predicate Affordable(x: Slice, y: Slice, granted: nat) {
    ControllerCommits(y.o.nsLog) + Credit(y) <= ControllerCommits(x.o.nsLog) + Credit(x) + granted
  }

  lemma CallStepPays(x: Slice, n: Name, o: Outcome)
    requires Sound(x)
    ensures Affordable(x, LocalNext(x, Call(n, o)), 0)
  {
    if x.flight.Some? {
      var (y, next) := LocalExec(LocalView(x), x.o, x.flight.value, o);
      CallPays(x, x.flight.value, o);
      CreditAfterCall(x, y, next);
    }
  }

  lemma EditPays(x: Slice, n: Name, ns: Option<Namespace>)
    ensures Affordable(x, LocalNext(x, EditNamespace(n, ns)), 2)
  {
    if ns.Some? {
      OneMoreCommit(x.o.nsLog, NsCommit(NsOther, x.o.ns, ns.value.(version := |x.o.nsLog| + 1)));
    }
  }

  lemma ConfigStepPays(x: Slice, step: Step)
    requires Trails(x) && Global(step)
    ensures Affordable(x, LocalNext(x, step), Granted(step))
  {
  }

  lemma StepPays(x: Slice, step: Step)
    requires Sound(x) && Trails(x)
    ensures Affordable(x, LocalNext(x, step), Granted(step))
  {
    match step
    case Call(n, o) => CallStepPays(x, n, o);
    case EditNamespace(n, ns) => EditPays(x, n, ns);
    case ConfigEvent => ConfigStepPays(x, step);
    case EditConfig(_) => ConfigStepPays(x, step);
    case Restart => ConfigStepPays(x, step);
    case _ => OtherStepPays(x, step);
  }

  lemma OtherStepPays(x: Slice, step: Step)
    requires !Global(step) && !step.Call? && !step.EditNamespace?
    ensures Affordable(x, LocalNext(x, step), 0)
  {
  }

  function GrantedAt(steps: seq<Step>, n: Name): nat {
    if steps == [] then 0
    else (if Touches(steps[0], n) then Granted(steps[0]) else 0) + GrantedAt(steps[1..], n)
  }

  lemma {:induction false} RunPays(s: State, steps: seq<Step>, n: Name)
    requires Sound(At(s, n)) && Trails(At(s, n))
    ensures var x, y := At(s, n), At(Run(s, steps), n);
            ControllerCommits(y.o.nsLog) + Credit(y) <= ControllerCommits(x.o.nsLog) + Credit(x) + GrantedAt(steps, n)
    decreases |steps|
  {
    if steps != [] {
      NextAt(s, steps[0], n);
      if Touches(steps[0], n) {
        StepSound(At(s, n), steps[0]);
        StepTrails(At(s, n), steps[0]);
        StepPays(At(s, n), steps[0]);
      }
      RunPays(Next(s, steps[0]), steps[1..], n);
    }
  }

  /**
   In every run, with stale caches, failed calls, lost replies and restarts: the
   controller commits a namespace at most once for every change of the
   configuration, plus twice for every time somebody else wrote or deleted it.
   */
  lemma NamespaceWritesAreBounded(sub: bool, steps: seq<Step>, n: Name)
    ensures ControllerCommits(NsLog(Reached(sub, steps).store, n)) <= GrantedAt(steps, n)
  {
    RunPays(Empty(sub), steps, n);
    assert At(Reached(sub, steps), n).o.nsLog == NsLog(Reached(sub, steps).store, n);
  }

  /**
   Left to itself, with any number of faults and restarts, it commits it at most
   once for every configuration still to be delivered, and once more, or twice with
   a reconcile in flight.
   */
  lemma WritesWithoutEdits(sub: bool, steps: seq<Step>, own: seq<Step>, n: Name)
    requires forall step :: step in own ==> !step.EditConfig? && !step.EditNamespace?
    ensures var s := Reached(sub, steps);
            && ControllerCommits(NsLog(Run(s, own).store, n)) - ControllerCommits(NsLog(s.store, n))
               <= |s.configEvents| + if n in s.flights then 2 else 1
  {
    var s := Reached(sub, steps);
    RunSound(Empty(sub), steps, n);
    RunTrails(Empty(sub), steps, n);
    RunPays(s, own, n);
    NothingGranted(own, n);
    assert At(Run(s, own), n).o.nsLog == NsLog(Run(s, own).store, n) && At(s, n).o.nsLog == NsLog(s.store, n);
    assert At(s, n).flight == Lookup(s.flights, n);
  }

  lemma {:induction false} NothingGranted(steps: seq<Step>, n: Name)
    requires forall step :: step in steps ==> !step.EditConfig? && !step.EditNamespace?
    ensures GrantedAt(steps, n) == 0
  {
    if steps != [] {
      assert steps[0] in steps;
      NothingGranted(steps[1..], n);
    }
  }

  // ---- how often a finalizer is written -----------------------------------

  predicate WritesFinalizer(c: ProfileCommit) {
    c.writer.Registering? || c.writer.Deregistering?
  }

  function FinalizerCommits(log: seq<ProfileCommit>): nat {
    if log == [] then 0
    else FinalizerCommits(log[..|log| - 1]) + if WritesFinalizer(log[|log| - 1]) then 1 else 0
  }

  /** The finalizer does not fit the deletion state of the profile. */
  function FinalizerCredit(o: Objects): nat {
    if o.profile.Some? && (PROFILE_FINALIZER in o.profile.value.finalizers <==> o.profile.value.deleting) then 1 else 0
  }

  lemma FinalizerCommitPays(o: Objects, i: nat)
    requires i < |o.profileLog| && SoundProfileCommit(o, i) && WritesFinalizer(o.profileLog[i])
    ensures var c := o.profileLog[i];
            && c.before.Some?
            && (PROFILE_FINALIZER in c.before.value.finalizers <==> c.before.value.deleting)
            && !(PROFILE_FINALIZER in c.after.finalizers <==> c.after.deleting)
  {
    WithoutMembers(o.profileLog[i].before.value.finalizers, PROFILE_FINALIZER);
  }

  /** Granted to the finalizer by others: one write for every write of the profile. */
  function ProfileGrant(step: Step): nat {
    if step.EditProfile? then 1 else 0
  }

  lemma CommitPays(a: Objects, b: Objects)
    requires OneCommit(a, b) && SoundProfileCommit(b, |a.profileLog|)
    ensures var c := b.profileLog[|a.profileLog|];
            FinalizerCommits(b.profileLog) + FinalizerCredit(b)
            <= FinalizerCommits(a.profileLog) + FinalizerCredit(a) + if c.writer.ProfileOther? then 1 else 0
  {
    var c := b.profileLog[|a.profileLog|];
    assert b.profileLog[..|a.profileLog|] == a.profileLog;
    if WritesFinalizer(c) {
      FinalizerCommitPays(b, |a.profileLog|);
    }
  }

  /** Only an edit of the profile makes a commit that is not the controller's. */
  lemma ForeignCommitIsAnEdit(x: Slice, step: Step)
    requires OneCommit(x.o, LocalNext(x, step).o)
    requires LocalNext(x, step).o.profileLog[|x.o.profileLog|].writer.ProfileOther?
    ensures step.EditProfile?
  {
    if step.Call? && x.flight.Some? {
      ControllerSigns(LocalView(x), x.o, x.flight.value, step.outcome);
    }
  }

  lemma ControllerSigns(v: View, x: Objects, f: Frame, o: Outcome)
    ensures var y := LocalExec(v, x, f, o).0;
            |y.profileLog| > |x.profileLog| ==> !y.profileLog[|x.profileLog|].writer.ProfileOther?
  {
    if Writes(f) {
      RequestSigned(x, f);
    }
  }

  lemma RequestSigned(x: Objects, f: Frame)
    requires Writes(f)
    ensures var r := LocalRequest(x, f);
            r.Success? && |r.value.profileLog| > |x.profileLog| ==>
              !r.value.profileLog[|x.profileLog|].writer.ProfileOther?
  {
  }

  lemma StepPaysFinalizer(x: Slice, step: Step)
    requires Sound(x)
    ensures var y := LocalNext(x, step);
            FinalizerCommits(y.o.profileLog) + FinalizerCredit(y.o)
            <= FinalizerCommits(x.o.profileLog) + FinalizerCredit(x.o) + ProfileGrant(step)
  {
    var y := LocalNext(x, step);
    AtMostOneCommit(x, step);
    if OneCommit(x.o, y.o) {
      StepSound(x, step);
      assert SoundProfileCommit(y.o, |x.o.profileLog|);
      CommitPays(x.o, y.o);
      if y.o.profileLog[|x.o.profileLog|].writer.ProfileOther? {
        ForeignCommitIsAnEdit(x, step);
      }
    }
  }

  function ProfileGrantAt(steps: seq<Step>, n: Name): nat {
    if steps == [] then 0
    else (if Touches(steps[0], n) then ProfileGrant(steps[0]) else 0) + ProfileGrantAt(steps[1..], n)
  }

  lemma {:induction false} RunPaysFinalizer(s: State, steps: seq<Step>, n: Name)
    requires Sound(At(s, n))
    ensures var x, y := At(s, n).o, At(Run(s, steps), n).o;
            FinalizerCommits(y.profileLog) + FinalizerCredit(y)
            <= FinalizerCommits(x.profileLog) + FinalizerCredit(x) + ProfileGrantAt(steps, n)
    decreases |steps|
  {
    if steps != [] {
      NextAt(s, steps[0], n);
      if Touches(steps[0], n) {
        StepSound(At(s, n), steps[0]);
        StepPaysFinalizer(At(s, n), steps[0]);
      }
      RunPaysFinalizer(Next(s, steps[0]), steps[1..], n);
    }
  }

  /**
   In every run, with stale caches, faults and restarts: the controller writes the
   finalizer of a profile at most once for every time somebody else wrote the
   profile, and between such writes at most once more.
   */
  lemma FinalizerWritesAreBounded(sub: bool, steps: seq<Step>, own: seq<Step>, n: Name)
    ensures var s := Reached(sub, steps);
            && FinalizerCommits(ProfileLog(s.store, n)) <= ProfileGrantAt(steps, n)
            && FinalizerCommits(ProfileLog(Run(s, own).store, n)) - FinalizerCommits(ProfileLog(s.store, n))
               <= 1 + ProfileGrantAt(own, n)
  {
    var s := Reached(sub, steps);
    RunSound(Empty(sub), steps, n);
    RunPaysFinalizer(Empty(sub), steps, n);
    RunPaysFinalizer(s, own, n);
    assert At(s, n).o.profileLog == ProfileLog(s.store, n);
    assert At(Run(s, own), n).o.profileLog == ProfileLog(Run(s, own).store, n);
  }
}
