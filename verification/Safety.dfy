/**
 What holds in every run of the cluster: whatever other actors write, however
 stale the caches are, whichever calls fail or lose their reply, and whenever the
 controller is restarted.
 */
module Safety {
  import opened Prelude
  import opened NamespaceLabels
  import opened ApiStore
  import opened ReconcileSteps
  import opened StringLists
  import opened Cluster
  import opened Locality

  // ---- the history of one name --------------------------------------------

  predicate WrittenProfile(o: Objects, p: Profile) {
    1 <= p.version <= |o.profileLog| && o.profileLog[p.version - 1].after == p
  }

  predicate WrittenNs(o: Objects, ns: Namespace) {
    1 <= ns.version <= |o.nsLog| && o.nsLog[ns.version - 1].after == ns
  }

  /** The reconcile of `p` created the namespace, or saw a version of it that names `p`'s owner. */
  predicate Entitled(o: Objects, p: Profile, ev: Evidence) {
    match ev
    case MadeNamespace(at) =>
      && 1 <= at <= |o.nsLog|
      && o.nsLog[at - 1].before.None?
      && o.nsLog[at - 1].writer.NsController?
      && o.nsLog[at - 1].writer.read == p
    case SawNamespace(ns) => WrittenNs(o, ns) && OwnedBy(ns, p.owner)
  }

  predicate SoundNsCommit(o: Objects, i: nat)
    requires i < |o.nsLog|
  {
    var c := o.nsLog[i];
    && c.after.version == i + 1
    && (c.before.Some? ==> i > 0 && c.before.value == o.nsLog[i - 1].after)
    && match c.writer
       case NsOther => true
       case NsController(read, defaults) =>
         && WrittenProfile(o, read)
         && match c.before
            case None => c.after == FreshNamespace(read, defaults).(version := i + 1)
            case Some(b) =>
              && OwnedBy(b, read.owner)
              && c.after == b.(labels := Settle(b.labels, defaults), version := i + 1)
              && c.after.labels != b.labels
  }

  predicate SoundProfileCommit(o: Objects, i: nat)
    requires i < |o.profileLog|
  {
    var c := o.profileLog[i];
    && c.after.version == i + 1
    && (c.before.Some? ==> i > 0 && c.before.value == o.profileLog[i - 1].after)
    && match c.writer
       case ProfileOther => if c.before.Some? then c.before.value.deleting ==> c.after.deleting else !c.after.deleting
       case Registering(ev) =>
         && c.before.Some?
         && var b := c.before.value;
         && !b.deleting
         && PROFILE_FINALIZER !in b.finalizers
         && c.after == b.(finalizers := b.finalizers + [PROFILE_FINALIZER], version := i + 1)
         && Entitled(o, b, ev)
       case Deregistering(ev) =>
         && c.before.Some?
         && var b := c.before.value;
         && b.deleting
         && PROFILE_FINALIZER in b.finalizers
         && c.after == b.(finalizers := Without(b.finalizers, PROFILE_FINALIZER), version := i + 1)
         && Entitled(o, b, ev)
       case Rejecting =>
         && !o.statusSubresource
         && c.before.Some?
         && var b := c.before.value;
         && |c.after.status| == |b.status| + 1
         && c.after == b.(status := c.after.status, version := i + 1)
  }

  predicate SoundHistory(o: Objects) {
    && (o.profile.Some? ==> o.profile.value.version == |o.profileLog| && WrittenProfile(o, o.profile.value))
    && (o.ns.Some? ==> o.ns.value.version == |o.nsLog| && WrittenNs(o, o.ns.value))
    && (forall i: nat :: i < |o.nsLog| ==> SoundNsCommit(o, i))
    && (forall i: nat :: i < |o.profileLog| ==> SoundProfileCommit(o, i))
  }

  // ---- the controller's copies --------------------------------------------

  predicate CopyOfProfile(o: Objects, p: Option<Profile>) {
    p.Some? ==> WrittenProfile(o, p.value)
  }

  predicate CopyOfNs(o: Objects, ns: Option<Namespace>) {
    ns.Some? ==> WrittenNs(o, ns.value)
  }

  predicate SoundInformer(o: Objects, i: Informer) {
    && CopyOfProfile(o, i.profile)
    && CopyOfNs(o, i.ns)
    && (forall k :: 0 <= k < |i.profileEvents| ==> CopyOfProfile(o, i.profileEvents[k]))
    && (forall k :: 0 <= k < |i.nsEvents| ==> CopyOfNs(o, i.nsEvents[k].before) && CopyOfNs(o, i.nsEvents[k].after))
  }

  predicate SoundFrame(o: Objects, f: Frame) {
    match f
    case GetProfile => true
    case GetConfig(p) => WrittenProfile(o, p)
    case GetNs(p, _) => WrittenProfile(o, p)
    case CreateNs(p, _) => WrittenProfile(o, p)
    case AwaitNs(p, ev, _) => WrittenProfile(o, p) && Entitled(o, p, ev)
    case UpdateNs(p, c, ns) =>
      WrittenProfile(o, p) && WrittenNs(o, ns) && OwnedBy(ns, p.owner) && !Settled(ns.labels, c)
    case AddFinalizer(p, ev) =>
      WrittenProfile(o, p) && Entitled(o, p, ev) && !p.deleting && PROFILE_FINALIZER !in p.finalizers
    case RemoveFinalizer(p, ev) =>
      WrittenProfile(o, p) && Entitled(o, p, ev) && p.deleting && PROFILE_FINALIZER in p.finalizers
    case Reject(p, _) => WrittenProfile(o, p)
  }

  predicate Sound(x: Slice) {
    && SoundHistory(x.o)
    && SoundInformer(x.o, x.informer)
    && (x.flight.Some? ==> SoundFrame(x.o, x.flight.value))
  }

  // ---- histories only grow ------------------------------------------------

  predicate Grows(a: Objects, b: Objects) {
    a.profileLog <= b.profileLog && a.nsLog <= b.nsLog && a.statusSubresource == b.statusSubresource
  }

  lemma CopiesSurvive(a: Objects, b: Objects)
    requires Grows(a, b)
    ensures forall p :: WrittenProfile(a, p) ==> WrittenProfile(b, p)
    ensures forall ns :: WrittenNs(a, ns) ==> WrittenNs(b, ns)
    ensures forall p, ev :: Entitled(a, p, ev) ==> Entitled(b, p, ev)
    ensures forall f :: SoundFrame(a, f) ==> SoundFrame(b, f)
    ensures forall i :: SoundInformer(a, i) ==> SoundInformer(b, i)
  {
  }

  lemma CommitsSurvive(a: Objects, b: Objects)
    requires Grows(a, b)
    ensures forall i: nat :: i < |a.nsLog| && SoundNsCommit(a, i) ==> SoundNsCommit(b, i)
    ensures forall i: nat :: i < |a.profileLog| && SoundProfileCommit(a, i) ==> SoundProfileCommit(b, i)
  {
    CopiesSurvive(a, b);
  }

  // ---- one write ----------------------------------------------------------

  lemma PutNsSound(o: Objects, writer: NsWriter, ns: Namespace)
    requires SoundHistory(o)
    requires var b := LocalPutNs(o, writer, ns); SoundNsCommit(b, |o.nsLog|)
    ensures var b := LocalPutNs(o, writer, ns); Grows(o, b) && SoundHistory(b)
  {
    CommitsSurvive(o, LocalPutNs(o, writer, ns));
  }

  lemma PutProfileSound(o: Objects, writer: ProfileWriter, p: Profile)
    requires SoundHistory(o)
    requires var b := LocalPutProfile(o, writer, p); SoundProfileCommit(b, |o.profileLog|)
    ensures var b := LocalPutProfile(o, writer, p); Grows(o, b) && SoundHistory(b)
  {
    CommitsSurvive(o, LocalPutProfile(o, writer, p));
  }

  /** The version check turns a stale copy into the current object, or refuses the write. */
  lemma SameVersionSameProfile(o: Objects, p: Profile)
    requires SoundHistory(o) && WrittenProfile(o, p)
    requires o.profile.Some? && o.profile.value.version == p.version
    ensures o.profile == Some(p)
  {
  }

  lemma RequestSound(o: Objects, f: Frame)
    requires SoundHistory(o) && Writes(f) && SoundFrame(o, f)
    ensures var r := LocalRequest(o, f); r.Success? ==> Grows(o, r.value) && SoundHistory(r.value)
  {
    if LocalRequest(o, f).Success? {
      match f
      case CreateNs(p, c) =>
        CopiesSurvive(o, LocalPutNs(o, NsController(p, c), FreshNamespace(p, c)));
        PutNsSound(o, NsController(p, c), FreshNamespace(p, c));
      case UpdateNs(p, c, ns) =>
        var wanted := ns.(labels := Settle(ns.labels, c));
        CopiesSurvive(o, LocalPutNs(o, NsController(p, c), wanted));
        PutNsSound(o, NsController(p, c), wanted);
      case _ => ProfileRequestSound(o, f);
    }
  }

  lemma ProfileRequestSound(o: Objects, f: Frame)
    requires SoundHistory(o) && SoundFrame(o, f) && (f.AddFinalizer? || f.RemoveFinalizer? || f.Reject?)
    requires LocalRequest(o, f).Success?
    ensures var r := LocalRequest(o, f); Grows(o, r.value) && SoundHistory(r.value)
  {
    SameVersionSameProfile(o, f.p);
    match f
    case AddFinalizer(p, ev) => RegisterSound(o, p, ev);
    case RemoveFinalizer(p, ev) => DeregisterSound(o, p, ev);
    case Reject(p, gaveUp) => RejectSound(o, p, p.status + [RejectionMessage(p, gaveUp)]);
  }

  lemma RegisterSound(o: Objects, p: Profile, ev: Evidence)
    requires SoundHistory(o) && SoundFrame(o, AddFinalizer(p, ev)) && o.profile == Some(p)
    ensures var r := LocalRequest(o, AddFinalizer(p, ev)); r.Success? ==> Grows(o, r.value) && SoundHistory(r.value)
  {
    var q := p.(finalizers := p.finalizers + [PROFILE_FINALIZER]);
    CopiesSurvive(o, LocalPutProfile(o, Registering(ev), q));
    PutProfileSound(o, Registering(ev), q);
  }

  lemma DeregisterSound(o: Objects, p: Profile, ev: Evidence)
    requires SoundHistory(o) && SoundFrame(o, RemoveFinalizer(p, ev)) && o.profile == Some(p)
    ensures var r := LocalRequest(o, RemoveFinalizer(p, ev)); r.Success? ==> Grows(o, r.value) && SoundHistory(r.value)
  {
    var q := p.(finalizers := Without(p.finalizers, PROFILE_FINALIZER));
    CopiesSurvive(o, LocalPutProfile(o, Deregistering(ev), q));
    PutProfileSound(o, Deregistering(ev), q);
  }

  lemma RejectSound(o: Objects, p: Profile, status: seq<string>)
    requires SoundHistory(o) && o.profile == Some(p) && |status| == |p.status| + 1
    ensures var r := LocalUpdateProfile(o, Rejecting, p.(status := status));
            r.Success? ==> Grows(o, r.value) && SoundHistory(r.value)
  {
    if o.statusSubresource {
      assert LocalUpdateProfile(o, Rejecting, p.(status := status)) == Success(o);
    } else {
      PutProfileSound(o, Rejecting, p.(status := status));
    }
  }

  lemma ReadSound(x: Slice, f: Frame, o: Outcome)
    requires SoundInformer(x.o, x.informer) && SoundFrame(x.o, f) && !Writes(f)
    ensures var next := AfterRead(LocalView(x), f, o); next.Continue? ==> SoundFrame(x.o, next.frame)
  {
  }

  lemma WriteSound(o: Objects, f: Frame)
    requires SoundHistory(o) && SoundFrame(o, f) && Writes(f) && LocalRequest(o, f).Success?
    ensures var y := LocalRequest(o, f).value;
            && Grows(o, y) && SoundHistory(y)
            && var next := AfterWrite(f, |o.nsLog| + 1); (next.Continue? ==> SoundFrame(y, next.frame))
  {
    RequestSound(o, f);
    CopiesSurvive(o, LocalRequest(o, f).value);
  }

  lemma CallHistorySound(v: View, x: Objects, f: Frame, o: Outcome)
    requires SoundHistory(x) && SoundFrame(x, f)
    ensures var y := LocalExec(v, x, f, o).0; Grows(x, y) && SoundHistory(y)
  {
    if Writes(f) && LocalRequest(x, f).Success? {
      WriteSound(x, f);
    }
  }

  lemma CallFrameSound(x: Slice, f: Frame, o: Outcome)
    requires SoundHistory(x.o) && SoundInformer(x.o, x.informer) && SoundFrame(x.o, f)
    ensures var (y, next) := LocalExec(LocalView(x), x.o, f, o); next.Continue? ==> SoundFrame(y, next.frame)
  {
    if !Writes(f) {
      ReadSound(x, f, o);
    } else if LocalRequest(x.o, f).Success? {
      WriteSound(x.o, f);
    }
  }

  lemma PublishSound(x: Slice, y: Objects)
    requires Sound(x) && Grows(x.o, y) && SoundHistory(y)
    ensures Sound(LocalPublish(x, y))
  {
    CopiesSurvive(x.o, y);
  }

  lemma ForeignWriteSound(x: Objects, p: Profile)
    requires SoundHistory(x)
    ensures var y := LocalWriteProfile(x, p); Grows(x, y) && SoundHistory(y)
  {
    var stored := ForeignProfile(x.profile, p);
    if x.profile != Some(stored) {
      PutProfileSound(x, ProfileOther, stored);
    }
  }

  lemma ForeignNsWriteSound(x: Objects, ns: Option<Namespace>)
    requires SoundHistory(x)
    ensures var y := LocalWriteNs(x, ns); Grows(x, y) && SoundHistory(y)
  {
    match ns
    case None => CommitsSurvive(x, x.(ns := None));
    case Some(y) =>
      if !(x.ns.Some? && x.ns.value == y.(version := x.ns.value.version)) {
        PutNsSound(x, NsOther, y);
      }
  }

  lemma CallStepSound(x: Slice, o: Outcome)
    requires Sound(x)
    ensures Sound(LocalNext(x, Call("", o)))
  {
    if x.flight.Some? {
      CallHistorySound(LocalView(x), x.o, x.flight.value, o);
      CallFrameSound(x, x.flight.value, o);
      PublishSound(x, LocalExec(LocalView(x), x.o, x.flight.value, o).0);
    }
  }

  /** Every step, of whoever, keeps every name's history sound. */
  lemma StepSound(x: Slice, step: Step)
    requires Sound(x)
    ensures Sound(LocalNext(x, step))
  {
    match step
    case Call(n, o) =>
      CallStepSound(x, o);
      assert LocalNext(x, Call(n, o)) == LocalNext(x, Call("", o));
    case EditProfile(_, p) =>
      ForeignWriteSound(x.o, p);
      PublishSound(x, LocalWriteProfile(x.o, p));
    case EditNamespace(_, ns) =>
      ForeignNsWriteSound(x.o, ns);
      PublishSound(x, LocalWriteNs(x.o, ns));
    case _ =>
  }

  lemma {:induction false} RunSound(s: State, steps: seq<Step>, n: Name)
    requires Sound(At(s, n))
    ensures Sound(At(Run(s, steps), n))
    decreases |steps|
  {
    if steps != [] {
      NextAt(s, steps[0], n);
      StepSound(At(s, n), steps[0]);
      RunSound(Next(s, steps[0]), steps[1..], n);
    }
  }

  // ---- nothing is ever struck from a history ------------------------------

  lemma UpdateGrows(o: Objects, writer: ProfileWriter, p: Profile)
    ensures var r := LocalUpdateProfile(o, writer, p); r.Success? ==> Grows(o, r.value)
  {
  }

  lemma RequestGrows(o: Objects, f: Frame)
    requires Writes(f)
    ensures var r := LocalRequest(o, f); r.Success? ==> Grows(o, r.value)
  {
    match f
    case AddFinalizer(p, ev) =>
      UpdateGrows(o, Registering(ev), p.(finalizers := p.finalizers + [PROFILE_FINALIZER]));
    case RemoveFinalizer(p, ev) =>
      UpdateGrows(o, Deregistering(ev), p.(finalizers := Without(p.finalizers, PROFILE_FINALIZER)));
    case Reject(p, gaveUp) =>
      UpdateGrows(o, Rejecting, p.(status := p.status + [RejectionMessage(p, gaveUp)]));
    case _ =>
  }

  lemma ExecGrows(v: View, x: Objects, f: Frame, o: Outcome)
    ensures Grows(x, LocalExec(v, x, f, o).0)
  {
    if Writes(f) {
      RequestGrows(x, f);
    }
  }

  lemma StepGrows(x: Slice, step: Step)
    ensures Grows(x.o, LocalNext(x, step).o)
  {
    match step
    case Call(_, o) =>
      if x.flight.Some? {
        ExecGrows(LocalView(x), x.o, x.flight.value, o);
      }
    case _ =>
  }

  lemma {:induction false} RunGrows(s: State, steps: seq<Step>, n: Name)
    ensures Grows(At(s, n).o, At(Run(s, steps), n).o)
    decreases |steps|
  {
    if steps != [] {
      NextAt(s, steps[0], n);
      if Touches(steps[0], n) {
        StepGrows(At(s, n), steps[0]);
      }
      RunGrows(Next(s, steps[0]), steps[1..], n);
    }
  }

  /** A state some run of the cluster leads to. */
  function Reached(sub: bool, steps: seq<Step>): State {
    Run(Empty(sub), steps)
  }

  // ---- ownership ----------------------------------------------------------

  /**
   Ownership safety. Every namespace version the controller ever committed was
   either a namespace it created where there was none, or an update of a version
   whose stored owner is the owner of the profile that was read. An update keeps
   every annotation, every label the configuration does not mention, and the
   value of every label it does not delete.
   */
  lemma OwnershipSafety(sub: bool, steps: seq<Step>, n: Name, i: nat)
    requires i < |NsLog(Reached(sub, steps).store, n)|
    requires NsLog(Reached(sub, steps).store, n)[i].writer.NsController?
    ensures var log := NsLog(Reached(sub, steps).store, n);
            var c := log[i];
            && (exists j :: 0 <= j < |ProfileLog(Reached(sub, steps).store, n)| &&
                            ProfileLog(Reached(sub, steps).store, n)[j].after == c.writer.read)
            && (c.before.None? ==>
                  && OwnedBy(c.after, c.writer.read.owner) && c.after.annotations.Keys == {"owner"}
                  && c.after.controlled && c.after.labels == InitialLabels(c.writer.defaults))
            && (c.before.Some? ==>
                  && i > 0 && c.before.value == log[i - 1].after
                  && "owner" in c.before.value.annotations
                  && c.before.value.annotations["owner"] == c.writer.read.owner
                  && c.after.annotations == c.before.value.annotations
                  && c.after.controlled == c.before.value.controlled
                  && c.after.labels == Settle(c.before.value.labels, c.writer.defaults)
                  && (forall k :: k !in c.writer.defaults ==>
                        Lookup(c.after.labels, k) == Lookup(c.before.value.labels, k))
                  && (forall k :: k in c.before.value.labels && k in c.after.labels ==>
                        c.after.labels[k] == c.before.value.labels[k]))
  {
    RunSound(Empty(sub), steps, n);
    var o := At(Reached(sub, steps), n).o;
    assert SoundNsCommit(o, i);
    assert WrittenProfile(o, o.nsLog[i].writer.read);
    assert o.profileLog[o.nsLog[i].writer.read.version - 1].after == o.nsLog[i].writer.read;
  }

  /** The history is complete: what is stored now is the last version committed. */
  lemma HistoryIsComplete(sub: bool, steps: seq<Step>, n: Name)
    ensures var st := Reached(sub, steps).store;
            && (n in st.namespaces ==> NsLog(st, n) != [] && st.namespaces[n] == NsLog(st, n)[|NsLog(st, n)| - 1].after)
            && (n in st.profiles ==>
                  && ProfileLog(st, n) != []
                  && st.profiles[n] == ProfileLog(st, n)[|ProfileLog(st, n)| - 1].after)
  {
    RunSound(Empty(sub), steps, n);
    var st := Reached(sub, steps).store;
    assert n in st.namespaces ==> At(Reached(sub, steps), n).o.ns == Some(st.namespaces[n]);
    assert n in st.profiles ==> At(Reached(sub, steps), n).o.profile == Some(st.profiles[n]);
  }

  // ---- finalizers ---------------------------------------------------------

  /**
   The controller registers its finalizer only on a profile that is not being
   deleted and after the same reconcile made the namespace or saw it owned; it
   removes it only from a profile being deleted. Other finalizers keep their
   content and order, and nothing else of the profile changes.
   */
  lemma FinalizerLifecycle(sub: bool, steps: seq<Step>, n: Name, i: nat)
    requires i < |ProfileLog(Reached(sub, steps).store, n)|
    ensures var o := ObjectsAt(Reached(sub, steps).store, n);
            var c := o.profileLog[i];
            && (c.writer.Registering? ==>
                  && c.before.Some? && !c.before.value.deleting && !c.after.deleting
                  && "profile-finalizer" !in c.before.value.finalizers
                  && Without(c.after.finalizers, "profile-finalizer") == c.before.value.finalizers
                  && "profile-finalizer" in c.after.finalizers
                  && Entitled(o, c.before.value, c.writer.evidence)
                  && c.after.owner == c.before.value.owner && c.after.status == c.before.value.status)
            && (c.writer.Deregistering? ==>
                  && c.before.Some? && c.before.value.deleting && c.after.deleting
                  && "profile-finalizer" in c.before.value.finalizers
                  && c.after.finalizers == Without(c.before.value.finalizers, "profile-finalizer")
                  && Entitled(o, c.before.value, c.writer.evidence)
                  && c.after.owner == c.before.value.owner && c.after.status == c.before.value.status)
  {
    RunSound(Empty(sub), steps, n);
    var o := ObjectsAt(Reached(sub, steps).store, n);
    assert o == At(Reached(sub, steps), n).o;
    assert SoundProfileCommit(o, i);
    if o.profileLog[i].writer.Registering? {
      AppendThenRemove(o.profileLog[i].before.value.finalizers, PROFILE_FINALIZER);
    }
  }

  /** Somebody else wrote the profile at `k` and left it without the controller's finalizer. */
  predicate TakenAway(o: Objects, k: nat)
    requires k < |o.profileLog|
  {
    o.profileLog[k].writer.ProfileOther? && PROFILE_FINALIZER !in o.profileLog[k].after.finalizers
  }

  ghost predicate TakenAwaySince(o: Objects, i: nat) {
    exists k: nat :: i < k < |o.profileLog| && TakenAway(o, k)
  }

  /** While a registration stands, the finalizer is there, or the profile is going or gone. */
  ghost predicate RegistrationsStand(o: Objects) {
    forall i: nat :: i < |o.profileLog| && o.profileLog[i].writer.Registering? && !TakenAwaySince(o, i) ==>
      o.profile.Some? ==> PROFILE_FINALIZER in o.profile.value.finalizers || o.profile.value.deleting
  }

  ghost predicate RegistersOnce(o: Objects) {
    forall i: nat, j: nat :: i < j < |o.profileLog| && o.profileLog[i].writer.Registering? &&
                               o.profileLog[j].writer.Registering? ==>
      exists k: nat :: i < k < j && TakenAway(o, k)
  }

  lemma PutKeepsRegistrations(o: Objects, writer: ProfileWriter, p: Profile)
    requires RegistrationsStand(o) && RegistersOnce(o)
    requires SoundHistory(o)
    requires var b := LocalPutProfile(o, writer, p); SoundProfileCommit(b, |o.profileLog|)
    ensures var b := LocalPutProfile(o, writer, p); RegistrationsStand(b) && RegistersOnce(b)
  {
    var b := LocalPutProfile(o, writer, p);
    var last := |o.profileLog|;
    assert forall k: nat :: k < last ==> TakenAway(b, k) == TakenAway(o, k);
    assert TakenAway(b, last) == (writer.ProfileOther? && PROFILE_FINALIZER !in p.finalizers);
    forall i: nat | i < |b.profileLog| && b.profileLog[i].writer.Registering? &&
                    !TakenAwaySince(b, i) && b.profile.Some?
      ensures PROFILE_FINALIZER in b.profile.value.finalizers || b.profile.value.deleting
    {
      if i < last {
        assert !TakenAwaySince(o, i);
        assert !TakenAway(b, last);
      }
    }
    forall i: nat, j: nat | i < j < |b.profileLog| && b.profileLog[i].writer.Registering? &&
                            b.profileLog[j].writer.Registering?
      ensures exists k: nat :: i < k < j && TakenAway(b, k)
    {
      if j == last {
        assert TakenAwaySince(o, i);
      } else {
        assert o.profileLog[i].writer.Registering? && o.profileLog[j].writer.Registering?;
      }
    }
  }

  lemma SameProfileLogKeepsRegistrations(a: Objects, b: Objects)
    requires RegistrationsStand(a) && RegistersOnce(a)
    requires a.profileLog == b.profileLog && a.profile == b.profile
    ensures RegistrationsStand(b) && RegistersOnce(b)
  {
    assert forall k: nat :: k < |a.profileLog| ==> TakenAway(b, k) == TakenAway(a, k);
    forall i: nat | i < |b.profileLog| && b.profileLog[i].writer.Registering? &&
                    !TakenAwaySince(b, i) && b.profile.Some?
      ensures PROFILE_FINALIZER in b.profile.value.finalizers || b.profile.value.deleting
    {
      assert !TakenAwaySince(a, i);
    }
    forall i: nat, j: nat | i < j < |b.profileLog| && b.profileLog[i].writer.Registering? &&
                            b.profileLog[j].writer.Registering?
      ensures exists k: nat :: i < k < j && TakenAway(b, k)
    {
      var k: nat :| i < k < j && TakenAway(a, k);
      assert TakenAway(b, k);
    }
  }

  /** `b` is `a` with one more profile version. */
  predicate OneCommit(a: Objects, b: Objects) {
    && |b.profileLog| == |a.profileLog| + 1
    && var c := b.profileLog[|a.profileLog|];
    && b == LocalPutProfile(a, c.writer, c.after)
  }

  /** `b` has the same profile with the same history, or one version more. */
  predicate CommitsOnce(a: Objects, b: Objects) {
    (b.profileLog == a.profileLog && b.profile == a.profile) || OneCommit(a, b)
  }

  lemma ExecCommitsOnce(v: View, x: Objects, f: Frame, o: Outcome)
    ensures CommitsOnce(x, LocalExec(v, x, f, o).0)
  {
    if Writes(f) {
      RequestCommitsOnce(x, f);
    }
  }

  /** No step changes the profile or its history except by one commit. */
  lemma AtMostOneCommit(x: Slice, step: Step)
    ensures CommitsOnce(x.o, LocalNext(x, step).o)
  {
    match step
    case Call(_, o) =>
      if x.flight.Some? {
        ExecCommitsOnce(LocalView(x), x.o, x.flight.value, o);
      }
    case EditProfile(_, p) => PutCommitsOnce(x.o, ProfileOther, ForeignProfile(x.o.profile, p));
    case _ =>
  }

  lemma PutCommitsOnce(o: Objects, writer: ProfileWriter, p: Profile)
    ensures OneCommit(o, LocalPutProfile(o, writer, p))
  {
  }

  lemma UpdateCommitsOnce(o: Objects, writer: ProfileWriter, p: Profile)
    ensures var r := LocalUpdateProfile(o, writer, p); r.Success? ==> r.value == o || OneCommit(o, r.value)
  {
    if o.profile.Some? {
      PutCommitsOnce(o, writer, if o.statusSubresource then p.(status := o.profile.value.status) else p);
    }
  }

  lemma RequestCommitsOnce(o: Objects, f: Frame)
    requires Writes(f)
    ensures var r := LocalRequest(o, f);
            r.Success? ==> CommitsOnce(o, r.value)
  {
    match f
    case AddFinalizer(p, ev) =>
      UpdateCommitsOnce(o, Registering(ev), p.(finalizers := p.finalizers + [PROFILE_FINALIZER]));
    case RemoveFinalizer(p, ev) =>
      UpdateCommitsOnce(o, Deregistering(ev), p.(finalizers := Without(p.finalizers, PROFILE_FINALIZER)));
    case Reject(p, gaveUp) =>
      UpdateCommitsOnce(o, Rejecting, p.(status := p.status + [RejectionMessage(p, gaveUp)]));
    case _ =>
  }

  lemma StepKeepsRegistrations(x: Slice, step: Step)
    requires Sound(x) && RegistrationsStand(x.o) && RegistersOnce(x.o)
    ensures RegistrationsStand(LocalNext(x, step).o) && RegistersOnce(LocalNext(x, step).o)
  {
    var y := LocalNext(x, step).o;
    AtMostOneCommit(x, step);
    if OneCommit(x.o, y) {
      StepSound(x, step);
      assert SoundProfileCommit(y, |x.o.profileLog|);
      PutKeepsRegistrations(x.o, y.profileLog[|x.o.profileLog|].writer, y.profileLog[|x.o.profileLog|].after);
    } else {
      SameProfileLogKeepsRegistrations(x.o, y);
    }
  }

  lemma {:induction false} RunKeepsRegistrations(s: State, steps: seq<Step>, n: Name)
    requires Sound(At(s, n)) && RegistrationsStand(At(s, n).o) && RegistersOnce(At(s, n).o)
    ensures RegistersOnce(At(Run(s, steps), n).o)
    decreases |steps|
  {
    if steps != [] {
      NextAt(s, steps[0], n);
      StepSound(At(s, n), steps[0]);
      StepKeepsRegistrations(At(s, n), steps[0]);
      RunKeepsRegistrations(Next(s, steps[0]), steps[1..], n);
    }
  }

  /** Between two registrations somebody else has taken the finalizer away; without that there is one at most. */
  lemma RegistersAtMostOnce(sub: bool, steps: seq<Step>, n: Name, i: nat, j: nat)
    requires i < j < |ProfileLog(Reached(sub, steps).store, n)|
    requires ProfileLog(Reached(sub, steps).store, n)[i].writer.Registering?
    requires ProfileLog(Reached(sub, steps).store, n)[j].writer.Registering?
    ensures exists k: nat :: i < k < j && TakenAway(ObjectsAt(Reached(sub, steps).store, n), k)
  {
    RunKeepsRegistrations(Empty(sub), steps, n);
    assert ObjectsAt(Reached(sub, steps).store, n) == At(Reached(sub, steps), n).o;
  }
}
