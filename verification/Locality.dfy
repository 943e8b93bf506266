/**
 The cluster as one name sees it. A slice holds everything that concerns one
 name; `Cluster.Next` on the whole cluster is shown to be `LocalNext` on the
 slice of the step's name and nothing at all on every other slice.
 */
module Locality {
  import opened Prelude
  import opened NamespaceLabels
  import opened ApiStore
  import opened ReconcileSteps
  import opened StringLists
  import opened Cluster

  /** What the server holds about one name. */
  datatype Objects = Objects(
    profile: Option<Profile>,
    ns: Option<Namespace>,
    profileLog: seq<ProfileCommit>,
    nsLog: seq<NsCommit>,
    statusSubresource: bool)

  datatype Slice = Slice(
    o: Objects,
    informer: Informer,
    queued: bool,
    flight: Option<Frame>,
    config: Option<Labels>,
    seenConfig: Option<Labels>,
    configEvents: seq<Option<Labels>>)

  function ObjectsAt(st: Store, n: Name): Objects {
    Objects(Lookup(st.profiles, n), Lookup(st.namespaces, n), ProfileLog(st, n), NsLog(st, n), st.statusSubresource)
  }

  function At(s: State, n: Name): Slice {
    Slice(ObjectsAt(s.store, n), InformerOf(s, n), n in s.queue, Lookup(s.flights, n),
          s.store.config, s.seenConfig, s.configEvents)
  }

  // ---- the server, one name at a time -------------------------------------

  function LocalPutProfile(x: Objects, writer: ProfileWriter, p: Profile): Objects {
    var stored := p.(version := |x.profileLog| + 1);
    x.(profile := if stored.deleting && stored.finalizers == [] then None else Some(stored),
       profileLog := x.profileLog + [ProfileCommit(writer, x.profile, stored)])
  }

  function LocalPutNs(x: Objects, writer: NsWriter, ns: Namespace): Objects {
    var stored := ns.(version := |x.nsLog| + 1);
    x.(ns := Some(stored), nsLog := x.nsLog + [NsCommit(writer, x.ns, stored)])
  }

  function LocalUpdateProfile(x: Objects, writer: ProfileWriter, p: Profile): Result<Objects> {
    if x.profile.None? || x.profile.value.version != p.version then Failure
    else
      var merged := if x.statusSubresource then p.(status := x.profile.value.status) else p;
      if x.profile.value == merged then Success(x) else Success(LocalPutProfile(x, writer, merged))
  }

  function LocalRequest(x: Objects, f: Frame): Result<Objects>
    requires Writes(f)
  {
    match f
    case CreateNs(p, c) =>
      if x.ns.Some? then Failure else Success(LocalPutNs(x, NsController(p, c), FreshNamespace(p, c)))
    case UpdateNs(p, c, ns) =>
      var wanted := ns.(labels := Settle(ns.labels, c));
      if x.ns.None? || x.ns.value.version != ns.version then Failure
      else if x.ns.value == wanted then Success(x)
      else Success(LocalPutNs(x, NsController(p, c), wanted))
    case AddFinalizer(p, ev) =>
      LocalUpdateProfile(x, Registering(ev), p.(finalizers := p.finalizers + [PROFILE_FINALIZER]))
    case RemoveFinalizer(p, ev) =>
      LocalUpdateProfile(x, Deregistering(ev), p.(finalizers := Without(p.finalizers, PROFILE_FINALIZER)))
    case Reject(p, gaveUp) =>
      LocalUpdateProfile(x, Rejecting, p.(status := p.status + [RejectionMessage(p, gaveUp)]))
  }

  function LocalExec(v: View, x: Objects, f: Frame, o: Outcome): (r: (Objects, Sequel))
    ensures r.1.Continue? ==> CallsLeft(r.1.frame) < CallsLeft(f)
  {
    if !Writes(f) then (x, AfterRead(v, f, o))
    else
      var r := LocalRequest(x, f);
      if o.Failed? || r.Failure? then (x, Retry)
      else (r.value, if o.Ok? then AfterWrite(f, |x.nsLog| + 1) else Retry)
  }

  // ---- the whole system, one name at a time -------------------------------

  function LocalView(x: Slice): View {
    View(x.informer.profile, x.informer.ns, x.seenConfig)
  }

  function LocalPublish(x: Slice, o: Objects): Slice {
    x.(o := o,
       informer := x.informer.(
         profileEvents := x.informer.profileEvents + if x.o.profile == o.profile then [] else [o.profile],
         nsEvents := x.informer.nsEvents + if x.o.ns == o.ns then [] else [NsEvent(x.o.ns, o.ns)]))
  }

  function LocalAfterCall(x: Slice, next: Sequel): Slice {
    match next
    case Continue(f) => x.(flight := Some(f))
    case Done(_) => x.(flight := None)
    case Retry => x.(flight := None, queued := true)
  }

  function LocalWriteProfile(x: Objects, p: Profile): Objects {
    var stored := ForeignProfile(x.profile, p);
    if x.profile == Some(stored) then x else LocalPutProfile(x, ProfileOther, stored)
  }

  function LocalWriteNs(x: Objects, ns: Option<Namespace>): Objects {
    match ns
    case None => x.(ns := None)
    case Some(y) =>
      if x.ns.Some? && x.ns.value == y.(version := x.ns.value.version) then x
      else LocalPutNs(x, NsOther, y)
  }

  /** A step of this name, or of the whole cluster. */
  function LocalNext(x: Slice, step: Step): Slice {
    match step
    case Pick(_) =>
      if x.queued && x.flight.None? then x.(queued := false, flight := Some(GetProfile)) else x
    case Call(_, o) =>
      if x.flight.Some? then
        var (y, next) := LocalExec(LocalView(x), x.o, x.flight.value, o);
        LocalAfterCall(LocalPublish(x, y), next)
      else x
    case ProfileEvent(_) =>
      if x.informer.profileEvents != [] then
        x.(informer := x.informer.(profile := x.informer.profileEvents[0],
                                   profileEvents := x.informer.profileEvents[1..]),
           queued := true)
      else x
    case NamespaceEvent(_) =>
      if x.informer.nsEvents != [] then
        x.(informer := x.informer.(ns := x.informer.nsEvents[0].after, nsEvents := x.informer.nsEvents[1..]),
           queued := x.queued || Wakes(x.informer.nsEvents[0]))
      else x
    case ConfigEvent =>
      if x.configEvents != [] then
        x.(seenConfig := x.configEvents[0], configEvents := x.configEvents[1..],
           queued := x.queued || x.informer.profile.Some?)
      else x
    case OwnedEvent(_) => x.(queued := true)
    case EditProfile(_, p) => LocalPublish(x, LocalWriteProfile(x.o, p))
    case EditNamespace(_, ns) => LocalPublish(x, LocalWriteNs(x.o, ns))
    case EditConfig(c) =>
      if c == x.config then x else x.(config := c, configEvents := x.configEvents + [c])
    case Restart =>
      Slice(x.o, Informer(x.o.profile, x.o.ns, [], []), x.o.profile.Some? || Controlled(x.o.ns), None,
            x.config, x.config, [])
  }

  predicate Global(step: Step) {
    step.ConfigEvent? || step.EditConfig? || step.Restart?
  }

  predicate Touches(step: Step, n: Name) {
    Global(step) || step.name == n
  }

  // ---- the cluster is the product of its slices ---------------------------

  /** The objects at `m` after a write to those at `n`. */
  predicate WroteAt(a: Store, b: Store, n: Name, m: Name, y: Objects) {
    && a.config == b.config
    && ObjectsAt(b, m) == if m == n then y else ObjectsAt(a, m)
  }

  lemma PutProfileAt(st: Store, n: Name, writer: ProfileWriter, p: Profile, m: Name)
    ensures WroteAt(st, PutProfile(st, n, writer, p), n, m, LocalPutProfile(ObjectsAt(st, n), writer, p))
  {
  }

  lemma PutNsAt(st: Store, n: Name, writer: NsWriter, ns: Namespace, m: Name)
    ensures WroteAt(st, PutNamespace(st, n, writer, ns), n, m, LocalPutNs(ObjectsAt(st, n), writer, ns))
  {
  }

  /** A request at the server and its local form agree: on acceptance, and on all that is then stored anywhere. */
  predicate Agree(st: Store, n: Name, m: Name, r: Result<Store>, l: Result<Objects>) {
    match r
    case Failure => l.Failure?
    case Success(b) => l.Success? && WroteAt(st, b, n, m, l.value)
  }

  lemma UpdateProfileAt(st: Store, n: Name, writer: ProfileWriter, p: Profile, m: Name)
    ensures Agree(st, n, m, UpdateProfile(st, n, writer, p), LocalUpdateProfile(ObjectsAt(st, n), writer, p))
  {
    if n in st.profiles && st.profiles[n].version == p.version {
      PutProfileAt(st, n, writer, if st.statusSubresource then p.(status := st.profiles[n].status) else p, m);
    }
  }

  lemma CreateNsAt(st: Store, n: Name, p: Profile, c: Labels, m: Name)
    ensures Agree(st, n, m, Request(st, n, CreateNs(p, c)), LocalRequest(ObjectsAt(st, n), CreateNs(p, c)))
  {
    PutNsAt(st, n, NsController(p, c), FreshNamespace(p, c), m);
  }

  lemma UpdateNsAt(st: Store, n: Name, p: Profile, c: Labels, ns: Namespace, m: Name)
    ensures Agree(st, n, m, Request(st, n, UpdateNs(p, c, ns)), LocalRequest(ObjectsAt(st, n), UpdateNs(p, c, ns)))
  {
    PutNsAt(st, n, NsController(p, c), ns.(labels := Settle(ns.labels, c)), m);
  }

  lemma RequestAt(st: Store, n: Name, f: Frame, m: Name)
    requires Writes(f)
    ensures Agree(st, n, m, Request(st, n, f), LocalRequest(ObjectsAt(st, n), f))
  {
    match f
    case CreateNs(p, c) => CreateNsAt(st, n, p, c, m);
    case UpdateNs(p, c, ns) => UpdateNsAt(st, n, p, c, ns, m);
    case AddFinalizer(p, ev) =>
      UpdateProfileAt(st, n, Registering(ev), p.(finalizers := p.finalizers + [PROFILE_FINALIZER]), m);
    case RemoveFinalizer(p, ev) =>
      UpdateProfileAt(st, n, Deregistering(ev), p.(finalizers := Without(p.finalizers, PROFILE_FINALIZER)), m);
    case Reject(p, gaveUp) =>
      UpdateProfileAt(st, n, Rejecting, p.(status := p.status + [RejectionMessage(p, gaveUp)]), m);
  }

  lemma ExecAt(v: View, st: Store, n: Name, f: Frame, o: Outcome, m: Name)
    ensures Exec(v, st, n, f, o).1 == LocalExec(v, ObjectsAt(st, n), f, o).1
    ensures WroteAt(st, Exec(v, st, n, f, o).0, n, m, LocalExec(v, ObjectsAt(st, n), f, o).0)
  {
    if Writes(f) {
      RequestAt(st, n, f, m);
    }
  }

  lemma PublishAt(s: State, n: Name, st: Store, m: Name, y: Objects)
    requires WroteAt(s.store, st, n, n, y) && WroteAt(s.store, st, n, m, y)
    ensures At(Publish(s, n, st), m) == if m == n then LocalPublish(At(s, n), y) else At(s, m)
  {
    assert y.profile == Lookup(st.profiles, n) && y.ns == Lookup(st.namespaces, n);
  }

  lemma CallAt(s: State, n: Name, o: Outcome, m: Name)
    ensures At(Next(s, Call(n, o)), m) == if m == n then LocalNext(At(s, n), Call(n, o)) else At(s, m)
  {
    if n in s.flights {
      var f, v := s.flights[n], CachedView(s, n);
      var (st, next) := Exec(v, s.store, n, f, o);
      var y := LocalExec(v, ObjectsAt(s.store, n), f, o).0;
      ExecAt(v, s.store, n, f, o, m);
      ExecAt(v, s.store, n, f, o, n);
      PublishAt(s, n, st, m, y);
      PublishAt(s, n, st, n, y);
      AfterCallAt(Publish(s, n, st), n, next, m);
    }
  }

  lemma AfterCallAt(s: State, n: Name, next: Sequel, m: Name)
    ensures At(AfterCall(s, n, next), m) == if m == n then LocalAfterCall(At(s, n), next) else At(s, m)
  {
  }

  lemma EditProfileAt(s: State, n: Name, p: Profile, m: Name)
    ensures At(Next(s, EditProfile(n, p)), m) == if m == n then LocalNext(At(s, n), EditProfile(n, p)) else At(s, m)
  {
    var stored := ForeignProfile(Lookup(s.store.profiles, n), p);
    var y := LocalWriteProfile(ObjectsAt(s.store, n), p);
    PutProfileAt(s.store, n, ProfileOther, stored, m);
    PutProfileAt(s.store, n, ProfileOther, stored, n);
    PublishAt(s, n, WriteProfile(s.store, n, p), m, y);
  }

  lemma EditNamespaceAt(s: State, n: Name, ns: Option<Namespace>, m: Name)
    ensures At(Next(s, EditNamespace(n, ns)), m) ==
            if m == n then LocalNext(At(s, n), EditNamespace(n, ns)) else At(s, m)
  {
    var y := LocalWriteNs(ObjectsAt(s.store, n), ns);
    if ns.Some? {
      PutNsAt(s.store, n, NsOther, ns.value, m);
      PutNsAt(s.store, n, NsOther, ns.value, n);
    }
    PublishAt(s, n, WriteNamespace(s.store, n, ns), m, y);
  }

  lemma ConfigEventAt(s: State, n: Name)
    ensures At(Next(s, ConfigEvent), n) == LocalNext(At(s, n), ConfigEvent)
  {
    assert n in s.informers && s.informers[n].profile.Some? <==> InformerOf(s, n).profile.Some?;
  }

  lemma RestartAt(s: State, n: Name)
    ensures At(Next(s, Restart), n) == LocalNext(At(s, n), Restart)
  {
    assert n in s.store.profiles <==> Lookup(s.store.profiles, n).Some?;
    assert n in s.store.namespaces <==> Lookup(s.store.namespaces, n).Some?;
  }

  lemma ProfileEventAt(s: State, n: Name, m: Name)
    ensures At(Next(s, ProfileEvent(n)), m) == if m == n then LocalNext(At(s, n), ProfileEvent(n)) else At(s, m)
  {
  }

  lemma NamespaceEventAt(s: State, n: Name, m: Name)
    ensures At(Next(s, NamespaceEvent(n)), m) == if m == n then LocalNext(At(s, n), NamespaceEvent(n)) else At(s, m)
  {
  }

  lemma PickAt(s: State, n: Name, m: Name)
    ensures At(Next(s, Pick(n)), m) == if m == n then LocalNext(At(s, n), Pick(n)) else At(s, m)
  {
  }

  lemma OwnedEventAt(s: State, n: Name, m: Name)
    ensures At(Next(s, OwnedEvent(n)), m) == if m == n then LocalNext(At(s, n), OwnedEvent(n)) else At(s, m)
  {
  }

  lemma EditConfigAt(s: State, c: Option<Labels>, n: Name)
    ensures At(Next(s, EditConfig(c)), n) == LocalNext(At(s, n), EditConfig(c))
  {
  }

  lemma GlobalNextAt(s: State, step: Step, n: Name)
    requires Global(step)
    ensures At(Next(s, step), n) == LocalNext(At(s, n), step)
  {
    match step
    case ConfigEvent => ConfigEventAt(s, n);
    case EditConfig(c) => EditConfigAt(s, c, n);
    case Restart => RestartAt(s, n);
  }

  lemma NamedNextAt(s: State, step: Step, n: Name)
    requires !Global(step)
    ensures At(Next(s, step), n) == if step.name == n then LocalNext(At(s, step.name), step) else At(s, n)
  {
    match step
    case Pick(m) => PickAt(s, m, n);
    case Call(m, o) => CallAt(s, m, o, n);
    case ProfileEvent(m) => ProfileEventAt(s, m, n);
    case NamespaceEvent(m) => NamespaceEventAt(s, m, n);
    case OwnedEvent(m) => OwnedEventAt(s, m, n);
    case EditProfile(m, p) => EditProfileAt(s, m, p, n);
    case EditNamespace(m, ns) => EditNamespaceAt(s, m, ns, n);
  }

  /** The cluster is the product of its slices. */
  lemma NextAt(s: State, step: Step, n: Name)
    ensures At(Next(s, step), n) == if Touches(step, n) then LocalNext(At(s, n), step) else At(s, n)
  {
    if Global(step) {
      GlobalNextAt(s, step, n);
    } else {
      NamedNextAt(s, step, n);
    }
  }

  // ---- runs at one name ---------------------------------------------------

  function LocalRun(x: Slice, steps: seq<Step>): Slice
    decreases |steps|
  {
    if steps == [] then x else LocalRun(LocalNext(x, steps[0]), steps[1..])
  }

  lemma {:induction false} RunAt(s: State, steps: seq<Step>, n: Name)
    requires forall step :: step in steps ==> Touches(step, n)
    ensures At(Run(s, steps), n) == LocalRun(At(s, n), steps)
    decreases |steps|
  {
    if steps != [] {
      NextAt(s, steps[0], n);
      RunAt(Next(s, steps[0]), steps[1..], n);
    }
  }
}
