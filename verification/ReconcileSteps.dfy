/** `Reconcile` cut at its API calls: one frame per call, one transition per answer. */
module ReconcileSteps {
  import opened Prelude
  import opened NamespaceLabels
  import opened ApiStore
  import opened StringLists

  const ISTIO_INJECTION := "istio-injection"

  /** Retries of the read that waits for a namespace just created. */
  const MAX_WAIT_RETRIES: nat := 5

  /** The call a reconcile makes next, with what it has read so far. */
  datatype Frame =
    | GetProfile
    | GetConfig(p: Profile)
    | GetNs(p: Profile, c: Labels)
    | CreateNs(p: Profile, c: Labels)
    | AwaitNs(p: Profile, ev: Evidence, left: nat)
    | UpdateNs(p: Profile, c: Labels, ns: Namespace)
    | AddFinalizer(p: Profile, ev: Evidence)
    | RemoveFinalizer(p: Profile, ev: Evidence)
    | Reject(p: Profile, gaveUp: bool)

  /** How a reconcile that returned no error ended. */
  datatype Verdict = NoProfile | Complete | Rejected | GaveUp

  /** `Retry`: the reconcile returned an error, so its key is queued again. */
  datatype Sequel = Continue(frame: Frame) | Done(verdict: Verdict) | Retry

  /** What the reads of one reconcile are answered from. */
  datatype View = View(profile: Option<Profile>, ns: Option<Namespace>, config: Option<Labels>)

  function DirectView(st: Store, n: Name): View {
    View(Lookup(st.profiles, n), Lookup(st.namespaces, n), st.config)
  }

  function InitialLabels(c: Labels): Labels {
    Settle(map[ISTIO_INJECTION := "enabled"], c)
  }

  /** The namespace a reconcile creates. */
  function FreshNamespace(p: Profile, c: Labels): Namespace {
    Namespace(0, map[OWNER := p.owner], InitialLabels(c), true)
  }

  /**
   The labels a namespace is created with are already what an update under the
   same config would write, whether or not that config says anything of
   istio-injection: the next comparison finds nothing to do. The injection is
   enabled unless the config takes it away, whatever else it may offer for it.
   */
  lemma CreatedNamespaceNeedsNoUpdate(p: Profile, c: Labels)
    ensures Settled(FreshNamespace(p, c).labels, c) && OwnedBy(FreshNamespace(p, c), p.owner)
    ensures Lookup(FreshNamespace(p, c).labels, "istio-injection") ==
            if "istio-injection" in c && c["istio-injection"] == "" then None else Some("enabled")
  {
    SettleIsIdempotent(map[ISTIO_INJECTION := "enabled"], c);
  }

  function RejectionMessage(p: Profile, gaveUp: bool): string {
    if gaveUp then "Owning namespace failed to create within 15 seconds"
    else "namespace already exist, but not owned by profile creator " + p.owner
  }

  /** From the namespace on to the finalizer. */
  function ToFinalizer(p: Profile, ev: Evidence): Sequel {
    if !p.deleting then
      if PROFILE_FINALIZER !in p.finalizers then Continue(AddFinalizer(p, ev)) else Done(Complete)
    else
      if PROFILE_FINALIZER in p.finalizers then Continue(RemoveFinalizer(p, ev)) else Done(Complete)
  }

  predicate Writes(f: Frame) {
    f.CreateNs? || f.UpdateNs? || f.AddFinalizer? || f.RemoveFinalizer? || f.Reject?
  }

  /** A bound on the calls a reconcile has left. */
  function CallsLeft(f: Frame): nat {
    match f
    case GetProfile => 12
    case GetConfig(_) => 11
    case GetNs(_, _) => 10
    case CreateNs(_, _) => 9
    case AwaitNs(_, _, left) => left + 2
    case UpdateNs(_, _, _) => 8
    case AddFinalizer(_, _) => 1
    case RemoveFinalizer(_, _) => 1
    case Reject(_, _) => 1
  }

  /** Where the answer to a read leads. */
  function AfterRead(v: View, f: Frame, o: Outcome): (r: Sequel)
    requires !Writes(f)
    ensures r.Continue? ==> CallsLeft(r.frame) < CallsLeft(f)
  {
    match f
    case GetProfile =>
      if o != Ok then Retry
      else if v.profile.None? then Done(NoProfile)
      else Continue(GetConfig(v.profile.value))
    case GetConfig(p) =>
      if o != Ok || v.config.None? then Retry else Continue(GetNs(p, v.config.value))
    case GetNs(p, c) =>
      if o != Ok then Retry
      else if v.ns.None? then Continue(CreateNs(p, c))
      else if !OwnedBy(v.ns.value, p.owner) then Continue(Reject(p, false))
      else if !Settled(v.ns.value.labels, c) then Continue(UpdateNs(p, c, v.ns.value))
      else ToFinalizer(p, SawNamespace(v.ns.value))
    case AwaitNs(p, ev, left) =>
      if o == Ok && v.ns.Some? then ToFinalizer(p, ev)
      else if left == 0 then Continue(Reject(p, true))
      else Continue(AwaitNs(p, ev, left - 1))
  }

  /** What a write asks of the server. */
  function Request(st: Store, n: Name, f: Frame): Result<Store>
    requires Writes(f)
  {
    match f
    case CreateNs(p, c) =>
      CreateNamespace(st, n, NsController(p, c), FreshNamespace(p, c))
    case UpdateNs(p, c, ns) =>
      UpdateNamespace(st, n, NsController(p, c), ns.(labels := Settle(ns.labels, c)))
    case AddFinalizer(p, ev) =>
      UpdateProfile(st, n, Registering(ev), p.(finalizers := p.finalizers + [PROFILE_FINALIZER]))
    case RemoveFinalizer(p, ev) =>
      UpdateProfile(st, n, Deregistering(ev), p.(finalizers := Without(p.finalizers, PROFILE_FINALIZER)))
    case Reject(p, gaveUp) =>
      UpdateProfile(st, n, Rejecting, p.(status := p.status + [RejectionMessage(p, gaveUp)]))
  }

  /** Where a successful write leads; `at` is the version a created namespace gets. */
  function AfterWrite(f: Frame, at: nat): (r: Sequel)
    requires Writes(f)
    ensures r.Continue? ==> CallsLeft(r.frame) < CallsLeft(f)
  {
    match f
    case CreateNs(p, c) => Continue(AwaitNs(p, MadeNamespace(at), MAX_WAIT_RETRIES))
    case UpdateNs(p, c, ns) => ToFinalizer(p, SawNamespace(ns))
    case AddFinalizer(p, ev) => Done(Complete)
    case RemoveFinalizer(p, ev) => Done(Complete)
    case Reject(p, gaveUp) => Done(if gaveUp then GaveUp else Rejected)
  }

  /** One call. A write commits nothing when it is refused or lost on the way in. */
  function Exec(v: View, st: Store, n: Name, f: Frame, o: Outcome): (r: (Store, Sequel))
    ensures r.1.Continue? ==> CallsLeft(r.1.frame) < CallsLeft(f)
  {
    if !Writes(f) then (st, AfterRead(v, f, o))
    else
      var r := Request(st, n, f);
      if o.Failed? || r.Failure? then (st, Retry)
      else (r.value, if o.Ok? then AfterWrite(f, |NsLog(st, n)| + 1) else Retry)
  }

  /** A whole reconcile with nobody else around, its calls ending as the script says. */
  function Drive(st: Store, n: Name, f: Frame, faults: seq<Outcome>): (Store, Sequel)
    decreases CallsLeft(f)
  {
    var (st', next) := Exec(DirectView(st, n), st, n, f, NextOutcome(faults));
    if next.Continue? then Drive(st', n, next.frame, RestOf(faults)) else (st', next)
  }

  function Reconciled(st: Store, n: Name, faults: seq<Outcome>): (Store, Sequel) {
    Drive(st, n, GetProfile, faults)
  }

  // ---- which reconciles report an error -----------------------------------

  /**
   The call is answered Ok; a write is accepted, and the configuration is there. The
   reads of the wait may fail: they are what its retries are for.
   */
  predicate GoesWell(v: View, st: Store, n: Name, f: Frame, o: Outcome) {
    f.AwaitNs? || (o == Ok && (Writes(f) ==> Request(st, n, f).Success?) && (f.GetConfig? ==> v.config.Some?))
  }

  /** One call leads to an error exactly if it does not go well. */
  lemma CallErrsIff(v: View, st: Store, n: Name, f: Frame, o: Outcome)
    ensures Exec(v, st, n, f, o).1 == Retry <==> !GoesWell(v, st, n, f, o)
  {
  }

  /** Every call from this frame on goes well. */
  predicate AllGoWell(st: Store, n: Name, f: Frame, faults: seq<Outcome>)
    decreases CallsLeft(f)
  {
    var (st', next) := Exec(DirectView(st, n), st, n, f, NextOutcome(faults));
    && GoesWell(DirectView(st, n), st, n, f, NextOutcome(faults))
    && (next.Continue? ==> AllGoWell(st', n, next.frame, RestOf(faults)))
  }

  /** A whole reconcile reports an error exactly if one of its calls does not go well, the rejection's included. */
  lemma {:induction false} ErrsIff(st: Store, n: Name, f: Frame, faults: seq<Outcome>)
    ensures Drive(st, n, f, faults).1 == Retry <==> !AllGoWell(st, n, f, faults)
    decreases CallsLeft(f)
  {
    var o := NextOutcome(faults);
    CallErrsIff(DirectView(st, n), st, n, f, o);
    var (st', next) := Exec(DirectView(st, n), st, n, f, o);
    if next.Continue? {
      ErrsIff(st', n, next.frame, RestOf(faults));
    }
  }

  // ---- what a rejection says ----------------------------------------------

  /** The message of a rejection tells the two reasons apart, and names the owner who was turned away. */
  lemma MessagesTell(p: Profile, q: Profile)
    ensures RejectionMessage(p, true) == "Owning namespace failed to create within 15 seconds"
    ensures RejectionMessage(p, true) != RejectionMessage(q, false)
    ensures RejectionMessage(p, false) == RejectionMessage(q, false) <==> p.owner == q.owner
  {
    var head := "namespace already exist, but not owned by profile creator ";
    assert |RejectionMessage(p, true)| < |head| <= |RejectionMessage(q, false)|;
    assert RejectionMessage(p, false)[|head|..] == p.owner && RejectionMessage(q, false)[|head|..] == q.owner;
  }
}
