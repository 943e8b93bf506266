/**
 The running system: the API server, the controller's informer caches and work
 queue, one reconcile at most in flight per key, and everybody else.
 Reads are answered from the caches, which trail the server by the watch events
 not yet delivered; delivering an event also queues the keys it is wired to.
 */
module Cluster {
  import opened Prelude
  import opened NamespaceLabels
  import opened ApiStore
  import opened ReconcileSteps

  datatype NsEvent = NsEvent(before: Option<Namespace>, after: Option<Namespace>)

  /** What the controller's caches hold about one name, and the events still under way. */
  datatype Informer = Informer(
    profile: Option<Profile>,
    ns: Option<Namespace>,
    profileEvents: seq<Option<Profile>>,
    nsEvents: seq<NsEvent>)

  datatype State = State(
    store: Store,
    informers: map<Name, Informer>,
    seenConfig: Option<Labels>,
    configEvents: seq<Option<Labels>>,
    queue: set<Name>,
    flights: map<Name, Frame>)

  datatype Step =
    | Pick(name: Name)                           // a worker takes a key that is not in flight
    | Call(name: Name, outcome: Outcome)         // the reconcile in flight makes its next API call
    | ProfileEvent(name: Name)                   // watch events reach the controller
    | NamespaceEvent(name: Name)
    | ConfigEvent
    | OwnedEvent(name: Name)                     // an event of any other kind of object a profile owns
    | EditProfile(name: Name, profile: Profile)  // other actors write
    | EditNamespace(name: Name, ns: Option<Namespace>)
    | EditConfig(config: Option<Labels>)
    | Restart                                    // the controller dies and comes up again

  const NO_NEWS := Informer(None, None, [], [])

  function InformerOf(s: State, n: Name): Informer {
    Get(s.informers, n, NO_NEWS)
  }

  function CachedView(s: State, n: Name): View {
    View(InformerOf(s, n).profile, InformerOf(s, n).ns, s.seenConfig)
  }

  predicate Controlled(ns: Option<Namespace>) {
    ns.Some? && ns.value.controlled
  }

  /** A namespace event reaches the queue only through a controller reference, before or after the change. */
  predicate Wakes(e: NsEvent) {
    Controlled(e.before) || Controlled(e.after)
  }

  /** A write to the objects called `n` reaches the server and starts its watch events. */
  function Publish(s: State, n: Name, st: Store): State {
    var i := InformerOf(s, n);
    var p0, p1 := Lookup(s.store.profiles, n), Lookup(st.profiles, n);
    var n0, n1 := Lookup(s.store.namespaces, n), Lookup(st.namespaces, n);
    s.(store := st,
       informers := s.informers[n := i.(
         profileEvents := i.profileEvents + if p0 == p1 then [] else [p1],
         nsEvents := i.nsEvents + if n0 == n1 then [] else [NsEvent(n0, n1)])])
  }

  function AfterCall(s: State, n: Name, next: Sequel): State {
    match next
    case Continue(f) => s.(flights := s.flights[n := f])
    case Done(_) => s.(flights := s.flights - {n})
    case Retry => s.(flights := s.flights - {n}, queue := s.queue + {n})
  }

  /** The stored form of somebody else's profile write: deletion, once requested, stays requested. */
  function ForeignProfile(current: Option<Profile>, p: Profile): Profile {
    match current
    case None => p.(deleting := false)
    case Some(c) => p.(version := c.version, deleting := p.deleting || c.deleting)
  }

  function WriteProfile(st: Store, n: Name, p: Profile): Store {
    var stored := ForeignProfile(Lookup(st.profiles, n), p);
    if Lookup(st.profiles, n) == Some(stored) then st else PutProfile(st, n, ProfileOther, stored)
  }

  function WriteNamespace(st: Store, n: Name, ns: Option<Namespace>): Store {
    match ns
    case None => st.(namespaces := st.namespaces - {n})
    case Some(x) =>
      if n in st.namespaces && st.namespaces[n] == x.(version := st.namespaces[n].version) then st
      else PutNamespace(st, n, NsOther, x)
  }

  /** A step that is not possible changes nothing. */
  function Next(s: State, step: Step): State {
    match step
    case Pick(n) =>
      if n in s.queue && n !in s.flights then
        s.(queue := s.queue - {n}, flights := s.flights[n := GetProfile])
      else s
    case Call(n, o) =>
      if n in s.flights then
        var (st, next) := Exec(CachedView(s, n), s.store, n, s.flights[n], o);
        AfterCall(Publish(s, n, st), n, next)
      else s
    case ProfileEvent(n) =>
      var i := InformerOf(s, n);
      if i.profileEvents != [] then
        s.(informers := s.informers[n := i.(profile := i.profileEvents[0], profileEvents := i.profileEvents[1..])],
           queue := s.queue + {n})
      else s
    case NamespaceEvent(n) =>
      var i := InformerOf(s, n);
      if i.nsEvents != [] then
        s.(informers := s.informers[n := i.(ns := i.nsEvents[0].after, nsEvents := i.nsEvents[1..])],
           queue := if Wakes(i.nsEvents[0]) then s.queue + {n} else s.queue)
      else s
    case ConfigEvent =>
      if s.configEvents != [] then
        s.(seenConfig := s.configEvents[0], configEvents := s.configEvents[1..],
           queue := s.queue + set n | n in s.informers && s.informers[n].profile.Some?)
      else s
    case OwnedEvent(n) => s.(queue := s.queue + {n})
    case EditProfile(n, p) => Publish(s, n, WriteProfile(s.store, n, p))
    case EditNamespace(n, ns) => Publish(s, n, WriteNamespace(s.store, n, ns))
    case EditConfig(c) =>
      if c == s.store.config then s
      else s.(store := s.store.(config := c), configEvents := s.configEvents + [c])
    case Restart =>
      State(s.store,
            map n | n in s.store.profiles.Keys + s.store.namespaces.Keys
              :: Informer(Lookup(s.store.profiles, n), Lookup(s.store.namespaces, n), [], []),
            s.store.config, [],
            s.store.profiles.Keys + set n | n in s.store.namespaces && s.store.namespaces[n].controlled,
            map[])
  }

  function Run(s: State, steps: seq<Step>): State
    decreases |steps|
  {
    if steps == [] then s else Run(Next(s, steps[0]), steps[1..])
  }

  /**
   A call ends its reconcile with an error exactly if it does not go well, and then
   its key is queued; a call that goes well queues nothing.
   */
  lemma FailedCallsAreQueued(s: State, n: Name, o: Outcome)
    requires n in s.flights
    ensures var t := Next(s, Call(n, o));
            if GoesWell(CachedView(s, n), s.store, n, s.flights[n], o) then t.queue == s.queue
            else t.queue == s.queue + {n} && n !in t.flights
  {
    CallErrsIff(CachedView(s, n), s.store, n, s.flights[n], o);
  }

  /** A reconcile goes by what the caches hold, not by what is stored. */
  lemma ReadsFollowTheCaches(s: State, n: Name, p: Profile, c: Labels)
    requires n in s.flights && InformerOf(s, n).profile == Some(p) && s.seenConfig == Some(c)
    ensures var next := Lookup(Next(s, Call(n, Ok)).flights, n);
            && (s.flights[n] == GetProfile ==> next == Some(GetConfig(p)))
            && (s.flights[n] == GetConfig(p) ==> next == Some(GetNs(p, c)))
            && (s.flights[n] == GetNs(p, c) && InformerOf(s, n).ns.None? ==> next == Some(CreateNs(p, c)))
  {
  }

  /** The other events queue the name they are about, and do nothing else. */
  lemma OwnedEventsAreQueued(s: State, n: Name)
    ensures Next(s, OwnedEvent(n)).queue == s.queue + {n} && Next(s, OwnedEvent(n)) == s.(queue := s.queue + {n})
  {
  }

  /** A restart brings every profile and every name with a controlled namespace back to the queue. */
  lemma RestartQueues(s: State, n: Name)
    ensures n in Next(s, Restart).queue <==>
              n in s.store.profiles || Controlled(Lookup(s.store.namespaces, n))
  {
  }

  /** An empty cluster; everything else is brought about by steps. */
  function Empty(statusSubresource: bool): State {
    State(Store(map[], map[], None, map[], map[], statusSubresource), map[], None, [], {}, map[])
  }

  lemma {:induction false} RunAppend(s: State, a: seq<Step>, b: seq<Step>)
    ensures Run(s, a + b) == Run(Run(s, a), b)
    decreases |a|
  {
    if a == [] {
      assert a + b == b;
    } else {
      assert (a + b)[0] == a[0] && (a + b)[1..] == a[1..] + b;
      RunAppend(Next(s, a[0]), a[1..], b);
    }
  }
}
