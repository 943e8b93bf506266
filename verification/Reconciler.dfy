/** `Reconcile` in the form the controller has it: reads and writes against a mutable API server. */
module Reconciler {
  import opened Prelude
  import opened NamespaceLabels
  import Api = ApiStore
  import opened ReconcileSteps
  import opened StringLists

  datatype Reply<+T> = Found(value: T) | NotFound | Error

  /** Answers one caller at a time; `faults` says how its next calls end. */
  class ApiServer {
    var profiles: map<Api.Name, Api.Profile>
    var namespaces: map<Api.Name, Api.Namespace>
    var config: Option<Labels>
    var profileLog: map<Api.Name, seq<Api.ProfileCommit>>
    var nsLog: map<Api.Name, seq<Api.NsCommit>>
    var faults: seq<Outcome>
    const statusSubresource: bool

    constructor (content: Api.Store, faults: seq<Outcome>)
      ensures Content() == content
      ensures this.faults == faults
    {
      profiles, namespaces, config := content.profiles, content.namespaces, content.config;
      profileLog, nsLog := content.profileLog, content.nsLog;
      statusSubresource := content.statusSubresource;
      this.faults := faults;
    }

    function Content(): Api.Store
      reads this
    {
      Api.Store(profiles, namespaces, config, profileLog, nsLog, statusSubresource)
    }

    method EndCall() returns (o: Outcome)
      modifies this`faults
      ensures o == NextOutcome(old(faults)) && faults == RestOf(old(faults))
    {
      o := NextOutcome(faults);
      faults := RestOf(faults);
    }

    method GetProfile(n: Api.Name) returns (r: Reply<Api.Profile>)
      modifies this`faults
      ensures faults == RestOf(old(faults))
      ensures r == if NextOutcome(old(faults)) != Ok then Error
                   else if n in profiles then Found(profiles[n]) else NotFound
    {
      var o := EndCall();
      r := if o != Ok then Error else if n in profiles then Found(profiles[n]) else NotFound;
    }

    method GetConfig() returns (r: Reply<Labels>)
      modifies this`faults
      ensures faults == RestOf(old(faults))
      ensures r == if NextOutcome(old(faults)) != Ok then Error
                   else if config.Some? then Found(config.value) else NotFound
    {
      var o := EndCall();
      r := if o != Ok then Error else if config.Some? then Found(config.value) else NotFound;
    }

    method GetNamespace(n: Api.Name) returns (r: Reply<Api.Namespace>)
      modifies this`faults
      ensures faults == RestOf(old(faults))
      ensures r == if NextOutcome(old(faults)) != Ok then Error
                   else if n in namespaces then Found(namespaces[n]) else NotFound
    {
      var o := EndCall();
      r := if o != Ok then Error else if n in namespaces then Found(namespaces[n]) else NotFound;
    }

    method Install(content: Api.Store)
      requires content.config == config && content.statusSubresource == statusSubresource
      modifies this`profiles, this`namespaces, this`profileLog, this`nsLog
      ensures Content() == content
    {
      profiles, namespaces := content.profiles, content.namespaces;
      profileLog, nsLog := content.profileLog, content.nsLog;
    }

    /** Commits an accepted request unless it was lost on the way in; reports an error unless all went well. */
    method Finish(result: Result<Api.Store>) returns (err: bool)
      requires result.Success? ==> result.value.config == config && result.value.statusSubresource == statusSubresource
      modifies this
      ensures faults == RestOf(old(faults))
      ensures var o := NextOutcome(old(faults));
              && Content() == (if o.Failed? || result.Failure? then old(Content()) else result.value)
              && (err <==> o != Ok || result.Failure?)
    {
      var o := EndCall();
      if !o.Failed? && result.Success? {
        Install(result.value);
      }
      err := o != Ok || result.Failure?;
    }

    method CreateNamespace(n: Api.Name, writer: Api.NsWriter, ns: Api.Namespace) returns (err: bool)
      modifies this
      ensures faults == RestOf(old(faults))
      ensures Written(old(Content()), Api.CreateNamespace(old(Content()), n, writer, ns),
                      NextOutcome(old(faults)), Content(), err)
    {
      err := Finish(Api.CreateNamespace(Content(), n, writer, ns));
    }

    method UpdateNamespace(n: Api.Name, writer: Api.NsWriter, ns: Api.Namespace) returns (err: bool)
      modifies this
      ensures faults == RestOf(old(faults))
      ensures Written(old(Content()), Api.UpdateNamespace(old(Content()), n, writer, ns),
                      NextOutcome(old(faults)), Content(), err)
    {
      err := Finish(Api.UpdateNamespace(Content(), n, writer, ns));
    }

    method UpdateProfile(n: Api.Name, writer: Api.ProfileWriter, p: Api.Profile) returns (err: bool)
      modifies this
      ensures faults == RestOf(old(faults))
      ensures Written(old(Content()), Api.UpdateProfile(old(Content()), n, writer, p),
                      NextOutcome(old(faults)), Content(), err)
    {
      err := Finish(Api.UpdateProfile(Content(), n, writer, p));
    }
  }

  /** What one write request did, seen from the server and from its caller. */
  predicate Written(before: Api.Store, result: Result<Api.Store>, o: Outcome, after: Api.Store, err: bool) {
    && after == (if o.Failed? || result.Failure? then before else result.value)
    && (err <==> o != Ok || result.Failure?)
  }

  /** The reconcile begun at `start` has come to the frame `f` on this server, or ended as `next`. */
  ghost predicate At(start: (Api.Store, Sequel), api: ApiServer, n: Api.Name, f: Frame)
    reads api
  {
    start == Drive(api.Content(), n, f, api.faults)
  }

  /** Appends a failed condition and reports it; the profile in hand is the one that was read. */
  method AppendErrorConditionAndReturn(api: ApiServer, name: Api.Name, instance: Api.Profile, gaveUp: bool)
      returns (err: bool)
    modifies api
    ensures (api.Content(), if err then Retry else Done(if gaveUp then GaveUp else Rejected))
            == old(Drive(api.Content(), name, Reject(instance, gaveUp), api.faults))
    ensures var failing := instance.(status := instance.status + [RejectionMessage(instance, gaveUp)]);
            Written(old(api.Content()), Api.UpdateProfile(old(api.Content()), name, Api.Rejecting, failing),
                    NextOutcome(old(api.faults)), api.Content(), err)
  {
    var message := RejectionMessage(instance, gaveUp);
    err := api.UpdateProfile(name, Api.Rejecting, instance.(status := instance.status + [message]));
  }

  /** The last part of `Reconcile`: register or remove the finalizer. */
  method ReconcileFinalizer(api: ApiServer, name: Api.Name, profile: Api.Profile, ev: Api.Evidence) returns (err: bool)
    modifies api
    ensures (api.Content(), if err then Retry else Done(Complete))
            == match ToFinalizer(profile, ev)
               case Continue(f) => old(Drive(api.Content(), name, f, api.faults))
               case done => (old(api.Content()), done)
  {
    var instance := profile;
    err := false;
    var registered := ContainsString(instance.finalizers, Api.PROFILE_FINALIZER);
    if !instance.deleting {
      if !registered {
        instance := instance.(finalizers := instance.finalizers + [Api.PROFILE_FINALIZER]);
        err := api.UpdateProfile(name, Api.Registering(ev), instance);
      }
    } else {
      if registered {
        var rest := RemoveString(instance.finalizers, Api.PROFILE_FINALIZER);
        instance := instance.(finalizers := rest);
        err := api.UpdateProfile(name, Api.Deregistering(ev), instance);
      }
    }
  }

  /** The reconcile goes on from `instance` to its finalizer, or is over without needing it. */
  ghost predicate AtFinalizer(end: (Api.Store, Sequel), api: ApiServer, n: Api.Name,
                              instance: Api.Profile, ev: Api.Evidence)
    reads api
  {
    match ToFinalizer(instance, ev)
    case Continue(f) => At(end, api, n, f)
    case done => end == (api.Content(), done)
  }

  /**
   One reconcile, its API calls ending as `api.faults` says: it leaves the server
   as the step-by-step machine does, and reports an error exactly when the
   machine asks for a retry, which is when one of its calls does not go well.
   */
  method Reconcile(api: ApiServer, name: Api.Name) returns (err: bool)
    modifies api
    ensures api.Content() == Reconciled(old(api.Content()), name, old(api.faults)).0
    ensures err <==> Reconciled(old(api.Content()), name, old(api.faults)).1 == Retry
    ensures err <==> !AllGoWell(old(api.Content()), name, GetProfile, old(api.faults))
  {
    ErrsIff(api.Content(), name, GetProfile, api.faults);
    ghost var end := Reconciled(api.Content(), name, api.faults);
    var got := api.GetProfile(name);
    if !got.Found? {
      return got.Error?;
    }
    var instance := got.value;
    assert At(end, api, name, GetConfig(instance));
    var cfg := api.GetConfig();
    if !cfg.Found? {
      return true;
    }
    var proceed, evidence;
    proceed, err, evidence := ReconcileNamespace(api, name, instance, cfg.value, end);
    if proceed {
      err := ReconcileFinalizer(api, name, instance, evidence);
    }
  }

  /** The middle part of `Reconcile`: get the namespace, create it, update its labels or reject the profile. */
  method ReconcileNamespace(api: ApiServer, name: Api.Name, instance: Api.Profile, defaults: Labels,
                            ghost end: (Api.Store, Sequel))
      returns (proceed: bool, err: bool, evidence: Api.Evidence)
    requires At(end, api, name, GetNs(instance, defaults))
    modifies api
    ensures proceed ==> AtFinalizer(end, api, name, instance, evidence)
    ensures !proceed ==> end.0 == api.Content() && !end.1.Continue? && (err <==> end.1 == Retry)
  {
    proceed, err, evidence := false, false, Api.MadeNamespace(0);
    var found := api.GetNamespace(name);
    if found.Error? {
      err := true;
    } else if found.NotFound? {
      assert At(end, api, name, CreateNs(instance, defaults));
      proceed, err, evidence := MakeNamespace(api, name, instance, defaults, end);
    } else {
      proceed, err := UseNamespace(api, name, instance, defaults, found.value, end);
      evidence := Api.SawNamespace(found.value);
    }
  }

  /** The namespace is there: an owner's has its labels brought up to date, another's rejects the profile. */
  method UseNamespace(api: ApiServer, name: Api.Name, instance: Api.Profile, defaults: Labels, foundNs: Api.Namespace,
                      ghost end: (Api.Store, Sequel))
      returns (proceed: bool, err: bool)
    requires !Api.OwnedBy(foundNs, instance.owner) ==> At(end, api, name, Reject(instance, false))
    requires Api.OwnedBy(foundNs, instance.owner) && !Settled(foundNs.labels, defaults) ==>
               At(end, api, name, UpdateNs(instance, defaults, foundNs))
    requires Api.OwnedBy(foundNs, instance.owner) && Settled(foundNs.labels, defaults) ==>
               AtFinalizer(end, api, name, instance, Api.SawNamespace(foundNs))
    modifies api
    ensures proceed ==> AtFinalizer(end, api, name, instance, Api.SawNamespace(foundNs))
    ensures !proceed ==> end.0 == api.Content() && !end.1.Continue? && (err <==> end.1 == Retry)
  {
    err := false;
    if Api.OWNER in foundNs.annotations && foundNs.annotations[Api.OWNER] == instance.owner {
      var oldLabels := foundNs.labels;
      var held := new NamespaceObject(Some(foundNs.labels));
      SetNamespaceLabels(held, defaults);
      if oldLabels != held.labels.value {
        err := api.UpdateNamespace(name, Api.NsController(instance, defaults), foundNs.(labels := held.labels.value));
      }
      proceed := !err;
    } else {
      proceed := false;
      err := AppendErrorConditionAndReturn(api, name, instance, false);
    }
  }

  method MakeNamespace(api: ApiServer, name: Api.Name, instance: Api.Profile, defaults: Labels,
                       ghost end: (Api.Store, Sequel))
      returns (proceed: bool, err: bool, evidence: Api.Evidence)
    requires At(end, api, name, CreateNs(instance, defaults))
    modifies api
    ensures proceed ==> AtFinalizer(end, api, name, instance, evidence)
    ensures !proceed ==> end.0 == api.Content() && !end.1.Continue? && (err <==> end.1 == Retry)
  {
    evidence := Api.MadeNamespace(|Get(api.nsLog, name, [])| + 1);
    var ns := new NamespaceObject(Some(map[ISTIO_INJECTION := "enabled"]));
    SetNamespaceLabels(ns, defaults);
    var wanted := Api.Namespace(0, map[Api.OWNER := instance.owner], ns.labels.value, true);
    err := api.CreateNamespace(name, Api.NsController(instance, defaults), wanted);
    if err {
      return false, true, evidence;
    }
    assert At(end, api, name, AwaitNs(instance, evidence, MAX_WAIT_RETRIES));
    proceed := AwaitNamespace(api, name, instance, evidence, end);
    if !proceed {
      err := AppendErrorConditionAndReturn(api, name, instance, true);
    }
  }

  /** Reads the namespace until it is there, with a bounded number of retries. */
  method AwaitNamespace(api: ApiServer, name: Api.Name, instance: Api.Profile, ev: Api.Evidence,
                        ghost end: (Api.Store, Sequel))
      returns (seen: bool)
    requires At(end, api, name, AwaitNs(instance, ev, MAX_WAIT_RETRIES))
    modifies api`faults
    ensures !seen ==> At(end, api, name, Reject(instance, true))
    ensures seen ==> AtFinalizer(end, api, name, instance, ev)
  {
    var left := MAX_WAIT_RETRIES;
    while true
      invariant At(end, api, name, AwaitNs(instance, ev, left))
      decreases left
    {
      var r := api.GetNamespace(name);
      if r.Found? {
        return true;
      }
      if left == 0 {
        return false;
      }
      left := left - 1;
    }
  }
}
