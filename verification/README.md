# Profile controller: a verified model

The Kubeflow profile controller turns `Profile` objects into namespaces. This project models its reconcile loop as it
runs against a Kubernetes API server, together with the components that grant cloud identities, access rights and extra
resources to a profile's namespace, and proves what they promise.

`dafny verify dfyconfig.toml` checks the whole project.

## How the model is laid out

- `StringLists`, `NamespaceLabels`: the list helpers and `setNamespaceLabels`, with the closed form of what a history of
  configurations does to a label.
- `ApiStore`: profiles, namespaces and the one config, with the write history of every name.
- `ReconcileSteps`: `Reconcile` cut at its API calls, one frame per call. `Reconciler` has the same code as it is
  written, reads and writes against a mutable server, and proves each method equal to the step machine.
- `Cluster`: the running system. Steps are: a worker takes a key, the reconcile in flight makes its next call (which
  succeeds, fails, or commits and reports an error), a watch event arrives, also one of the other kinds of objects a
  profile owns, somebody else edits a profile, a namespace or the config, the controller restarts.
- `Locality`: the cluster is exactly the product of its per-name slices. `Isolation`, `Safety`, `Convergence`,
  `Termination`, `CrashRestart`, `EventualState`, `LabelRuns` and `WriteBounds` prove the properties of runs on top of that;
  `Scenarios` builds the runs that show where a property ends.
- `Grants`: a set of trusted identities under a log of grants and revocations. `TrustPolicy` (AWS) and
  `WorkloadIdentity` (GCP) both refine it; `Identities` has the string formats.
- `AccessControl`, `Plugins`, `ExtraResources`: the service account, role binding and quota helpers, the plugin list,
  and the extra resources.

The plugin, access control and extra-resource functions are live code whose calls inside `Reconcile` are commented out
(`controllers/kubeflow.org/profile_controller.go:223-384`). They are modelled as components, not as steps of `Reconcile`.

## What is assumed of the API

- The resource version of an object is its position in the write history of its name, so no version is ever reused.
- An update commits only if the version that was read is still current. An update that changes nothing is no commit and
  starts no event. A create fails if the name exists.
- A profile that is being deleted disappears with its last finalizer. A deletion once requested stays requested.
- Reads of the controller are answered from informer caches. A cache trails the server by the events of a name that are
  not yet delivered; profile, namespace and config events may overtake one another, events of one object do not.
- Delivering an event queues keys as wired in `SetupWithManager`: a profile event its own name, a namespace event the
  name of its controller reference before or after the change, a config event every cached profile. The other kinds of
  owned objects have no state here; their events may queue a name at any time.
- A reconcile that returns an error is queued again. At most one reconcile per key is in flight.
- A restart forgets queue, flights and caches, lists everything afresh and queues every profile and every name whose
  namespace is controlled.

## What the proofs brought to light

- A profile being deleted still goes through the ownership check. Left alone, the controller takes its finalizer off
  exactly when the namespace of its name is missing or names its owner (`EventualState.DeletionCompletesIff`); the
  namespace of somebody else holds the deletion up (`Scenarios.DeletionHeldUp`), unless a reconcile that had seen it
  owned is still in flight: only the version of the profile is checked (`Scenarios.StaleRemovalReleases`).
- The rejection of a profile is written through the main endpoint, but the CRD has a status subresource
  (`config/crd/bases/kubeflow.org_profiles.yaml:479-480`), so the failed condition is never stored. Without the
  subresource it would be stored, and its own event would start the next reconcile, for ever
  (`Termination.RejectionIsRecordedOrEnds`, `Scenarios.RejectedForEver`).
- The controller is not told of changes to namespaces without its controller reference
  (`Convergence.UnwatchedEdit`). Quiescence implies convergence at a name only as long as others treat such a namespace
  of that name with care; `Scenarios.Stranded` is a run in which they do not. A restart makes up for it,
  if the namespace is controlled or names no owner by then (`Convergence.RestartHeals`).
- A namespace that was just created is read through the cache, up to six times, and the profile is rejected exactly if
  none of these reads is answered while the cache has it (`Scenarios.WaitRejectsIff`). If the event of the creation is
  late, that happens although the namespace exists; the event starts the next attempt
  (`Scenarios.WaitOutrunByTheCache`).
- At an accepted profile, a newly deployed value of a label comes into force exactly if the namespace lacks the label, or
  has that value already, when the reconcile then in flight is over (`LabelRuns.OverrideIff`). Two deployments with no step of the controller at that
  profile in between leave the label as it was (`LabelRuns.OverrideWithoutTimeBetween`).
- A template of an extra resource that does not end its last line runs into the separator that follows it. What the
  parser is given is then not what it would have been given template by template: documents fuse, or the splitting
  fails. Among templates that can all be split by themselves, the one exception is a last line that is itself a
  separator with a comment (`ExtraResources.JoinThenSplitIff`).
- Variables of an extra resource that are left out, or are JSON but no object, make the program panic, provided that the
  file of the template can be parsed and all templates before it render (`ExtraResources.PanicsIff`).
- `GetProjectID` crashes on account names shorter than the required suffix, the empty one included, and cuts a project
  off at its first dot (`Identities.RepliesOfGetProjectID`, `Identities.DottedProjectIsCut`).
- A trust policy without a list of statements stops the program (`TrustPolicy.CrashIff`). One that is no JSON object
  makes the addition ask for an empty policy, which the client refuses.

## Model

| member | source | states |
|---|---|---|
| StringLists.ContainsString | controllers/kubeflow.org/profile_controller.go:1017-1024 | finds a string iff it is in the list |
| StringLists.RemoveString | controllers/kubeflow.org/profile_controller.go:1026-1034 | the list without any occurrence, order kept |
| StringLists.AppendThenRemove | controllers/kubeflow.org/profile_controller.go:391-412 | removing the finalizer after adding it restores the list iff it was absent before |
| StringLists.RemoveTwice | controllers/kubeflow.org/profile_controller.go:1026-1034 | a second removal changes nothing |
| StringLists.RemovalsCommute | controllers/kubeflow.org/profile_controller.go:1026-1034 | removals commute, so each leaves everything else as it was |
| NamespaceLabels.SetNamespaceLabels | controllers/kubeflow.org/profile_controller.go:1036-1055 | the in-place loop ends in one map whatever order the defaults are visited in, nil labels included |
| NamespaceLabels.OrderIrrelevant | controllers/kubeflow.org/profile_controller.go:1041-1054 | every concrete enumeration of the defaults, even with repetitions, ends in the same map |
| NamespaceLabels.SettleIsIdempotent | controllers/kubeflow.org/profile_controller.go:1036-1055 | a second pass under the same defaults changes nothing |
| NamespaceLabels.SettledIff | controllers/kubeflow.org/profile_controller.go:198-204 | no write is needed iff every empty default is absent and every other one present |
| NamespaceLabels.HistoryOfAKey | controllers/kubeflow.org/profile_controller.go:1036-1055 | after any sequence of configs a key has the first value offered since it was last cleared; if never cleared, an original value wins |
| NamespaceLabels.OverrideTakesTwoDeployments | controllers/kubeflow.org/profile_controller.go:1036-1055 | of the configs a namespace is reconciled under: one that clears a key and then one that sets it put the new value in force, whatever came before, between (if silent on the key) or after (if it does not clear it); for deployments see LabelRuns.OverrideIff |
| NamespaceLabels.OverrideNeedsAClear | config/base/namespace-labels.yaml:9-13 | under any sequence of reconciled configs, a label changes only after one that cleared its key |
| ReconcileSteps.CreatedNamespaceNeedsNoUpdate | controllers/kubeflow.org/profile_controller.go:148-158 | a namespace as created is owned and already a fixpoint of the update path; its injection is enabled unless the config clears the label |
| ReconcileSteps.CallErrsIff | controllers/kubeflow.org/profile_controller.go:126-219 | a call ends the reconcile with an error iff it fails, is refused, or finds no config; only the reads of the wait may fail |
| ReconcileSteps.ErrsIff | controllers/kubeflow.org/profile_controller.go:119-546 | a reconcile returns an error iff one of its calls does not go well, the update of a rejection included |
| ReconcileSteps.MessagesTell | controllers/kubeflow.org/profile_controller.go:186-218 | the messages tell the two rejections apart and name the owner turned away |
| Cluster.FailedCallsAreQueued | controllers/kubeflow.org/profile_controller.go:548-559 | the key is queued by a call iff the call does not go well, and its reconcile is then over |
| Cluster.OwnedEventsAreQueued | controllers/kubeflow.org/profile_controller.go:582-596 | events of the other owned kinds queue their name and do nothing else |
| Cluster.ReadsFollowTheCaches | controllers/kubeflow.org/profile_controller.go:126-166 | a reconcile goes by the profile, config and namespace the caches hold |
| Cluster.RestartQueues | controllers/kubeflow.org/profile_controller.go:582-600 | a restart queues every profile and every name with a controlled namespace |
| Reconciler.ApiServer.UpdateProfile | controllers/kubeflow.org/profile_controller.go:555-555 | one update request: refused or lost requests leave the server alone, a lost reply commits and reports an error |
| Reconciler.Reconcile | controllers/kubeflow.org/profile_controller.go:119-546 | for every store and every script of call outcomes, the imperative code leaves the server as the step machine does, and returns an error iff the machine asks for a retry, which is iff one of its calls does not go well |
| Reconciler.ReconcileNamespace | controllers/kubeflow.org/profile_controller.go:165-219 | get, create, update or reject: goes on to the finalizer exactly where the step machine does |
| Reconciler.UseNamespace | controllers/kubeflow.org/profile_controller.go:190-219 | an owned namespace is brought up to date with a write only if labels differ, another one rejects the profile |
| Reconciler.MakeNamespace | controllers/kubeflow.org/profile_controller.go:148-187 | creates the owned and labelled namespace and waits for it |
| Reconciler.AwaitNamespace | controllers/kubeflow.org/profile_controller.go:176-187 | one read and five retries, then gives up |
| Reconciler.ReconcileFinalizer | controllers/kubeflow.org/profile_controller.go:386-421 | adds or removes the finalizer as the deletion state asks, as the step machine does |
| Reconciler.AppendErrorConditionAndReturn | controllers/kubeflow.org/profile_controller.go:549-559 | appends the failed condition to the profile in hand; returns an error iff that update fails, is refused or loses its reply |
| Locality.NextAt | controllers/kubeflow.org/profile_controller.go:561-601 | a step of the whole system is the local step on the slice of its name and nothing on any other, events wired as in the manager setup |
| Isolation.Elsewhere | controllers/kubeflow.org/profile_controller.go:119-219 | a step on one name leaves objects, history, caches, queue entry and flight of every other name alone |
| Isolation.NonInterference | controllers/kubeflow.org/profile_controller.go:119-219 | what a step does at a name is decided by what is there, whatever else the cluster holds |
| Isolation.OwnStepsDecide | controllers/kubeflow.org/profile_controller.go:119-421 | a run leaves at a name what its own steps alone would have left, even in another cluster |
| Isolation.RunProjects | controllers/kubeflow.org/profile_controller.go:119-421 | what a run leaves at a name is computed from the slice of the name and its own steps |
| Isolation.StepsCommute | controllers/kubeflow.org/profile_controller.go:119-421 | steps of different names commute |
| Isolation.InterleavingIrrelevant | controllers/kubeflow.org/profile_controller.go:119-421 | runs in which every name sees the same steps end in the same system, however interleaved |
| Isolation.EveryRunIsSerial | controllers/kubeflow.org/profile_controller.go:119-421 | every run reaches what one profile after the other reaches, piece by piece between config changes, config events and restarts |
| Safety.RunSound | controllers/kubeflow.org/profile_controller.go:119-421 | every run keeps each name's history sound: who wrote what over what, and with what right |
| Safety.StepSound | controllers/kubeflow.org/profile_controller.go:119-421 | every step of every actor keeps that invariant |
| Safety.OwnershipSafety | controllers/kubeflow.org/profile_controller.go:165-219 | over all runs the controller only ever creates a namespace where there was none, or updates a version whose stored owner is the owner of the profile it read; annotations, foreign labels and existing values stay |
| Safety.HistoryIsComplete | controllers/kubeflow.org/profile_controller.go:165-219 | what is stored is the last committed version, so the history has every write |
| Safety.FinalizerLifecycle | controllers/kubeflow.org/profile_controller.go:386-421 | the finalizer is added only to a live profile whose reconcile made the namespace or saw it owned, removed only from a profile being deleted; other finalizers keep content and order |
| Safety.RegistersAtMostOnce | controllers/kubeflow.org/profile_controller.go:387-398 | two registrations are separated by somebody else's write that took the finalizer away |
| Convergence.StepLive | controllers/kubeflow.org/profile_controller.go:561-601 | every profile stays queued, in flight, about to be woken, or settled |
| Convergence.StepTrails | controllers/kubeflow.org/profile_controller.go:561-601 | the caches are behind the server by exactly the events under way, after every step of every actor |
| Convergence.QuiescenceImpliesConvergence | controllers/kubeflow.org/profile_controller.go:119-421 | after any run with stale caches, faults and restarts, a name that is idle is settled: rejected, or owned with labels at the fixpoint and the finalizer matching the deletion state; only what others do at that name matters |
| Convergence.RestartHeals | controllers/kubeflow.org/profile_controller.go:119-421 | the same after any past whatsoever, from a restart on at which the stored namespace is controlled or names no owner |
| Convergence.UnwatchedEdit | controllers/kubeflow.org/profile_controller.go:582-601 | a change to a namespace without controller reference wakes nobody, so whether the idle profile is still settled depends on the new namespace alone |
| Termination.StepWorks | controllers/kubeflow.org/profile_controller.go:119-421 | without a stale reconcile, every undisturbed step lowers the remaining work, and every write it makes was due |
| Termination.StepEndures | controllers/kubeflow.org/profile_controller.go:119-421 | with a stale reconcile in flight too, every undisturbed step lowers the effort left and stays within the budget of writes |
| Termination.QuietStepWorks | controllers/kubeflow.org/profile_controller.go:119-421 | the same for the whole cluster: total effort strictly falls |
| Termination.QuietRunsEnd | controllers/kubeflow.org/profile_controller.go:119-421 | undisturbed runs of the whole cluster are bounded by an explicit measure |
| Termination.QuietRunWrites | controllers/kubeflow.org/profile_controller.go:165-211 | whatever goes on at other names: over a run undisturbed at one name, the steps made there are bounded by the effort, the writes are within budget, and exactly those that were due if no stale reconcile was in flight |
| Termination.TheControllerStops | controllers/kubeflow.org/profile_controller.go:561-601 | left alone as a whole, the controller's runs are bounded, and one of them ends with nothing left to do at any name |
| Termination.StuckMeansIdle | controllers/kubeflow.org/profile_controller.go:561-601 | the controller never stops with work left for a name |
| Termination.LeftAloneConverges | controllers/kubeflow.org/profile_controller.go:119-421 | from every reachable state with a config, whatever is in flight and whatever goes on at other names: left alone at a name the controller makes a bounded number of steps there, commits the profile at most once and the namespace at most twice (without a stale reconcile: exactly the writes due, one each at most), and the name, if tame, is settled |
| Termination.SettledStaysUntouched | controllers/kubeflow.org/profile_controller.go:198-211 | further reconciles of a settled profile write nothing |
| Termination.RejectionIsRecordedOrEnds | controllers/kubeflow.org/profile_controller.go:549-559 | the rejection is stored, and starts the next reconcile, iff the status is not a subresource |
| Scenarios.RejectedForEver | controllers/kubeflow.org/profile_controller.go:549-559 | without the subresource, a rejected profile goes round again and again with nobody else around: for every number of rounds there is a run with that many more stored rejections |
| Scenarios.RestlessIsReached | controllers/kubeflow.org/profile_controller.go:549-559 | a run from the empty cluster into that state |
| Termination.ForeignNamespaceBlocksDeletion | controllers/kubeflow.org/profile_controller.go:190-219 | with no stale reconcile in flight, a namespace of another owner leaves profile and namespace as they are, however long the controller runs |
| EventualState.DeletionCompletesIff | controllers/kubeflow.org/profile_controller.go:386-421 | left alone, a profile being deleted is released iff, when the reconcile in flight is over, its namespace is missing or names its owner |
| Scenarios.DeletionHeldUp | controllers/kubeflow.org/profile_controller.go:190-219 | a run from the empty cluster after which the deletion is held up for good |
| Scenarios.StaleRemovalReleases | controllers/kubeflow.org/profile_controller.go:405-417 | a run after which a reconcile in flight still removes the finalizer although the namespace is somebody else's by now |
| Scenarios.Stranded | controllers/kubeflow.org/profile_controller.go:582-601 | a run that leaves a rejected profile settled, and then stranded by the deletion of the namespace in its way |
| Scenarios.WaitRejectsIff | controllers/kubeflow.org/profile_controller.go:176-187 | with its six reads among any steps of anybody, the wait for a new namespace ends in the rejection of the profile iff none of them was answered while the cache had the namespace |
| Scenarios.WaitOutrunByTheCache | controllers/kubeflow.org/profile_controller.go:176-187 | if the event of a creation is late, the profile is rejected although its namespace is there, and the event then queues it |
| Scenarios.AboutToCreateIsReached | controllers/kubeflow.org/profile_controller.go:148-175 | a run from the empty cluster to that creation |
| CrashRestart.CallKeepsGoal | controllers/kubeflow.org/profile_controller.go:142-421 | no call, whether it succeeds, fails or loses its reply, changes what the reconcile is heading for |
| CrashRestart.DriveKeepsGoal | controllers/kubeflow.org/profile_controller.go:142-421 | the same for a whole reconcile, which reaches its goal if it completes |
| CrashRestart.DriveCompletes | controllers/kubeflow.org/profile_controller.go:119-421 | without faults a reconcile completes |
| CrashRestart.CutAndRestartedIsUninterrupted | controllers/kubeflow.org/profile_controller.go:142-421 | any number of cut reconciles and one that completes leave what a single uninterrupted one leaves, and nothing at other names |
| CrashRestart.WaitGivesUp | controllers/kubeflow.org/profile_controller.go:176-187 | the wait rejects the profile when the first read and all retries fail |
| CrashRestart.WaitSucceeds | controllers/kubeflow.org/profile_controller.go:176-187 | the first read that succeeds leads on to the finalizer |
| EventualState.LeftAloneIsOneReconcile | controllers/kubeflow.org/profile_controller.go:119-601 | from every reachable state the concurrent system, left alone at a tame name, ends there in what one sequential reconcile would have left, begun where the one in flight ends |
| LabelRuns.StoredLabelsAreTheHistory | controllers/kubeflow.org/profile_controller.go:198-211 | in every run, a namespace only the controller has written since its creation has the labels that the defaults of the controller's own commits leave in turn |
| LabelRuns.OverrideIff | config/base/namespace-labels.yaml:9-13 | in the running system, a deployed value of a label comes into force at an accepted profile iff the namespace lacks the label, or has that value, when the reconcile then in flight is over |
| LabelRuns.OverrideWithTimeBetween | config/base/namespace-labels.yaml:9-13 | so the two deployments of the override work if the controller is left alone at the name in between, however busy elsewhere |
| LabelRuns.OverrideWithoutTimeBetween | config/base/namespace-labels.yaml:9-13 | and do nothing if no step of the name comes in between: the label keeps its old value for good |
| WriteBounds.NamespaceWritesAreBounded | controllers/kubeflow.org/profile_controller.go:198-211 | in every run, with faults, stale caches and restarts, the controller writes a namespace at most once per change of the config and twice per write or deletion of somebody else |
| WriteBounds.WritesWithoutEdits | controllers/kubeflow.org/profile_controller.go:198-211 | from every reachable state, runs without such changes write it at most as often as config events are under way, plus one, or two with a reconcile in flight |
| WriteBounds.FinalizerWritesAreBounded | controllers/kubeflow.org/profile_controller.go:386-421 | in every run the controller writes the finalizer at most once per profile write of somebody else, and from any reachable state at most once more than others write |
| Grants.LastOperationWins | controllers/kubeflow.org/profile_controller.go:92-97 | an identity is trusted as its last operation says, or as initially if there is none |
| Grants.ListRefinesSet | controllers/kubeflow.org/plugin_iam.go:155-169 | the list of identities has exactly the members of the abstract set after any log |
| Grants.SurvivorsComeFirst | controllers/kubeflow.org/plugin_iam.go:155-169 | identities never revoked keep their order, in front of all later ones |
| Grants.SurvivorsAreTheUnrevoked | controllers/kubeflow.org/plugin_iam.go:207-215 | a survivor is an original identity the log never revokes |
| Grants.ListStaysDistinct | controllers/kubeflow.org/plugin_iam.go:155-169 | a list without duplicates stays one |
| Identities.IssuerInvertsProviderArn | controllers/kubeflow.org/plugin_iam.go:244-247 | recovers the issuer, slashes included, iff the part before it has no slash |
| Identities.RoleNameInvertsRoleArn | controllers/kubeflow.org/plugin_iam.go:249-251 | recovers the role name under any path iff the name has no slash |
| Identities.WithoutSlashWhole | controllers/kubeflow.org/plugin_iam.go:244-251 | both parsers hand back an ARN without a slash as it is |
| Identities.IdentityExamples | controllers/kubeflow.org/plugin_workload_identity.go:120-124 | the identities of both clouds, written out |
| Identities.SubjectsAreDistinct | controllers/kubeflow.org/plugin_iam.go:24-24 | subjects are injective in namespace and service account |
| Identities.MembersAreDistinct | controllers/kubeflow.org/plugin_workload_identity.go:120-124 | members are injective in project, namespace and service account |
| Identities.RepliesOfGetProjectID | controllers/kubeflow.org/plugin_workload_identity.go:55-66 | for every account name exactly when it crashes, is no account, has no project or has one, and that it is the text after the first '@' that has a dot on its line, up to that dot |
| Identities.EmptyAccountCrashes | controllers/kubeflow.org/plugin_workload_identity.go:55-60 | the empty account crashes the program |
| Identities.NoProjectIffNoAt | controllers/kubeflow.org/plugin_workload_identity.go:55-66 | past the suffix check, on a name without line breaks, no project is found iff there is no '@' |
| Identities.ProjectIsRecovered | controllers/kubeflow.org/plugin_workload_identity.go:55-66 | the project of name@project.iam.gserviceaccount.com is recovered iff it has neither dot nor line break |
| Identities.DottedProjectIsCut | controllers/kubeflow.org/plugin_workload_identity.go:55-66 | a project with a dot is cut off there |
| TrustPolicy.AddServiceAccount | controllers/kubeflow.org/plugin_iam.go:128-182 | for every text: the document that trusts the account as well, or that it is trusted already, or that the text is no object, or a crash for want of a first statement |
| TrustPolicy.AddIdentity | controllers/kubeflow.org/plugin_iam.go:128-182 | the decoding, scan and rebuild equal the abstract addition |
| TrustPolicy.RemoveServiceAccount | controllers/kubeflow.org/plugin_iam.go:184-242 | for every text: the document that trusts everybody but the account, or a crash for want of a first statement |
| TrustPolicy.RemoveIdentity | controllers/kubeflow.org/plugin_iam.go:184-242 | the filter and rebuild equal the abstract removal, with the subject key gone when nobody is left |
| TrustPolicy.CrashIff | controllers/kubeflow.org/plugin_iam.go:140-150 | exactly on which texts the rewriters stop the program |
| TrustPolicy.CrashExamples | controllers/kubeflow.org/plugin_iam.go:128-203 | no JSON at all, an empty object, and a single statement outside a list |
| TrustPolicy.IamRole.UpdatePolicy | vendor/github.com/aws/aws-sdk-go/service/iam/api.go:38357-38376 | an empty document is refused by the client, any other is stored unless the request fails |
| TrustPolicy.IamRole.Trust | controllers/kubeflow.org/plugin_iam.go:67-106 | the role trusts the account afterwards and is not written at all if it did before; the error of decoding is swallowed, and the refusal of the empty document takes its place |
| TrustPolicy.IamRole.Distrust | controllers/kubeflow.org/plugin_iam.go:67-106 | the role no longer trusts the account, with one write, unless the request fails or there is no first statement |
| TrustPolicy.Execute | controllers/kubeflow.org/plugin_iam.go:67-106 | a log executed on the role, with requests failing or losing their reply, leaves the document of the operations whose request did not fail |
| TrustPolicy.ReadsForeign | controllers/kubeflow.org/plugin_iam.go:140-166 | from a document somebody else has written: a list of subjects yields its elements in order, a single subject itself, a null or missing key nothing |
| TrustPolicy.ReadsProvider | controllers/kubeflow.org/plugin_iam.go:140-142 | the provider of such a document, a text as it is and other values as printed |
| TrustPolicy.SingleSubjectSurvives | controllers/kubeflow.org/plugin_iam.go:153-182 | an addition keeps the identity of a single subject, and a removal takes that one off |
| TrustPolicy.DocumentWrittenOut | controllers/kubeflow.org/plugin_iam.go:254-271 | the document of a provider and its identities, written out |
| TrustPolicy.ReadsBack | controllers/kubeflow.org/plugin_iam.go:254-271 | every document written is read again as the same provider, key and identities |
| TrustPolicy.RewritersReadBack | controllers/kubeflow.org/plugin_iam.go:128-242 | the rewriters act on what is read as the list operations do, keeping the provider |
| TrustPolicy.DocumentRefinesTrust | controllers/kubeflow.org/plugin_iam.go:128-242 | over any log the document stays readable, refines list and set of trusted identities, keeps the order of survivors and stays free of duplicates |
| TrustPolicy.TrustedIffLastGranted | controllers/kubeflow.org/plugin_iam.go:128-242 | an identity is trusted iff its last operation was a grant, or it has none and was trusted |
| TrustPolicy.AnswersFollowTheLog | controllers/kubeflow.org/plugin_iam.go:89-95 | after any log, the answer of either rewriter is the next document of that log, or that nothing is to be written |
| TrustPolicy.AddThenRemove | controllers/kubeflow.org/plugin_iam.go:128-242 | adding and removing normalises any readable document iff the identity was not trusted before |
| TrustPolicy.RoundTripOnCanonical | controllers/kubeflow.org/plugin_iam.go:128-242 | on canonical documents adding and removing is the identity iff it was not trusted before |
| TrustPolicy.RewritesAreCanonical | controllers/kubeflow.org/plugin_iam.go:218-242 | what the rewriters write is canonical, so only a first pass can lose anything |
| TrustPolicy.RepeatingChangesNothing | controllers/kubeflow.org/plugin_iam.go:89-95 | a repeated addition or removal changes nothing |
| TrustPolicy.RevocationIsIsolated | controllers/kubeflow.org/plugin_iam.go:207-215 | revoking one namespace's account never touches another's |
| WorkloadIdentity.Policy.AddBinding | controllers/kubeflow.org/plugin_workload_identity.go:135-144 | appends a fresh binding for the member and changes no existing one |
| WorkloadIdentity.Policy.RevokeBinding | controllers/kubeflow.org/plugin_workload_identity.go:146-154 | takes the member out of every binding of the role through the pointers, shared ones included, and touches no other |
| WorkloadIdentity.RowsOfOneOperation | controllers/kubeflow.org/plugin_workload_identity.go:135-154 | a grant puts one binding of the role behind all others; a revocation changes members of bindings of the role and nothing else |
| WorkloadIdentity.Execute | controllers/kubeflow.org/plugin_workload_identity.go:135-154 | a log executed on the heap of bindings, shared pointers included, leaves exactly the rows the log leaves, the old pointers in front |
| WorkloadIdentity.BindingsRefineTrust | controllers/kubeflow.org/plugin_workload_identity.go:135-154 | over any log the rows refine the trusted set, grow only by the grants, and keep those of other roles |
| WorkloadIdentity.BoundIffLastGranted | controllers/kubeflow.org/plugin_workload_identity.go:135-154 | a member is bound iff its last operation was a grant, or it has none and was bound |
| WorkloadIdentity.OneRevocationSuffices | controllers/kubeflow.org/plugin_workload_identity.go:146-154 | one revocation cancels any number of grants |
| WorkloadIdentity.RevocationIsIsolated | controllers/kubeflow.org/plugin_workload_identity.go:120-154 | revoking never removes another namespace's or project's member |
| WorkloadIdentity.CloudsAgree | controllers/kubeflow.org/plugin_workload_identity.go:135-154 | from the same trusted set, the AWS list and the GCP bindings trust the same identities after any log |
| AccessControl.Api.UpdateRoleBinding | controllers/kubeflow.org/profile_controller.go:923-954 | an existing binding gets role and subjects and keeps everything else, a missing one is created; which calls commit and when an error is reported is exact; if nothing differs, nothing is written |
| AccessControl.Api.EnsureAccount | controllers/kubeflow.org/profile_controller.go:883-897 | a missing account is created, one that exists is left alone, with exact errors |
| AccessControl.Api.UpdateServiceAccount | controllers/kubeflow.org/profile_controller.go:871-921 | on success the account exists, with the annotation of its role if it is new, and is bound to the cluster role as the only subject; an existing account is untouched, an existing binding keeps everything else; errors are exact |
| AccessControl.Api.UpdateResourceQuota | controllers/kubeflow.org/profile_controller.go:814-844 | an existing quota gets its spec and keeps everything else, a missing one is created; errors and writes are exact |
| AccessControl.Api.UpdateServiceAccountUntilDone | controllers/kubeflow.org/profile_controller.go:871-954 | repeated until it succeeds, however many attempts fail at whatever call: account and binding as one success leaves them, nothing else changed, and each written exactly once if that was needed, otherwise not at all |
| AccessControl.Api.UpdateResourceQuotaUntilDone | controllers/kubeflow.org/profile_controller.go:814-844 | the same for the quota |
| Plugins.ProfileObject.PatchDefaultPluginSpec | controllers/kubeflow.org/profile_controller.go:992-1015 | appends the default plugin iff an identity is configured and the kind is missing, and writes the profile in any case |
| Plugins.GetPluginSpec | controllers/kubeflow.org/profile_controller.go:957-989 | the recognised plugins in order, or the failure of one of them |
| Plugins.PatchedIff | controllers/kubeflow.org/profile_controller.go:1000-1010 | patching changes the list iff an identity is configured and the kind is missing, by one entry of that kind |
| Plugins.DefaultCarriesIdentity | controllers/kubeflow.org/profile_controller.go:1000-1010 | the default entry decodes to the configured identity |
| Plugins.DecodedOne | controllers/kubeflow.org/profile_controller.go:961-986 | what each kind of entry decodes to, and that other kinds are passed over |
| Plugins.PatchingIsIdempotent | controllers/kubeflow.org/profile_controller.go:992-1015 | patching only appends, and a second time changes nothing |
| Plugins.DecodingKeepsOrder | controllers/kubeflow.org/profile_controller.go:957-989 | decoding succeeds iff every recognised entry decodes, and keeps them one for one in order |
| Plugins.PatchedListHasWorkloadIdentity | controllers/kubeflow.org/profile_controller.go:957-1015 | with a default identity, a patched list that decodes has a workload identity plugin |
| ExtraResources.SplitYaml | controllers/kubeflow.org/resource_reconciler.go:77-99 | the decoder loop yields the objects of the documents, empty ones skipped, up to the first malformed document or broken separator |
| ExtraResources.ReadsDocuments | vendor/k8s.io/apimachinery/pkg/util/yaml/decoder.go:305-350 | the reader hands out the documents between separators, commented ones included, and fails iff some line is a broken separator |
| ExtraResources.ReadStops | vendor/k8s.io/apimachinery/pkg/util/yaml/decoder.go:305-350 | at the first broken separator all documents but the one it interrupts have been handed out |
| ExtraResources.BlanksMayFollow | vendor/k8s.io/apimachinery/pkg/util/yaml/decoder.go:322-328 | white space may follow a separator |
| ExtraResources.ObjectsIff | controllers/kubeflow.org/resource_reconciler.go:77-99 | a text is accepted iff no separator is broken and no document malformed; its objects are then those of the documents that hold one, one for one in order |
| ExtraResources.ScanStops | controllers/kubeflow.org/resource_reconciler.go:77-99 | at the first malformed document the split ends with the objects in front of it |
| ExtraResources.RendersIff | controllers/kubeflow.org/resource_reconciler.go:25-49 | a template renders iff its file can be parsed and it executes on its variables with the profile's name put in as Namespace, nothing else changed |
| ExtraResources.RenderedIff | controllers/kubeflow.org/resource_reconciler.go:22-50 | all templates render iff each does, with its own text in its place |
| ExtraResources.RenderAll | controllers/kubeflow.org/resource_reconciler.go:22-50 | the templates rendered into one buffer, in order, or how the first that does not render ends |
| ExtraResources.DeserializeExtraResources | controllers/kubeflow.org/resource_reconciler.go:22-52 | all templates render and all documents parse, or nothing is handed back |
| ExtraResources.PanicsIff | controllers/kubeflow.org/resource_reconciler.go:34-45 | the program stops iff some template has a file that can be parsed and variables that are no object, and all templates before it render |
| ExtraResources.LeftOutVariablesPanic | controllers/kubeflow.org/resource_reconciler.go:34-45 | one such template is enough |
| ExtraResources.Applier.ReconcileExtraResources | controllers/kubeflow.org/resource_reconciler.go:54-75 | nothing is applied unless everything renders and parses; then an in-order prefix in the profile's namespace, none of it another controller's; all of it, without an error, iff no object is another controller's and every request goes well |
| ExtraResources.Applier.Apply | controllers/kubeflow.org/resource_reconciler.go:62-71 | an object of another controller is refused; any other is applied unless the request fails, and an error reported iff it did not go well |
| ExtraResources.Applier.ApplyAll | controllers/kubeflow.org/resource_reconciler.go:61-74 | exactly when the loop goes through, and where it stops otherwise |
| ExtraResources.InNamespaceElements | controllers/kubeflow.org/resource_reconciler.go:61-62 | the objects applied are those split, one for one in order, each in the profile's namespace and otherwise unchanged |
| ExtraResources.JoinTwoIff | controllers/kubeflow.org/resource_reconciler.go:22-52 | two texts joined by the separator split as one after the other, for every parser that skips empty documents, iff the first ends its last line or leaves open a separator with a comment, or one of them fails by itself on a broken separator |
| ExtraResources.JoinThenSplit | controllers/kubeflow.org/resource_reconciler.go:22-99 | the joined buffer splits into the objects of each template in turn (section 9.2 of YAML 1.2.2), if every template but the last ends that way |
| ExtraResources.JoinThenSplitIff | controllers/kubeflow.org/resource_reconciler.go:22-99 | it does so for every parser that skips empty documents iff that is so, or some template fails by itself on a broken separator |
| ExtraResources.DeserializedInTurn | controllers/kubeflow.org/resource_reconciler.go:22-52 | for such templates, all extra resources are the objects of each template in turn, or an error if one of them cannot be split |
| ExtraResources.OpenLineSwallowsSeparator | controllers/kubeflow.org/resource_reconciler.go:30-32 | a template that leaves its last line open runs into the separator |
| ExtraResources.OpenLineExample | controllers/kubeflow.org/resource_reconciler.go:30-32 | two templates of one open line each become one document instead of two |
| ExtraResources.OpenDashesExample | controllers/kubeflow.org/resource_reconciler.go:30-32 | behind a template that ends in an open dash, nothing can be split any more |
| ExtraResources.OpenCommentExample | controllers/kubeflow.org/resource_reconciler.go:30-32 | an open separator with a comment does no harm |

## Left out

- Convergence.QuiescenceImpliesConvergence: at the name in question others keep an owner annotation only on a namespace
  with the controller's reference and delete only such a one; the periodic resync that would notice other changes is not
  modelled.
- Termination.LeftAloneConverges: assumes the status subresource the CRD declares, a config, and that from the moment
  the controller is left alone at a name no call made for it fails, no event of another owned kind arrives for it, and
  watch events reach the caches before the next call; otherwise reconciles may repeat, and `WriteBounds` says how often
  they write.
- EventualState.LeftAloneIsOneReconcile: the same assumptions.
- AccessControl.Api.UpdateRoleBinding: nobody else changes the objects between the calls of one update; a create or
  update refused because somebody did is a failed call. The server accepts a changed role reference, which a real one
  refuses. The same holds for AccessControl.Api.UpdateServiceAccount and AccessControl.Api.UpdateResourceQuota.
- ExtraResources.JoinThenSplit: an empty document is Nothing to the parser, and the buffer is YAML, not JSON. A
  separator with nothing in front of it is dropped, where the reader hands it on as the first line of the next document.
  ExtraResources.SplitYaml is subject to the same.
- TrustPolicy.AddIdentity: the raw text of a provider that is a list or an object is a parameter, and keys that occur
  twice in one object are not modelled. The same holds for TrustPolicy.RemoveIdentity.
- A namespace's controller reference is a flag; references to a profile of another name are not modelled. Neither are
  UIDs, namespace termination phases and garbage collection.
- The list of profiles behind a config event is assumed to succeed; the program drops the event if it fails.
- Setting the controller reference on a namespace not yet created cannot fail and is no step.
- Time: the wait for a namespace is counted in reads, and retries after errors have no back-off.
- JSON, YAML and template engines: documents are trees or lines, rendering and parsing of one document are parameters.
  A scalar subject reads as a list of one, an element that is no string as the empty string.
- AWS and GCP clients, sessions, credentials, URL decoding, and the annotation of service accounts by the plugins.
- The generated Istio, Kubeflow Pipelines and service account objects, and the Istio updaters.
- Reading default labels from a file, start-up and flags, metrics and logging.
