/**
 Default labels over whole runs of the cluster: what the history of a namespace
 says about its labels, and exactly when the documented override works.
 */
module LabelRuns {
  import opened Prelude
  import opened NamespaceLabels
  import opened ApiStore
  import opened ReconcileSteps
  import opened Cluster
  import opened Locality
  import opened Safety
  import opened Convergence
  import opened Termination
  import opened CrashRestart
  import opened EventualState

  // ---- the labels a history leaves ----------------------------------------

  /** The defaults of the controller's commits from `first` up to `end`, in their order. */
  function DefaultsOf(log: seq<NsCommit>, first: nat, end: nat): seq<Labels>
    requires end <= |log|
  {
    if end <= first then []
    else DefaultsOf(log, first, end - 1)
         + if log[end - 1].writer.NsController? then [log[end - 1].writer.defaults] else []
  }

  /** From the commit at `first` on, the namespace was the controller's alone. */
  predicate ControllersAlone(log: seq<NsCommit>, first: nat) {
    && first < |log|
    && log[first].writer.NsController? && log[first].before.None?
    && forall i :: first < i < |log| ==> log[i].writer.NsController? && log[i].before.Some?
  }

  lemma OneMoreSettle(labels: Labels, history: seq<Labels>, c: Labels)
    ensures AfterAll(labels, history + [c]) == Settle(AfterAll(labels, history), c)
  {
    assert (history + [c])[..|history|] == history;
  }

  /** A commit of the controller settles the version before it, or the labels every namespace starts from. */
  lemma LabelsOfACommit(o: Objects, m: nat)
    requires SoundHistory(o) && m < |o.nsLog| && o.nsLog[m].writer.NsController?
    ensures o.nsLog[m].before.Some? ==> m > 0
    ensures o.nsLog[m].after.labels ==
            Settle(if o.nsLog[m].before.None? then map[ISTIO_INJECTION := "enabled"] else o.nsLog[m - 1].after.labels,
                   o.nsLog[m].writer.defaults)
  {
    assert SoundNsCommit(o, m);
  }

  /** The same labels, settled commit by commit. */
  function SettledInTurn(start: Labels, log: seq<NsCommit>, first: nat, end: nat): Labels
    requires end <= |log|
  {
    if end <= first then start
    else
      var labels := SettledInTurn(start, log, first, end - 1);
      if log[end - 1].writer.NsController? then Settle(labels, log[end - 1].writer.defaults) else labels
  }

  lemma {:induction false} InTurnIsAfterAll(start: Labels, log: seq<NsCommit>, first: nat, end: nat)
    requires end <= |log|
    ensures SettledInTurn(start, log, first, end) == AfterAll(start, DefaultsOf(log, first, end))
  {
    if end > first {
      var before := DefaultsOf(log, first, end - 1);
      InTurnIsAfterAll(start, log, first, end - 1);
      if log[end - 1].writer.NsController? {
        OneMoreSettle(start, before, log[end - 1].writer.defaults);
      } else {
        assert before + [] == before;
      }
    }
  }

  const FIRST_LABELS: Labels := map[ISTIO_INJECTION := "enabled"]

  lemma {:induction false} LabelsOfAVersion(o: Objects, first: nat, m: nat)
    requires SoundHistory(o) && ControllersAlone(o.nsLog, first) && first <= m < |o.nsLog|
    ensures o.nsLog[m].after.labels == SettledInTurn(FIRST_LABELS, o.nsLog, first, m + 1)
    decreases m
  {
    LabelsOfACommit(o, m);
    if m > first {
      LabelsOfAVersion(o, first, m - 1);
    } else {
      assert SettledInTurn(FIRST_LABELS, o.nsLog, first, m) == FIRST_LABELS;
    }
  }

  lemma CurrentLabels(o: Objects, first: nat)
    requires SoundHistory(o) && o.ns.Some? && ControllersAlone(o.nsLog, first)
    ensures o.ns.value.labels == SettledInTurn(FIRST_LABELS, o.nsLog, first, |o.nsLog|)
  {
    LabelsOfAVersion(o, first, |o.nsLog| - 1);
  }

  lemma SettledHistory(sub: bool, steps: seq<Step>, n: Name, first: nat)
    requires var st := Reached(sub, steps).store; n in st.namespaces && ControllersAlone(NsLog(st, n), first)
    ensures var st := Reached(sub, steps).store;
            st.namespaces[n].labels == SettledInTurn(FIRST_LABELS, NsLog(st, n), first, |NsLog(st, n)|)
  {
    RunSound(Empty(sub), steps, n);
    var st := Reached(sub, steps).store;
    var o := ObjectsAt(st, n);
    assert At(Reached(sub, steps), n).o == o;
    CurrentLabels(o, first);
  }

  /**
   In every run: a namespace the controller created and nobody else has written
   since has the labels that the defaults of the controller's own commits leave,
   one after the other. `HistoryOfAKey` is therefore about those, and not about
   every configuration that was ever deployed.
   */
  lemma StoredLabelsAreTheHistory(sub: bool, steps: seq<Step>, n: Name, first: nat)
    requires var st := Reached(sub, steps).store; n in st.namespaces && ControllersAlone(NsLog(st, n), first)
    ensures var st := Reached(sub, steps).store;
            st.namespaces[n].labels ==
            AfterAll(FIRST_LABELS, DefaultsOf(NsLog(st, n), first, |NsLog(st, n)|))
  {
    var st := Reached(sub, steps).store;
    SettledHistory(sub, steps, n, first);
    InTurnIsAfterAll(FIRST_LABELS, NsLog(st, n), first, |NsLog(st, n)|);
  }

  // ---- the override -------------------------------------------------------

  /** A live profile with its own namespace. */
  predicate Accepted(st: Store, n: Name) {
    && n in st.profiles && !st.profiles[n].deleting
    && n in st.namespaces && OwnedBy(st.namespaces[n], st.profiles[n].owner)
  }

  /** What the controller, left alone, makes of an accepted profile. */
  lemma AcceptedIsLabelled(before: seq<Step>, calm: seq<Step>, n: Name)
    requires LeftAlone(before, calm, n) && Accepted(AfterFlight(Run(Empty(true), before), n), n)
    ensures var s, t := Run(Empty(true), before), Run(Run(Empty(true), before), calm);
            && Accepted(t.store, n) && n !in t.flights
            && t.store.namespaces[n].labels == Settle(AfterFlight(s, n).namespaces[n].labels, s.store.config.value)
  {
    var s, t := Run(Empty(true), before), Run(Run(Empty(true), before), calm);
    LeftAloneReachesGoal(before, calm, n);
    StuckMeansIdle(t, n);
    assert At(t, n).flight == Lookup(t.flights, n);
    var st := AfterFlight(s, n);
    var x, y := ObjectsAt(st, n), ObjectsAt(t.store, n);
    assert x.profile == Some(st.profiles[n]) && x.ns == Some(st.namespaces[n]);
    assert Visible(y).ns.Some? && Visible(y).profile.Some?;
    assert y.profile == Lookup(t.store.profiles, n) && y.ns == Lookup(t.store.namespaces, n);
  }

  /**
   A deployment, seen at its own time: left alone afterwards, the controller puts
   the new value of a label in force exactly when the namespace does not have the
   label, or already has that value, by the time the reconcile then in flight is
   over. Whoever removed the label, and whatever is deployed before, is all one.
   */
  lemma OverrideIff(before: seq<Step>, wanted: Labels, later: seq<Step>, n: Name, k: string)
    requires Offers(wanted, k)
    requires LeftAlone(before + [EditConfig(Some(wanted))], later, n)
    requires Accepted(AfterFlight(Run(Empty(true), before + [EditConfig(Some(wanted))]), n), n)
    ensures var s := Run(Empty(true), before + [EditConfig(Some(wanted))]);
            var labels := AfterFlight(s, n).namespaces[n].labels;
            var end := Run(s, later).store;
            && n in end.namespaces
            && (Lookup(end.namespaces[n].labels, k) == Some(wanted[k]) <==> k !in labels || labels[k] == wanted[k])
            && (k in labels ==> Lookup(end.namespaces[n].labels, k) == Some(labels[k]))
  {
    DeployConfig(before, wanted, n);
    AcceptedIsLabelled(before + [EditConfig(Some(wanted))], later, n);
  }

  lemma DeployConfig(before: seq<Step>, c: Labels, n: Name)
    ensures var s, t := Run(Empty(true), before), Run(Empty(true), before + [EditConfig(Some(c))]);
            && t.store.profiles == s.store.profiles && t.store.namespaces == s.store.namespaces
            && t.flights == s.flights && t.store.config == Some(c)
    ensures TameAt(Empty(true), before, n) ==> TameAt(Empty(true), before + [EditConfig(Some(c))], n)
  {
    var step := EditConfig(Some(c));
    assert [step][1..] == [];
    RunAppend(Empty(true), before, [step]);
    if TameAt(Empty(true), before, n) {
      TameAppend(Empty(true), before, [step], n);
    }
  }

  /**
   The two deployments of the override, where the controller is left alone at this
   name in between, however busy it is elsewhere: the new value is in force.
   */
  lemma OverrideWithTimeBetween(before: seq<Step>, clear: Labels, calm: seq<Step>, wanted: Labels, later: seq<Step>,
                                n: Name, k: string)
    requires Clears(clear, k) && Offers(wanted, k)
    requires var cleared := before + [EditConfig(Some(clear))];
             && Accepted(AfterFlight(Run(Empty(true), cleared), n), n)
             && LeftAlone(cleared, calm, n)
             && LeftAlone(cleared + calm + [EditConfig(Some(wanted))], later, n)
    ensures var reset := before + [EditConfig(Some(clear))] + calm + [EditConfig(Some(wanted))];
            var end := Run(Run(Empty(true), reset), later).store;
            n in end.namespaces && Lookup(end.namespaces[n].labels, k) == Some(wanted[k])
  {
    var cleared := before + [EditConfig(Some(clear))];
    DeployConfig(before, clear, n);
    AcceptedIsLabelled(cleared, calm, n);
    RunAppend(Empty(true), cleared, calm);
    DeployConfig(cleared + calm, wanted, n);
    OverrideIff(cleared + calm, wanted, later, n, k);
  }

  /** Steps of other names leave the objects of this one alone. */
  lemma {:induction false} ElsewhereOnly(s: State, steps: seq<Step>, n: Name)
    requires forall i :: 0 <= i < |steps| ==> !Touches(steps[i], n)
    ensures At(Run(s, steps), n) == At(s, n)
    decreases |steps|
  {
    if steps != [] {
      NextAt(s, steps[0], n);
      ElsewhereOnly(Next(s, steps[0]), steps[1..], n);
    }
  }

  /**
   The same two deployments with no step of this name in between, however much
   happens elsewhere: the label keeps its old value, for good.
   */
  lemma OverrideWithoutTimeBetween(before: seq<Step>, clear: Labels, between: seq<Step>, wanted: Labels,
                                   later: seq<Step>, n: Name, k: string)
    requires Clears(clear, k) && Offers(wanted, k)
    requires forall i :: 0 <= i < |between| ==> !Touches(between[i], n)
    requires var start := Run(Empty(true), before);
             Accepted(start.store, n) && n !in start.flights && k in start.store.namespaces[n].labels
    requires LeftAlone(before + [EditConfig(Some(clear))] + between + [EditConfig(Some(wanted))], later, n)
    ensures var start := Run(Empty(true), before).store;
            var reset := before + [EditConfig(Some(clear))] + between + [EditConfig(Some(wanted))];
            var end := Run(Run(Empty(true), reset), later).store;
            n in end.namespaces && Lookup(end.namespaces[n].labels, k) == Some(start.namespaces[n].labels[k])
  {
    var cleared := before + [EditConfig(Some(clear))];
    var s := Run(Empty(true), cleared);
    DeployConfig(before, clear, n);
    ElsewhereOnly(s, between, n);
    RunAppend(Empty(true), cleared, between);
    var t := Run(s, between);
    assert ObjectsAt(t.store, n) == At(t, n).o && ObjectsAt(s.store, n) == At(s, n).o;
    assert Lookup(t.flights, n) == At(t, n).flight && Lookup(s.flights, n) == At(s, n).flight;
    assert Lookup(t.store.profiles, n) == Lookup(s.store.profiles, n);
    assert Lookup(t.store.namespaces, n) == Lookup(s.store.namespaces, n);
    DeployConfig(cleared + between, wanted, n);
    OverrideIff(cleared + between, wanted, later, n, k);
  }
}
