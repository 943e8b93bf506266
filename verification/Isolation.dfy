/**
 Reconciles of different profiles do not influence each other, although they
 share one server, one cache and one queue.
 */
module Isolation {
  import opened Prelude
  import opened ApiStore
  import opened NamespaceLabels
  import opened Cluster
  import opened Locality

  /** A step on one name leaves every other name exactly as it was: objects, history, caches, queue and flight. */
  lemma Elsewhere(s: State, step: Step, n: Name)
    requires !Touches(step, n)
    ensures At(Next(s, step), n) == At(s, n)
  {
    NextAt(s, step, n);
  }

  /** What a step does at `n` is decided by what is at `n`, whatever else the cluster holds. */
  lemma NonInterference(s: State, t: State, n: Name, step: Step)
    requires At(s, n) == At(t, n)
    ensures At(Next(s, step), n) == At(Next(t, step), n)
  {
    NextAt(s, step, n);
    NextAt(t, step, n);
  }

  // ---- whole runs ---------------------------------------------------------

  /** The steps of a run that can concern `n`, in their order. */
  function Project(steps: seq<Step>, n: Name): seq<Step> {
    if steps == [] then []
    else (if Touches(steps[0], n) then [steps[0]] else []) + Project(steps[1..], n)
  }

  /** A run leaves at `n` what its own steps alone would have left there, whatever the cluster holds elsewhere. */
  lemma {:induction false} OwnStepsDecide(s: State, t: State, steps: seq<Step>, n: Name)
    requires At(s, n) == At(t, n)
    ensures At(Run(s, steps), n) == At(Run(t, Project(steps, n)), n)
    decreases |steps|
  {
    if steps != [] {
      var rest := Project(steps[1..], n);
      if Touches(steps[0], n) {
        assert Project(steps, n)[0] == steps[0] && Project(steps, n)[1..] == rest;
        NonInterference(s, t, n, steps[0]);
        OwnStepsDecide(Next(s, steps[0]), Next(t, steps[0]), steps[1..], n);
      } else {
        assert Project(steps, n) == rest;
        Elsewhere(s, steps[0], n);
        OwnStepsDecide(Next(s, steps[0]), t, steps[1..], n);
      }
    }
  }

  /** What a run leaves at `n` is computed from the slice of `n` and its own steps alone. */
  lemma {:induction false} RunProjects(s: State, steps: seq<Step>, n: Name)
    ensures At(Run(s, steps), n) == LocalRun(At(s, n), Project(steps, n))
    decreases |steps|
  {
    if steps != [] {
      var rest := Project(steps[1..], n);
      NextAt(s, steps[0], n);
      RunProjects(Next(s, steps[0]), steps[1..], n);
      if Touches(steps[0], n) {
        assert ([steps[0]] + rest)[1..] == rest;
      } else {
        assert Project(steps, n) == rest;
      }
    }
  }

  ghost predicate SameSystem(s: State, t: State) {
    forall n :: At(s, n) == At(t, n)
  }

  lemma SameSystemSameObjects(s: State, t: State)
    requires SameSystem(s, t)
    ensures s.store.profiles == t.store.profiles && s.store.namespaces == t.store.namespaces
    ensures s.store.config == t.store.config
    ensures s.queue == t.queue && s.flights == t.flights
  {
    assert At(s, "") == At(t, "");
    forall n
      ensures Lookup(s.store.profiles, n) == Lookup(t.store.profiles, n)
      ensures Lookup(s.store.namespaces, n) == Lookup(t.store.namespaces, n)
      ensures Lookup(s.flights, n) == Lookup(t.flights, n)
      ensures n in s.queue <==> n in t.queue
    {
      assert At(s, n) == At(t, n);
    }
    LookupsDecide(s.store.profiles, t.store.profiles);
    LookupsDecide(s.store.namespaces, t.store.namespaces);
    LookupsDecide(s.flights, t.flights);
  }

  /**
   Two runs in which every name sees the same steps in the same order end in the
   same system, however the steps of different names are interleaved.
   */
  lemma InterleavingIrrelevant(s: State, a: seq<Step>, b: seq<Step>)
    requires forall n :: Project(a, n) == Project(b, n)
    ensures SameSystem(Run(s, a), Run(s, b))
  {
    forall n
      ensures At(Run(s, a), n) == At(Run(s, b), n)
    {
      OwnStepsDecide(s, s, a, n);
      OwnStepsDecide(s, s, b, n);
    }
  }

  lemma StepsCommute(s: State, a: Step, b: Step)
    requires !Global(a) && !Global(b) && a.name != b.name
    ensures SameSystem(Next(Next(s, a), b), Next(Next(s, b), a))
  {
    forall n
      ensures At(Next(Next(s, a), b), n) == At(Next(Next(s, b), a), n)
    {
      if n != a.name {
        Elsewhere(s, a, n);
        NonInterference(Next(s, a), s, n, b);
        Elsewhere(Next(s, b), a, n);
      } else {
        Elsewhere(s, b, n);
        NonInterference(Next(s, b), s, n, a);
        Elsewhere(Next(s, a), b, n);
      }
    }
  }

  /** All steps of the first name, then all of the second, and so on. */
  function Serial(steps: seq<Step>, names: seq<Name>): seq<Step> {
    if names == [] then [] else Project(steps, names[0]) + Serial(steps, names[1..])
  }

  /** The same, between the steps of the whole cluster; `piece` is what has gathered since the last of them. */
  function Serialised(piece: seq<Step>, steps: seq<Step>, names: seq<Name>): seq<Step>
    decreases |steps|
  {
    if steps == [] then Serial(piece, names)
    else if Global(steps[0]) then Serial(piece, names) + [steps[0]] + Serialised([], steps[1..], names)
    else Serialised(piece + [steps[0]], steps[1..], names)
  }

  /** Every step is one of the whole cluster or of one of these names. */
  predicate Named(steps: seq<Step>, names: seq<Name>) {
    steps == [] || ((Global(steps[0]) || steps[0].name in names) && Named(steps[1..], names))
  }

  predicate LocalTo(steps: seq<Step>, names: seq<Name>) {
    forall step :: step in steps ==> !Global(step) && step.name in names
  }

  predicate Distinct(names: seq<Name>) {
    forall i, j :: 0 <= i < j < |names| ==> names[i] != names[j]
  }

  lemma ProjectAround(a: seq<Step>, b: seq<Step>, step: Step, n: Name)
    ensures Project(a + [step] + b, n) == Project(a, n) + Project([step], n) + Project(b, n)
  {
    ProjectAppend(a + [step], b, n);
    ProjectAppend(a, [step], n);
  }

  lemma PieceProjects(piece: seq<Step>, names: seq<Name>, n: Name)
    requires LocalTo(piece, names) && Distinct(names)
    ensures Project(Serial(piece, names), n) == Project(piece, n)
  {
    ProjectSerial(piece, names, n);
    if n !in names {
      ProjectNothing(piece, n);
    }
  }

  lemma {:induction false} SerialisedProjects(piece: seq<Step>, steps: seq<Step>, names: seq<Name>, n: Name)
    requires LocalTo(piece, names) && Named(steps, names) && Distinct(names)
    ensures Project(Serialised(piece, steps, names), n) == Project(piece + steps, n)
    decreases |steps|
  {
    if steps == [] {
      PieceProjects(piece, names, n);
      assert piece + steps == piece;
    } else {
      var head, tail := steps[0], steps[1..];
      if Global(head) {
        PieceProjects(piece, names, n);
        SerialisedProjects([], tail, names, n);
        ProjectAround(Serial(piece, names), Serialised([], tail, names), head, n);
        ProjectAround(piece, tail, head, n);
        assert [] + tail == tail && piece + steps == piece + [head] + tail;
      } else {
        SerialisedProjects(piece + [head], tail, names, n);
        assert piece + steps == piece + [head] + tail;
      }
    }
  }

  /**
   Any run reaches what running one profile after the other reaches, between one
   step of the whole cluster, such as a change of the configuration or a restart,
   and the next.
   */
  lemma EveryRunIsSerial(s: State, steps: seq<Step>, names: seq<Name>)
    requires Named(steps, names) && Distinct(names)
    ensures var serial := Serialised([], steps, names);
            && SameSystem(Run(s, steps), Run(s, serial))
            && Run(s, steps).store.profiles == Run(s, serial).store.profiles
            && Run(s, steps).store.namespaces == Run(s, serial).store.namespaces
  {
    var serial := Serialised([], steps, names);
    forall n
      ensures Project(steps, n) == Project(serial, n)
    {
      SerialisedProjects([], steps, names, n);
      assert [] + steps == steps;
    }
    InterleavingIrrelevant(s, steps, serial);
    SameSystemSameObjects(Run(s, steps), Run(s, serial));
  }

  lemma {:induction false} ProjectNothing(steps: seq<Step>, n: Name)
    requires forall step :: step in steps ==> !Touches(step, n)
    ensures Project(steps, n) == []
  {
    if steps != [] {
      ProjectNothing(steps[1..], n);
    }
  }

  lemma {:induction false} ProjectAppend(a: seq<Step>, b: seq<Step>, n: Name)
    ensures Project(a + b, n) == Project(a, n) + Project(b, n)
  {
    if a == [] {
      assert a + b == b;
    } else {
      assert (a + b)[1..] == a[1..] + b;
      ProjectAppend(a[1..], b, n);
    }
  }

  lemma {:induction false} ProjectProject(steps: seq<Step>, m: Name, n: Name)
    requires forall step :: step in steps ==> !Global(step)
    ensures Project(Project(steps, m), n) == if m == n then Project(steps, n) else []
  {
    if steps != [] {
      ProjectProject(steps[1..], m, n);
      assert steps[0] in steps;
      if Touches(steps[0], m) {
        ProjectAppend([steps[0]], Project(steps[1..], m), n);
        assert Project([steps[0]], n) == if m == n then [steps[0]] else [];
      } else {
        assert Project(steps, m) == Project(steps[1..], m);
      }
      if m != n {
        assert Project(Project(steps, m), n) == [];
      }
    }
  }

  lemma {:induction false} ProjectSerial(steps: seq<Step>, names: seq<Name>, n: Name)
    requires forall step :: step in steps ==> !Global(step)
    requires forall i, j :: 0 <= i < j < |names| ==> names[i] != names[j]
    ensures Project(Serial(steps, names), n) == if n in names then Project(steps, n) else []
  {
    if names != [] {
      ProjectAppend(Project(steps, names[0]), Serial(steps, names[1..]), n);
      ProjectProject(steps, names[0], n);
      ProjectSerial(steps, names[1..], n);
      assert names[0] !in names[1..];
    }
  }
}
