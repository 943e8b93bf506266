/** The abstract trust relation both cloud plugins maintain: a set of identities, granted and revoked. */
module Grants {
  import opened StringLists

  datatype Op = Grant(who: string) | Revoke(who: string)

  /** The set after one operation, and after a log of them. */
  function Apply(trusted: set<string>, op: Op): set<string> {
    if op.Grant? then trusted + {op.who} else trusted - {op.who}
  }

  function Replay(trusted: set<string>, log: seq<Op>): set<string> {
    if log == [] then trusted else Apply(Replay(trusted, log[..|log| - 1]), log[|log| - 1])
  }

  predicate Untouched(log: seq<Op>, x: string) {
    forall i :: 0 <= i < |log| ==> log[i].who != x
  }

  /** The last operation on an identity decides; without one, the initial state does. */
  lemma {:induction false} LastOperationWins(trusted: set<string>, log: seq<Op>, x: string)
    ensures forall i :: 0 <= i < |log| && log[i].who == x && Untouched(log[i + 1..], x) ==>
              (x in Replay(trusted, log) <==> log[i].Grant?)
    ensures Untouched(log, x) ==> (x in Replay(trusted, log) <==> x in trusted)
  {
    if log != [] {
      var init, last := log[..|log| - 1], log[|log| - 1];
      LastOperationWins(trusted, init, x);
      forall i | 0 <= i < |log| && log[i].who == x && Untouched(log[i + 1..], x)
        ensures x in Replay(trusted, log) <==> log[i].Grant?
      {
        if i < |init| {
          var later, laterInit := log[i + 1..], init[i + 1..];
          assert later == laterInit + [last];
          assert later[|laterInit|] == last;
          assert forall j :: 0 <= j < |laterInit| ==> laterInit[j] == later[j];
          assert init[i].who == x && Untouched(init[i + 1..], x);
        }
      }
      if Untouched(log, x) {
        assert forall j :: 0 <= j < |init| ==> init[j] == log[j];
      }
    }
  }

  // ---- the same relation kept as a list -----------------------------------

  function ApplyToList(ids: seq<string>, op: Op): seq<string> {
    match op
    case Grant(x) => if x in ids then ids else ids + [x]
    case Revoke(x) => Without(ids, x)
  }

  function ReplayList(ids: seq<string>, log: seq<Op>): seq<string> {
    if log == [] then ids else ApplyToList(ReplayList(ids, log[..|log| - 1]), log[|log| - 1])
  }

  function Elements(ids: seq<string>): set<string> {
    set x | x in ids
  }

  lemma {:induction false} ListRefinesSet(ids: seq<string>, log: seq<Op>)
    ensures Elements(ReplayList(ids, log)) == Replay(Elements(ids), log)
  {
    if log != [] {
      ListRefinesSet(ids, log[..|log| - 1]);
      WithoutMembers(ReplayList(ids, log[..|log| - 1]), log[|log| - 1].who);
    }
  }

  lemma {:induction false} ListStaysDistinct(ids: seq<string>, log: seq<Op>)
    requires NoDuplicates(ids)
    ensures NoDuplicates(ReplayList(ids, log))
  {
    if log != [] {
      var before, last := ReplayList(ids, log[..|log| - 1]), log[|log| - 1];
      ListStaysDistinct(ids, log[..|log| - 1]);
      if last.Revoke? {
        WithoutKeepsDistinct(before, last.who);
      }
    }
  }

  /** The identities of a list that a log never revokes, in their order. */
  function Survivors(ids: seq<string>, log: seq<Op>): seq<string> {
    if log == [] then ids
    else
      var before := Survivors(ids, log[..|log| - 1]);
      if log[|log| - 1].Revoke? then Without(before, log[|log| - 1].who) else before
  }

  lemma {:induction false} SurvivorsAreTheUnrevoked(ids: seq<string>, log: seq<Op>, x: string)
    ensures x in Survivors(ids, log) <==> x in ids && Revoke(x) !in log
  {
    if log != [] {
      SurvivorsAreTheUnrevoked(ids, log[..|log| - 1], x);
      WithoutMembers(Survivors(ids, log[..|log| - 1]), log[|log| - 1].who);
      assert log == log[..|log| - 1] + [log[|log| - 1]];
    }
  }

  /** Survivors keep their order and stay in front of everything granted later. */
  lemma {:induction false} SurvivorsComeFirst(ids: seq<string>, log: seq<Op>)
    ensures Survivors(ids, log) <= ReplayList(ids, log)
  {
    if log != [] {
      var init, last := log[..|log| - 1], log[|log| - 1];
      SurvivorsComeFirst(ids, init);
      if last.Revoke? {
        var kept, list := Survivors(ids, init), ReplayList(ids, init);
        WithoutAppend(kept, list[|kept|..], last.who);
        assert list == kept + list[|kept|..];
      }
    }
  }
}
