/** Default labels of a profile's namespace: `setNamespaceLabels`. */
module NamespaceLabels {
  import opened Prelude

  type Labels = map<string, string>

  /**
   What one pass over the defaults leaves behind. A default with an empty value
   deletes its key, any other default is written only where the key is missing.
   */
  function Settle(labels: Labels, defaults: Labels): (r: Labels)
    ensures forall k :: k !in defaults ==> Lookup(r, k) == Lookup(labels, k)
  {
    map k | k in labels.Keys + defaults.Keys && (k in defaults ==> defaults[k] != "")
      :: if k in labels then labels[k] else defaults[k]
  }

  /** The labels need no write under these defaults. */
  predicate Settled(labels: Labels, defaults: Labels) {
    Settle(labels, defaults) == labels
  }

  /** The object the reconciler holds; the label map may still be nil. */
  class NamespaceObject {
    var labels: Option<Labels>

    constructor (labels: Option<Labels>)
      ensures this.labels == labels
    {
      this.labels := labels;
    }

    function Labelling(): Labels
      reads this
    {
      if labels.Some? then labels.value else map[]
    }
  }

  /** The keys are visited in an order the caller cannot predict; the result does not depend on it. */
  method SetNamespaceLabels(ns: NamespaceObject, newLabels: Labels)
    modifies ns
    ensures ns.labels == Some(Settle(old(ns.Labelling()), newLabels))
  {
    if ns.labels.None? {
      ns.labels := Some(map[]);
    }
    ghost var start := ns.Labelling();
    var todo := newLabels.Keys;
    while todo != {}
      invariant todo <= newLabels.Keys
      invariant ns.labels.Some?
      invariant forall k :: k in newLabels && k !in todo ==>
        Lookup(ns.labels.value, k) == Lookup(Settle(start, newLabels), k)
      invariant forall k :: k !in newLabels || k in todo ==>
        Lookup(ns.labels.value, k) == Lookup(start, k)
      decreases todo
    {
      var k :| k in todo;
      var v := newLabels[k];
      if |v| == 0 {
        if k in ns.labels.value {
          ns.labels := Some(ns.labels.value - {k});
        }
      } else {
        if k !in ns.labels.value {
          ns.labels := Some(ns.labels.value[k := v]);
        }
      }
      todo := todo - {k};
    }
    LookupsDecide(ns.labels.value, Settle(start, newLabels));
  }

  // ---- one visit at a time ------------------------------------------------

  function Visit(labels: Labels, k: string, v: string): Labels {
    if v == "" then labels - {k}
    else if k in labels then labels
    else labels[k := v]
  }

  /** The loop for one concrete enumeration of the defaults. */
  function VisitAll(labels: Labels, defaults: Labels, order: seq<string>): Labels
    requires forall k :: k in order ==> k in defaults
    decreases |order|
  {
    if order == [] then labels
    else VisitAll(Visit(labels, order[0], defaults[order[0]]), defaults, order[1..])
  }

  /** Every enumeration of the defaults, even one with repetitions, ends in the same map. */
  lemma OrderIrrelevant(labels: Labels, defaults: Labels, order: seq<string>)
    requires forall k :: k in order <==> k in defaults
    ensures VisitAll(labels, defaults, order) == Settle(labels, defaults)
  {
    forall k
      ensures Lookup(VisitAll(labels, defaults, order), k) == Lookup(Settle(labels, defaults), k)
    {
      VisitedKey(labels, defaults, order, k);
    }
    LookupsDecide(VisitAll(labels, defaults, order), Settle(labels, defaults));
  }

  lemma {:induction false} VisitedKey(labels: Labels, defaults: Labels, order: seq<string>, k: string)
    requires forall j :: j in order ==> j in defaults
    ensures Lookup(VisitAll(labels, defaults, order), k) ==
            if k in order then Lookup(Settle(labels, defaults), k) else Lookup(labels, k)
    decreases |order|
  {
    if order != [] {
      VisitedKey(Visit(labels, order[0], defaults[order[0]]), defaults, order[1..], k);
    }
  }

  // ---- fixpoints ----------------------------------------------------------

  lemma SettleIsIdempotent(labels: Labels, defaults: Labels)
    ensures Settled(Settle(labels, defaults), defaults)
  {
    LookupsDecide(Settle(Settle(labels, defaults), defaults), Settle(labels, defaults));
  }

  /** A pass writes nothing exactly when every empty default is absent and every other one present. */
  lemma SettledIff(labels: Labels, defaults: Labels)
    ensures Settled(labels, defaults) <==>
            forall k :: k in defaults ==> (k in labels <==> defaults[k] != "")
  {
    forall k | k in defaults
      ensures k in Settle(labels, defaults) <==> defaults[k] != ""
    {
    }
    if forall k :: k in defaults ==> (k in labels <==> defaults[k] != "") {
      LookupsDecide(Settle(labels, defaults), labels);
    }
  }

  // ---- histories of configurations ----------------------------------------

  /** The labels after reconciling under each configuration of a history in turn. */
  function AfterAll(labels: Labels, history: seq<Labels>): Labels {
    if history == [] then labels
    else Settle(AfterAll(labels, history[..|history| - 1]), history[|history| - 1])
  }

  predicate Clears(defaults: Labels, k: string) {
    k in defaults && defaults[k] == ""
  }

  predicate Offers(defaults: Labels, k: string) {
    k in defaults && defaults[k] != ""
  }

  /** The first value any of these configurations offers for `k`. */
  function FirstOffer(history: seq<Labels>, k: string): Option<string> {
    if history == [] then None
    else if Offers(history[0], k) then Some(history[0][k])
    else FirstOffer(history[1..], k)
  }

  /** The part of the history after the last configuration that cleared `k`; None if there is none. */
  function SinceLastClear(history: seq<Labels>, k: string): Option<seq<Labels>> {
    if history == [] then None
    else
      var rest := SinceLastClear(history[1..], k);
      if rest.Some? then rest
      else if Clears(history[0], k) then Some(history[1..])
      else None
  }

  lemma {:induction false} SinceLastClearIsASuffix(history: seq<Labels>, k: string)
    ensures match SinceLastClear(history, k)
            case None => forall i :: 0 <= i < |history| ==> !Clears(history[i], k)
            case Some(tail) =>
              && |tail| < |history|
              && tail == history[|history| - |tail|..]
              && Clears(history[|history| - |tail| - 1], k)
              && forall i :: 0 <= i < |tail| ==> !Clears(tail[i], k)
  {
    if history != [] {
      SinceLastClearIsASuffix(history[1..], k);
    }
  }

  /**
   Closed form: the value of a key is the first one offered since it was last
   cleared; if it was never cleared, an original value wins over every offer.
   */
  lemma {:induction false} HistoryOfAKey(labels: Labels, history: seq<Labels>, k: string)
    ensures Lookup(AfterAll(labels, history), k) ==
            match SinceLastClear(history, k)
            case Some(tail) => FirstOffer(tail, k)
            case None => if k in labels then Some(labels[k]) else FirstOffer(history, k)
  {
    if history != [] {
      var before, last := history[..|history| - 1], history[|history| - 1];
      assert history == before + [last];
      HistoryOfAKey(labels, before, k);
      ExtendClear(before, last, k);
      ExtendOffer(before, last, k);
      var tail := SinceLastClear(before, k);
      if tail.Some? {
        ExtendOffer(tail.value, last, k);
      }
      assert FirstOffer([], k) == None;
    }
  }

  lemma {:induction false} ExtendClear(history: seq<Labels>, last: Labels, k: string)
    ensures SinceLastClear(history + [last], k) ==
            if Clears(last, k) then Some([])
            else match SinceLastClear(history, k)
                 case None => None
                 case Some(tail) => Some(tail + [last])
  {
    if history == [] {
      assert history + [last] == [last];
      assert [last][1..] == [];
    } else {
      assert (history + [last])[1..] == history[1..] + [last];
      ExtendClear(history[1..], last, k);
    }
  }

  lemma {:induction false} ExtendOffer(history: seq<Labels>, last: Labels, k: string)
    ensures FirstOffer(history + [last], k) ==
            if FirstOffer(history, k).Some? then FirstOffer(history, k)
            else if Offers(last, k) then Some(last[k]) else None
  {
    if history == [] {
      assert history + [last] == [last];
      assert [last][1..] == [];
    } else {
      assert (history + [last])[1..] == history[1..] + [last];
      ExtendOffer(history[1..], last, k);
    }
  }

  /**
   The documented override: deploy an empty value, then the new one. Whatever
   happened before, and however many configurations silent on `k` lie in
   between or follow, the new value is in force.
   */
  lemma OverrideTakesTwoDeployments(labels: Labels, earlier: seq<Labels>, clear: Labels,
                                    between: seq<Labels>, wanted: Labels, later: seq<Labels>, k: string)
    requires Clears(clear, k) && Offers(wanted, k)
    requires forall c :: c in between ==> k !in c
    requires forall c :: c in later ==> !Clears(c, k)
    ensures Lookup(AfterAll(labels, earlier + [clear] + between + [wanted] + later), k) == Some(wanted[k])
  {
    var tail := between + [wanted] + later;
    var history := earlier + [clear] + between + [wanted] + later;
    assert history == earlier + ([clear] + tail);
    NoClear(tail, k);
    PrependClear(earlier, [clear] + tail, k);
    assert ([clear] + tail)[1..] == tail;
    assert SinceLastClear(history, k) == Some(tail);
    SkipSilent(between, [wanted] + later, k);
    assert tail == between + ([wanted] + later);
    HistoryOfAKey(labels, history, k);
  }

  /** However often the defaults change: a label only ever changes after a configuration that cleared its key. */
  lemma OverrideNeedsAClear(labels: Labels, history: seq<Labels>, k: string)
    requires k in labels && Lookup(AfterAll(labels, history), k) != Some(labels[k])
    ensures exists i :: 0 <= i < |history| && Clears(history[i], k)
  {
    HistoryOfAKey(labels, history, k);
    if forall c :: c in history ==> !Clears(c, k) {
      NoClear(history, k);
    }
  }

  lemma {:induction false} NoClear(history: seq<Labels>, k: string)
    requires forall c :: c in history ==> !Clears(c, k)
    ensures SinceLastClear(history, k) == None
  {
    if history != [] {
      NoClear(history[1..], k);
    }
  }

  lemma {:induction false} PrependClear(earlier: seq<Labels>, history: seq<Labels>, k: string)
    requires SinceLastClear(history, k).Some?
    ensures SinceLastClear(earlier + history, k) == SinceLastClear(history, k)
  {
    if earlier == [] {
      assert earlier + history == history;
    } else {
      assert (earlier + history)[1..] == earlier[1..] + history;
      PrependClear(earlier[1..], history, k);
    }
  }

  lemma {:induction false} SkipSilent(silent: seq<Labels>, history: seq<Labels>, k: string)
    requires forall c :: c in silent ==> k !in c
    ensures FirstOffer(silent + history, k) == FirstOffer(history, k)
  {
    if silent == [] {
      assert silent + history == history;
    } else {
      assert (silent + history)[1..] == silent[1..] + history;
      SkipSilent(silent[1..], history, k);
    }
  }
}
