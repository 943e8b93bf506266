/** The create-or-update helpers: a service account with its role binding, and the resource quota. */
module AccessControl {
  import opened Prelude

  /** Namespace and name. */
  type Key = (string, string)

  datatype Account = Account(annotations: map<string, string>, controlled: bool)
  datatype Subject = Subject(kind: string, name: string, namespace: string)
  datatype RoleRef = RoleRef(apiGroup: string, kind: string, name: string)
  datatype RoleBinding = RoleBinding(roleRef: RoleRef, subjects: seq<Subject>,
                               annotations: map<string, string>, controlled: bool)
  datatype Quota = Quota(spec: map<string, string>, annotations: map<string, string>, controlled: bool)

  // ---- what the helpers are for -------------------------------------------

  /** The binding afterwards: everything but role and subjects of an existing one stays. */
  function Ensured(found: Option<RoleBinding>, wanted: RoleBinding): RoleBinding {
    match found
    case None => wanted
    case Some(b) => b.(roleRef := wanted.roleRef, subjects := wanted.subjects)
  }

  predicate Satisfied(found: Option<RoleBinding>, wanted: RoleBinding) {
    found.Some? && found.value.roleRef == wanted.roleRef && found.value.subjects == wanted.subjects
  }

  function EnsuredQuota(found: Option<Quota>, wanted: Quota): Quota {
    match found
    case None => wanted
    case Some(q) => q.(spec := wanted.spec)
  }

  predicate SatisfiedQuota(found: Option<Quota>, wanted: Quota) {
    found.Some? && found.value.spec == wanted.spec
  }

  function WantedAccount(ns: string, awsAccount: string): Account {
    Account(map["eks.amazonaws.com/role-arn" :=
                  "arn:aws:iam::" + awsAccount + ":role/kubeflow-assumable-role-ns-" + ns], true)
  }

  function WantedBinding(ns: string, sa: string, clusterRole: string): RoleBinding {
    RoleBinding(RoleRef("rbac.authorization.k8s.io", "ClusterRole", clusterRole),
                [Subject("ServiceAccount", sa, ns)], map[], true)
  }

  /** One object was set to `v`, or nothing happened at all. */
  ghost predicate SetOrNot<V>(before: map<Key, V>, after: map<Key, V>, k: Key, v: V) {
    after == before || after == before[k := v]
  }

  ghost function Changed<K(!new), V(!new)>(before: map<K, V>, after: map<K, V>): nat {
    if before == after then 0 else 1
  }

  /** A read, and a write if there is something to write: one of the two does not go well. */
  predicate UpdateFails(faults: seq<Outcome>, satisfied: bool) {
    OutcomeAt(faults, 0) != Ok || (!satisfied && OutcomeAt(faults, 1) != Ok)
  }

  /** The write is made and committed, though its reply may be lost. */
  predicate UpdateWrites(faults: seq<Outcome>, satisfied: bool) {
    OutcomeAt(faults, 0) == Ok && !satisfied && !OutcomeAt(faults, 1).Failed?
  }

  /** The outcomes of the calls that follow. */
  function AfterUpdate(faults: seq<Outcome>, satisfied: bool): seq<Outcome> {
    if OutcomeAt(faults, 0) != Ok || satisfied then RestOf(faults) else RestOf(RestOf(faults))
  }

  // ---- the helpers --------------------------------------------------------

  class Api {
    var accounts: map<Key, Account>
    var bindings: map<Key, RoleBinding>
    var quotas: map<Key, Quota>
    var writes: nat
    var faults: seq<Outcome>

    constructor (faults: seq<Outcome>)
      ensures accounts == map[] && bindings == map[] && quotas == map[] && writes == 0
      ensures this.faults == faults
    {
      accounts, bindings, quotas, writes := map[], map[], map[], 0;
      this.faults := faults;
    }

    method EndCall() returns (o: Outcome)
      modifies this`faults
      ensures o == NextOutcome(old(faults)) && faults == RestOf(old(faults))
    {
      o := NextOutcome(faults);
      faults := RestOf(faults);
    }

    method SetBinding(k: Key, b: RoleBinding) returns (err: bool)
      modifies this`faults, this`bindings, this`writes
      ensures err <==> NextOutcome(old(faults)) != Ok
      ensures bindings == if NextOutcome(old(faults)).Failed? then old(bindings) else old(bindings)[k := b]
      ensures writes == old(writes) + if NextOutcome(old(faults)).Failed? then 0 else 1
      ensures faults == RestOf(old(faults))
    {
      var o := EndCall();
      if !o.Failed? {
        bindings := bindings[k := b];
        writes := writes + 1;
      }
      err := o != Ok;
    }

    /**
     An existing binding gets its role and subjects and keeps everything else; a
     missing one is created. An error is reported exactly if a call did not go well.
     */
    method UpdateRoleBinding(k: Key, wanted: RoleBinding) returns (err: bool)
      modifies this`faults, this`bindings, this`writes
      ensures err <==> UpdateFails(old(faults), Satisfied(Lookup(old(bindings), k), wanted))
      ensures bindings ==
              if UpdateWrites(old(faults), Satisfied(Lookup(old(bindings), k), wanted))
              then old(bindings)[k := Ensured(Lookup(old(bindings), k), wanted)] else old(bindings)
      ensures k in old(bindings) ==>
                && k in bindings
                && bindings[k].annotations == old(bindings)[k].annotations
                && bindings[k].controlled == old(bindings)[k].controlled
      ensures !err ==> k in bindings && bindings[k].roleRef == wanted.roleRef && bindings[k].subjects == wanted.subjects
      ensures !err && k !in old(bindings) ==> bindings[k] == wanted
      ensures writes == old(writes) + Changed(old(bindings), bindings)
      ensures |faults| <= |old(faults)| && (err ==> |faults| < |old(faults)|)
    {
      var o := EndCall();
      if o != Ok {
        return true;
      }
      if k !in bindings {
        err := SetBinding(k, wanted);
      } else {
        var found := bindings[k];
        err := false;
        if !(wanted.roleRef == found.roleRef && wanted.subjects == found.subjects) {
          found := found.(roleRef := wanted.roleRef);
          found := found.(subjects := wanted.subjects);
          err := SetBinding(k, found);
        }
      }
    }

    /** Reads the account and creates it where it is missing; one that exists is left alone. */
    method EnsureAccount(k: Key, wanted: Account) returns (err: bool)
      modifies this`faults, this`accounts, this`writes
      ensures err <==> UpdateFails(old(faults), k in old(accounts))
      ensures accounts ==
              if UpdateWrites(old(faults), k in old(accounts)) then old(accounts)[k := wanted] else old(accounts)
      ensures faults == AfterUpdate(old(faults), k in old(accounts))
      ensures writes == old(writes) + Changed(old(accounts), accounts)
    {
      var o := EndCall();
      if o != Ok {
        return true;
      }
      err := false;
      if k !in accounts {
        o := EndCall();
        if !o.Failed? {
          accounts := accounts[k := wanted];
          writes := writes + 1;
        }
        err := o != Ok;
      }
    }

    /**
     On success the account exists, with the annotation of its role if it is new,
     and is bound to the cluster role as the only subject; an existing binding keeps
     everything else. Whatever happens, nothing else changes, and an error is
     reported exactly if a call did not go well.
     */
    method UpdateServiceAccount(ns: string, sa: string, clusterRole: string, awsAccount: string) returns (err: bool)
      modifies this`faults, this`accounts, this`bindings, this`writes
      ensures var k := (ns, sa);
              accounts ==
              if UpdateWrites(old(faults), k in old(accounts))
              then old(accounts)[k := Account(map["eks.amazonaws.com/role-arn" :=
                     "arn:aws:iam::" + awsAccount + ":role/kubeflow-assumable-role-ns-" + ns], true)]
              else old(accounts)
      ensures var k := (ns, sa);
              SetOrNot(old(bindings), bindings, k,
                       Ensured(Lookup(old(bindings), k), WantedBinding(ns, sa, clusterRole)))
      ensures var k := (ns, sa);
              k in old(bindings) ==>
                && k in bindings
                && bindings[k].annotations == old(bindings)[k].annotations
                && bindings[k].controlled == old(bindings)[k].controlled
      ensures var k := (ns, sa);
              !err ==>
                && k in accounts && k in bindings
                && bindings[k].roleRef == RoleRef("rbac.authorization.k8s.io", "ClusterRole", clusterRole)
                && bindings[k].subjects == [Subject("ServiceAccount", sa, ns)]
                && (k !in old(bindings) ==> bindings[k].annotations == map[] && bindings[k].controlled)
      ensures var k, found := (ns, sa), (ns, sa) in old(accounts);
              err <==>
                || UpdateFails(old(faults), found)
                || UpdateFails(AfterUpdate(old(faults), found),
                               Satisfied(Lookup(old(bindings), k), WantedBinding(ns, sa, clusterRole)))
      ensures |faults| <= |old(faults)| && (err ==> |faults| < |old(faults)|)
      ensures writes == old(writes) + Changed(old(accounts), accounts) + Changed(old(bindings), bindings)
    {
      var k := (ns, sa);
      err := EnsureAccount(k, WantedAccount(ns, awsAccount));
      if err {
        return;
      }
      err := UpdateRoleBinding(k, WantedBinding(ns, sa, clusterRole));
    }

    /** An existing quota gets its spec and keeps everything else; a missing one is created. */
    method UpdateResourceQuota(k: Key, wanted: Quota) returns (err: bool)
      modifies this`faults, this`quotas, this`writes
      ensures err <==> UpdateFails(old(faults), SatisfiedQuota(Lookup(old(quotas), k), wanted))
      ensures quotas ==
              if UpdateWrites(old(faults), SatisfiedQuota(Lookup(old(quotas), k), wanted))
              then old(quotas)[k := EnsuredQuota(Lookup(old(quotas), k), wanted)] else old(quotas)
      ensures k in old(quotas) ==>
                && k in quotas
                && quotas[k].annotations == old(quotas)[k].annotations
                && quotas[k].controlled == old(quotas)[k].controlled
      ensures !err ==> k in quotas && quotas[k].spec == wanted.spec
      ensures !err && k !in old(quotas) ==> quotas[k] == wanted
      ensures |faults| <= |old(faults)| && (err ==> |faults| < |old(faults)|)
      ensures writes == old(writes) + Changed(old(quotas), quotas)
    {
      var o := EndCall();
      if o != Ok {
        return true;
      }
      if k in quotas && wanted.spec == quotas[k].spec {
        return false;
      }
      var stored := if k in quotas then quotas[k].(spec := wanted.spec) else wanted;
      o := EndCall();
      if !o.Failed? {
        quotas := quotas[k := stored];
        writes := writes + 1;
      }
      err := o != Ok;
    }

    // ---- any number of attempts ---------------------------------------------

    /**
     A request is queued again for as long as it fails. However many attempts
     fail, at whatever call, and whether or not a failing write was committed: in
     the end the account exists, untouched if it did before, the binding is as one
     success would have left it, nothing else has changed, and each of the two
     objects has been written exactly once if that was needed, and not at all
     otherwise.
     */
    method UpdateServiceAccountUntilDone(ns: string, sa: string, clusterRole: string, awsAccount: string)
      modifies this`faults, this`accounts, this`bindings, this`writes
      ensures var k := (ns, sa);
              accounts ==
              if k in old(accounts) then old(accounts) else old(accounts)[k := WantedAccount(ns, awsAccount)]
      ensures var k, wanted := (ns, sa), WantedBinding(ns, sa, clusterRole);
              && bindings == old(bindings)[k := Ensured(Lookup(old(bindings), k), wanted)]
              && Satisfied(Lookup(bindings, k), wanted)
      ensures var k := (ns, sa);
              && bindings[k].roleRef == RoleRef("rbac.authorization.k8s.io", "ClusterRole", clusterRole)
              && bindings[k].subjects == [Subject("ServiceAccount", sa, ns)]
              && (k in old(bindings) ==>
                    && bindings[k].annotations == old(bindings)[k].annotations
                    && bindings[k].controlled == old(bindings)[k].controlled)
      ensures var k, wanted := (ns, sa), WantedBinding(ns, sa, clusterRole);
              writes == old(writes)
                        + (if k in old(accounts) then 0 else 1)
                        + (if Satisfied(Lookup(old(bindings), k), wanted) then 0 else 1)
    {
      ghost var k, wanted := (ns, sa), WantedBinding(ns, sa, clusterRole);
      var err := true;
      while err
        invariant accounts == old(accounts)
                  || (k !in old(accounts) && accounts == old(accounts)[k := WantedAccount(ns, awsAccount)])
        invariant SetOrNot(old(bindings), bindings, k, Ensured(Lookup(old(bindings), k), wanted))
        invariant writes == old(writes) + Changed(old(accounts), accounts) + Changed(old(bindings), bindings)
        invariant !err ==> k in accounts && Lookup(bindings, k) == Some(Ensured(Lookup(old(bindings), k), wanted))
        decreases |faults|, err
      {
        err := UpdateServiceAccount(ns, sa, clusterRole, awsAccount);
      }
    }

    /** The same for the quota. */
    method UpdateResourceQuotaUntilDone(k: Key, wanted: Quota)
      modifies this`faults, this`quotas, this`writes
      ensures quotas == old(quotas)[k := EnsuredQuota(Lookup(old(quotas), k), wanted)]
      ensures SatisfiedQuota(Lookup(quotas, k), wanted) && quotas[k].spec == wanted.spec
      ensures k in old(quotas) ==>
                quotas[k].annotations == old(quotas)[k].annotations && quotas[k].controlled == old(quotas)[k].controlled
      ensures writes == old(writes) + if SatisfiedQuota(Lookup(old(quotas), k), wanted) then 0 else 1
    {
      var err := true;
      while err
        invariant SetOrNot(old(quotas), quotas, k, EnsuredQuota(Lookup(old(quotas), k), wanted))
        invariant writes == old(writes) + Changed(old(quotas), quotas)
        invariant !err ==> Lookup(quotas, k) == Some(EnsuredQuota(Lookup(old(quotas), k), wanted))
        decreases |faults|, err
      {
        err := UpdateResourceQuota(k, wanted);
      }
    }
  }
}
