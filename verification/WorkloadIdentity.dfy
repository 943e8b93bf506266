/** The IAM policy of a GCP service account: a list of pointers to bindings, edited in place. */
module WorkloadIdentity {
  import opened StringLists
  import opened Grants
  import Identities

  const WORKLOAD_IDENTITY_ROLE := "roles/iam.workloadIdentityUser"

  class Binding {
    var role: string
    var members: seq<string>

    constructor (role: string, members: seq<string>)
      ensures this.role == role && this.members == members
    {
      this.role, this.members := role, members;
    }
  }

  /** One line of a policy, without its identity as an object. */
  datatype Row = Row(role: string, members: seq<string>)

  /** Bindings may be shared: the same pointer may occur more than once. */
  class Policy {
    var bindings: seq<Binding>

    constructor (bindings: seq<Binding>)
      ensures this.bindings == bindings
    {
      this.bindings := bindings;
    }

    ghost function Rows(): seq<Row>
      reads this, bindings
    {
      seq(|bindings|, i requires 0 <= i < |bindings| reads this, bindings => Row(bindings[i].role, bindings[i].members))
    }

    /** Appends a fresh binding, whatever is there already; no existing binding changes. */
    method AddBinding(member: string)
      modifies this`bindings
      ensures Rows() == RowsAfter(old(Rows()), Grant(member))
      ensures |bindings| == |old(bindings)| + 1 && bindings[..|old(bindings)|] == old(bindings)
      ensures fresh(bindings[|old(bindings)|])
    {
      var newBinding := new Binding(WORKLOAD_IDENTITY_ROLE, [member]);
      bindings := bindings + [newBinding];
    }

    /** Takes the member out of every binding of the role, also where one is shared. */
    method RevokeBinding(member: string)
      modifies bindings
      ensures Rows() == RowsAfter(old(Rows()), Revoke(member))
      ensures bindings == old(bindings)
      ensures forall b :: b in bindings && b.role != WORKLOAD_IDENTITY_ROLE ==> b.members == old(b.members)
    {
      for i := 0 to |bindings|
        invariant bindings == old(bindings)
        invariant forall b :: b in bindings ==> b.role == old(b.role)
        invariant forall b :: b in bindings[..i] && b.role == WORKLOAD_IDENTITY_ROLE ==>
                    b.members == Without(old(b.members), member)
        invariant forall b :: b in bindings && (b !in bindings[..i] || b.role != WORKLOAD_IDENTITY_ROLE) ==>
                    b.members == old(b.members)
      {
        var binding := bindings[i];
        assert bindings[..i + 1] == bindings[..i] + [binding];
        if binding.role == WORKLOAD_IDENTITY_ROLE {
          RemoveTwice(old(binding.members), member);
          binding.members := RemoveString(binding.members, member);
        }
      }
      assert bindings[..|bindings|] == bindings;
      RevokedRows(old(Rows()), member);
    }
  }

  /** A log executed on the policy itself, pointers shared or not, leaves the rows the log leaves. */
  method Execute(policy: Policy, log: seq<Op>)
    modifies policy, policy.bindings
    ensures policy.Rows() == RowsAfterAll(old(policy.Rows()), log)
    ensures |policy.bindings| == |old(policy.bindings)| + Grantings(log)
    ensures policy.bindings[..|old(policy.bindings)|] == old(policy.bindings)
  {
    for i := 0 to |log|
      invariant policy.Rows() == RowsAfterAll(old(policy.Rows()), log[..i])
      invariant |policy.bindings| == |old(policy.bindings)| + Grantings(log[..i])
      invariant policy.bindings[..|old(policy.bindings)|] == old(policy.bindings)
      invariant forall b :: b in policy.bindings ==> b in old(policy.bindings) || fresh(b)
    {
      assert log[..i + 1][..i] == log[..i];
      assert forall k :: 0 <= k < |policy.bindings| ==>
                           policy.bindings[k] in old(policy.bindings) || fresh(policy.bindings[k]);
      match log[i] {
        case Grant(m) => policy.AddBinding(m);
        case Revoke(m) => policy.RevokeBinding(m);
      }
    }
    assert log[..|log|] == log;
  }

  // ---- the rows of a policy -----------------------------------------------

  function RowsAfter(rows: seq<Row>, op: Op): seq<Row> {
    match op
    case Grant(m) => rows + [Row(WORKLOAD_IDENTITY_ROLE, [m])]
    case Revoke(m) => RevokeIn(rows, m)
  }

  function RevokeIn(rows: seq<Row>, m: string): seq<Row> {
    if rows == [] then []
    else [if rows[0].role == WORKLOAD_IDENTITY_ROLE then rows[0].(members := Without(rows[0].members, m)) else rows[0]]
         + RevokeIn(rows[1..], m)
  }

  function RowsAfterAll(rows: seq<Row>, log: seq<Op>): seq<Row> {
    if log == [] then rows else RowsAfter(RowsAfterAll(rows, log[..|log| - 1]), log[|log| - 1])
  }

  lemma {:induction false} RevokedRows(rows: seq<Row>, m: string)
    ensures |RevokeIn(rows, m)| == |rows|
    ensures forall i :: 0 <= i < |rows| ==>
              (RevokeIn(rows, m)[i] ==
               if rows[i].role == WORKLOAD_IDENTITY_ROLE then rows[i].(members := Without(rows[i].members, m))
               else rows[i])
  {
    if rows != [] {
      RevokedRows(rows[1..], m);
    }
  }

  /** A grant leaves all rows as they are and puts one behind them; a revocation changes members only. */
  lemma RowsOfOneOperation(rows: seq<Row>, m: string)
    ensures RowsAfter(rows, Grant(m)) == rows + [Row("roles/iam.workloadIdentityUser", [m])]
    ensures |RowsAfter(rows, Revoke(m))| == |rows|
    ensures forall i :: 0 <= i < |rows| ==>
              RowsAfter(rows, Revoke(m))[i] ==
              if rows[i].role == "roles/iam.workloadIdentityUser"
              then Row(rows[i].role, Without(rows[i].members, m)) else rows[i]
  {
    RevokedRows(rows, m);
  }

  /** Some binding of the workload identity role lists the member. */
  predicate Bound(rows: seq<Row>, m: string) {
    exists i :: 0 <= i < |rows| && rows[i].role == WORKLOAD_IDENTITY_ROLE && m in rows[i].members
  }

  function BoundMembers(rows: seq<Row>): set<string> {
    if rows == [] then {}
    else (if rows[0].role == WORKLOAD_IDENTITY_ROLE then Elements(rows[0].members) else {}) + BoundMembers(rows[1..])
  }

  lemma {:induction false} BoundMembersAreBound(rows: seq<Row>, m: string)
    ensures m in BoundMembers(rows) <==> Bound(rows, m)
  {
    if rows != [] {
      BoundMembersAreBound(rows[1..], m);
      if Bound(rows[1..], m) {
        var i :| 0 <= i < |rows| - 1 && rows[1..][i].role == WORKLOAD_IDENTITY_ROLE && m in rows[1..][i].members;
        assert rows[i + 1].role == WORKLOAD_IDENTITY_ROLE && m in rows[i + 1].members;
      }
      if Bound(rows, m) && !(rows[0].role == WORKLOAD_IDENTITY_ROLE && m in rows[0].members) {
        var i :| 0 <= i < |rows| && rows[i].role == WORKLOAD_IDENTITY_ROLE && m in rows[i].members;
        assert rows[1..][i - 1].role == WORKLOAD_IDENTITY_ROLE && m in rows[1..][i - 1].members;
      }
    }
  }

  lemma {:induction false} GrantedMembers(rows: seq<Row>, m: string)
    ensures BoundMembers(RowsAfter(rows, Grant(m))) == BoundMembers(rows) + {m}
  {
    if rows == [] {
      assert BoundMembers([Row(WORKLOAD_IDENTITY_ROLE, [m])]) == {m};
    } else {
      assert (rows + [Row(WORKLOAD_IDENTITY_ROLE, [m])])[1..] == rows[1..] + [Row(WORKLOAD_IDENTITY_ROLE, [m])];
      GrantedMembers(rows[1..], m);
    }
  }

  lemma {:induction false} RevokedMembers(rows: seq<Row>, m: string)
    ensures BoundMembers(RevokeIn(rows, m)) == BoundMembers(rows) - {m}
  {
    if rows != [] {
      RevokedMembers(rows[1..], m);
      WithoutMembers(rows[0].members, m);
      assert RevokeIn(rows, m)[1..] == RevokeIn(rows[1..], m);
    }
  }

  // ---- any log of grants and revocations ----------------------------------

  function Grantings(log: seq<Op>): nat {
    if log == [] then 0 else Grantings(log[..|log| - 1]) + if log[|log| - 1].Grant? then 1 else 0
  }

  /**
   The bindings refine the same trust relation as the AWS document, although every
   grant appends a binding of its own. The number of bindings grows by the number
   of grants, roles never change, and bindings of other roles keep their members.
   */
  lemma {:induction false} BindingsRefineTrust(rows: seq<Row>, log: seq<Op>)
    ensures BoundMembers(RowsAfterAll(rows, log)) == Replay(BoundMembers(rows), log)
    ensures |RowsAfterAll(rows, log)| == |rows| + Grantings(log)
    ensures forall i :: 0 <= i < |rows| ==> RowsAfterAll(rows, log)[i].role == rows[i].role
    ensures forall i :: 0 <= i < |rows| && rows[i].role != WORKLOAD_IDENTITY_ROLE ==>
              RowsAfterAll(rows, log)[i] == rows[i]
  {
    if log != [] {
      var before, last := RowsAfterAll(rows, log[..|log| - 1]), log[|log| - 1];
      BindingsRefineTrust(rows, log[..|log| - 1]);
      GrantedMembers(before, last.who);
      RevokedMembers(before, last.who);
      RevokedRows(before, last.who);
    }
  }

  lemma BoundIffLastGranted(rows: seq<Row>, log: seq<Op>, m: string)
    ensures forall i :: 0 <= i < |log| && log[i].who == m && Untouched(log[i + 1..], m) ==>
              (Bound(RowsAfterAll(rows, log), m) <==> log[i].Grant?)
    ensures Untouched(log, m) ==> (Bound(RowsAfterAll(rows, log), m) <==> Bound(rows, m))
  {
    BindingsRefineTrust(rows, log);
    LastOperationWins(BoundMembers(rows), log, m);
    BoundMembersAreBound(rows, m);
    BoundMembersAreBound(RowsAfterAll(rows, log), m);
  }

  /** One revocation cancels any number of grants, in any bindings. */
  lemma OneRevocationSuffices(rows: seq<Row>, log: seq<Op>, m: string)
    ensures !Bound(RowsAfterAll(rows, log + [Revoke(m)]), m)
  {
    var all := log + [Revoke(m)];
    assert all[|log|].who == m && Untouched(all[|log| + 1..], m);
    BoundIffLastGranted(rows, all, m);
  }

  /** Revoking one namespace's account never removes another namespace's, nor another project's. */
  lemma RevocationIsIsolated(rows: seq<Row>, project: string, ns: string, sa: string,
                             project': string, ns': string, sa': string)
    requires '/' !in ns && '/' !in ns'
    requires project == project' || ('[' !in project && '[' !in project')
    requires ns != ns' || project != project'
    ensures Bound(RowsAfter(rows, Revoke(Identities.Member(project, ns, sa))), Identities.Member(project', ns', sa'))
            <==> Bound(rows, Identities.Member(project', ns', sa'))
  {
    var mine, other := Identities.Member(project, ns, sa), Identities.Member(project', ns', sa');
    Identities.MembersAreDistinct(project, ns, sa, project', ns', sa');
    RevokedMembers(rows, mine);
    BoundMembersAreBound(rows, other);
    BoundMembersAreBound(RowsAfter(rows, Revoke(mine)), other);
  }

  /**
   Both clouds stand in the same relation to the same log: started from the same
   trusted set, an AWS list and a GCP policy trust the same identities for ever.
   */
  lemma CloudsAgree(ids: seq<string>, rows: seq<Row>, log: seq<Op>, x: string)
    requires Elements(ids) == BoundMembers(rows)
    ensures x in ReplayList(ids, log) <==> Bound(RowsAfterAll(rows, log), x)
  {
    ListRefinesSet(ids, log);
    BindingsRefineTrust(rows, log);
    BoundMembersAreBound(RowsAfterAll(rows, log), x);
    assert x in ReplayList(ids, log) <==> x in Elements(ReplayList(ids, log));
  }
}
