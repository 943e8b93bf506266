/** The string formats of the cloud plugins: identities, ARNs and account names. */
module Identities {
  import opened Prelude

  // ---- first and last occurrence ------------------------------------------

  /** Index of the first `c` at or after `i`, or -1. */
  function IndexFrom(s: string, c: char, i: nat): (r: int)
    ensures -1 <= r < |s|
    decreases |s| - i
  {
    if i >= |s| then -1 else if s[i] == c then i else IndexFrom(s, c, i + 1)
  }

  function IndexOf(s: string, c: char): (r: int)
    ensures -1 <= r < |s|
  {
    IndexFrom(s, c, 0)
  }

  /** Index of the last `c` before `end`, or -1. */
  function LastIndexBefore(s: string, c: char, end: nat): (r: int)
    requires end <= |s|
    ensures -1 <= r < end
  {
    if end == 0 then -1 else if s[end - 1] == c then end - 1 else LastIndexBefore(s, c, end - 1)
  }

  function LastIndexOf(s: string, c: char): (r: int)
    ensures -1 <= r < |s|
  {
    LastIndexBefore(s, c, |s|)
  }

  lemma {:induction false} IndexFromIsFirst(s: string, c: char, i: nat)
    ensures var r := IndexFrom(s, c, i);
            if r == -1 then forall j :: i <= j < |s| ==> s[j] != c
            else i <= r && s[r] == c && forall j :: i <= j < r ==> s[j] != c
    decreases |s| - i
  {
    if i < |s| {
      IndexFromIsFirst(s, c, i + 1);
    }
  }

  lemma {:induction false} LastIndexBeforeIsLast(s: string, c: char, end: nat)
    requires end <= |s|
    ensures var r := LastIndexBefore(s, c, end);
            if r == -1 then forall j :: 0 <= j < end ==> s[j] != c
            else s[r] == c && forall j :: r < j < end ==> s[j] != c
  {
    if end > 0 {
      LastIndexBeforeIsLast(s, c, end - 1);
    }
  }

  lemma FirstIsUnique(a: string, c: char, b: string)
    requires c !in a
    ensures IndexOf(a + [c] + b, c) == |a|
  {
    var s := a + [c] + b;
    IndexFromIsFirst(s, c, 0);
    assert s[|a|] == c;
    assert forall j :: 0 <= j < |a| ==> s[j] == a[j];
  }

  lemma LastIsUnique(a: string, c: char, b: string)
    requires c !in b
    ensures LastIndexOf(a + [c] + b, c) == |a|
  {
    var s := a + [c] + b;
    LastIndexBeforeIsLast(s, c, |s|);
    assert s[|a|] == c;
    assert forall j :: |a| < j < |s| ==> s[j] == b[j - |a| - 1];
  }

  /** A string can be split at the first separator in one way only. */
  lemma SplitIsUnique(a: string, x: string, b: string, y: string, c: char)
    requires c !in a && c !in b && a + [c] + x == b + [c] + y
    ensures a == b && x == y
  {
    FirstIsUnique(a, c, x);
    FirstIsUnique(b, c, y);
    var s := a + [c] + x;
    assert s[..|a|] == a && s[..|b|] == b;
    assert s[|a| + 1..] == x && s[|b| + 1..] == y;
  }

  // ---- ARNs ---------------------------------------------------------------

  /** Everything after the first slash; all of an ARN that has none. */
  function IssuerOfProviderArn(arn: string): string {
    var i := IndexOf(arn, '/');
    if i < 0 then arn else arn[i + 1..]
  }

  function RoleNameOfRoleArn(arn: string): string {
    arn[LastIndexOf(arn, '/') + 1..]
  }

  /** `resource` is everything before the slash, as in arn:aws:iam::ACCOUNT:oidc-provider. */
  lemma IssuerInvertsProviderArn(resource: string, issuer: string)
    ensures IssuerOfProviderArn(resource + "/" + issuer) == issuer <==> '/' !in resource
  {
    var arn := resource + "/" + issuer;
    IndexFromIsFirst(arn, '/', 0);
    if '/' !in resource {
      FirstIsUnique(resource, '/', issuer);
      assert resource + ['/'] + issuer == arn;
    } else {
      var k :| 0 <= k < |resource| && resource[k] == '/';
      assert arn[k] == '/';
      assert |IssuerOfProviderArn(arn)| > |issuer|;
    }
  }

  lemma RoleNameInvertsRoleArn(path: string, name: string)
    ensures RoleNameOfRoleArn(path + "/" + name) == name <==> '/' !in name
  {
    var arn := path + "/" + name;
    if '/' !in name {
      LastIsUnique(path, '/', name);
      assert path + ['/'] + name == arn;
    } else {
      LastIndexBeforeIsLast(arn, '/', |arn|);
      assert arn[|path|] == '/';
    }
  }

  /** Without a slash there is nothing to cut off. */
  lemma WithoutSlashWhole(arn: string)
    requires '/' !in arn
    ensures IssuerOfProviderArn(arn) == arn && RoleNameOfRoleArn(arn) == arn
  {
    IndexFromIsFirst(arn, '/', 0);
    LastIndexBeforeIsLast(arn, '/', |arn|);
  }

  // ---- identities ---------------------------------------------------------

  /** The subject an AWS trust policy names. */
  function Subject(ns: string, sa: string): string {
    "system:serviceaccount:" + ns + ":" + sa
  }

  /** The member a GCP binding names. */
  function Member(project: string, ns: string, sa: string): string {
    "serviceAccount:" + project + ".svc.id.goog[" + ns + "/" + sa + "]"
  }

  /** Namespace names contain no ':' (section 2.1 of RFC 1123), so no two service accounts share a subject. */
  lemma SubjectsAreDistinct(ns: string, sa: string, ns': string, sa': string)
    requires ':' !in ns && ':' !in ns'
    ensures Subject(ns, sa) == Subject(ns', sa') <==> ns == ns' && sa == sa'
  {
    var prefix := "system:serviceaccount:";
    if Subject(ns, sa) == Subject(ns', sa') {
      assert Subject(ns, sa)[|prefix|..] == ns + [':'] + sa;
      assert Subject(ns', sa')[|prefix|..] == ns' + [':'] + sa';
      SplitIsUnique(ns, sa, ns', sa', ':');
    }
  }

  function AccountPart(ns: string, sa: string): string {
    ns + "/" + sa + "]"
  }

  function ProjectPart(project: string): string {
    "serviceAccount:" + project + ".svc.id.goog"
  }

  lemma MemberParts(project: string, ns: string, sa: string)
    ensures Member(project, ns, sa) == ProjectPart(project) + ['['] + AccountPart(ns, sa)
  {
  }

  lemma ProjectPartsAreDistinct(project: string, project': string)
    ensures ProjectPart(project) == ProjectPart(project') ==> project == project'
  {
    var head, head' := ProjectPart(project), ProjectPart(project');
    assert head[15..|head| - 12] == project && head'[15..|head'| - 12] == project';
  }

  lemma AccountPartsAreDistinct(ns: string, sa: string, ns': string, sa': string)
    requires '/' !in ns && '/' !in ns' && AccountPart(ns, sa) == AccountPart(ns', sa')
    ensures ns == ns' && sa == sa'
  {
    assert AccountPart(ns, sa) == ns + ['/'] + (sa + "]") && AccountPart(ns', sa') == ns' + ['/'] + (sa' + "]");
    SplitIsUnique(ns, sa + "]", ns', sa' + "]", '/');
    assert (sa + "]")[..|sa|] == sa && (sa' + "]")[..|sa'|] == sa';
  }

  lemma MembersAreDistinct(project: string, ns: string, sa: string, project': string, ns': string, sa': string)
    requires '/' !in ns && '/' !in ns'
    requires project == project' || ('[' !in project && '[' !in project')
    ensures Member(project, ns, sa) == Member(project', ns', sa') <==> project == project' && ns == ns' && sa == sa'
  {
    if Member(project, ns, sa) == Member(project', ns', sa') {
      var head, head' := ProjectPart(project), ProjectPart(project');
      var rest, rest' := AccountPart(ns, sa), AccountPart(ns', sa');
      MemberParts(project, ns, sa);
      MemberParts(project', ns', sa');
      ProjectPartsAreDistinct(project, project');
      if project == project' {
        assert (head + ['['] + rest)[|head| + 1..] == rest;
        assert (head' + ['['] + rest')[|head'| + 1..] == rest';
      } else {
        SplitIsUnique(head, rest, head', rest', '[');
      }
      AccountPartsAreDistinct(ns, sa, ns', sa');
    }
  }

  /** The identities as the two clouds write them. */
  lemma IdentityExamples()
    ensures Subject("ns1", "sa1") == "system:serviceaccount:ns1:sa1"
    ensures Member("kfctl", "kubeflow-user1", "default-editor") ==
            "serviceAccount:kfctl.svc.id.goog[kubeflow-user1/default-editor]"
  {
    assert "serviceAccount:" + "kfctl" == "serviceAccount:kfctl";
    assert "serviceAccount:kfctl" + ".svc.id.goog[" == "serviceAccount:kfctl.svc.id.goog[";
    assert "serviceAccount:kfctl.svc.id.goog[" + "kubeflow-user1" == "serviceAccount:kfctl.svc.id.goog[kubeflow-user1";
    assert "serviceAccount:kfctl.svc.id.goog[kubeflow-user1" + "/"
           == "serviceAccount:kfctl.svc.id.goog[kubeflow-user1/";
    assert "serviceAccount:kfctl.svc.id.goog[kubeflow-user1/" + "default-editor"
           == "serviceAccount:kfctl.svc.id.goog[kubeflow-user1/default-editor";
  }

  // ---- the project of a GCP service account -------------------------------

  const GCP_SA_SUFFIX := ".iam.gserviceaccount.com"

  /** `Crash`: slicing off the suffix fails, the name is too short. */
  datatype ProjectReply = Project(id: string) | NotAnAccount | NoProject | Crash

  /** The first '.' at or after `i`, if no line ends before it. */
  function DotFrom(s: string, i: nat): (d: Option<nat>)
    ensures d.Some? ==> i <= d.value < |s| && s[d.value] == '.' && '.' !in s[i..d.value] && '\n' !in s[i..d.value]
    decreases |s| - i
  {
    if i >= |s| || s[i] == '\n' then None
    else if s[i] == '.' then Some(i)
    else
      var d := DotFrom(s, i + 1);
      assert d.Some? ==> s[i..d.value] == [s[i]] + s[i + 1..d.value];
      d
  }

  /** Start and end of the shortest text between an '@' and a '.', at the first '@' that has one. */
  function FindProject(s: string, i: nat): Option<(nat, nat)>
    decreases |s| - i
  {
    if i >= |s| then None
    else if s[i] == '@' && DotFrom(s, i + 1).Some? then Some((i + 1, DotFrom(s, i + 1).value))
    else FindProject(s, i + 1)
  }

  lemma {:induction false} FoundProject(s: string, i: nat)
    ensures FindProject(s, i).Some? ==>
              var (a, b) := FindProject(s, i).value;
              i < a <= b < |s| && '.' !in s[a..b] && '\n' !in s[a..b]
    decreases |s| - i
  {
    if i < |s| {
      FoundProject(s, i + 1);
    }
  }

  function GetProjectID(account: string): ProjectReply {
    if |account| < |GCP_SA_SUFFIX| then Crash
    else if account[|account| - |GCP_SA_SUFFIX|..] != GCP_SA_SUFFIX then NotAnAccount
    else
      var m := FindProject(account, 0);
      FoundProject(account, 0);
      if m.None? then NoProject else Project(account[m.value.0..m.value.1])
  }

  lemma {:induction false} DotAhead(s: string, i: nat, k: nat)
    requires i <= k < |s| && s[k] == '.' && '\n' !in s
    ensures DotFrom(s, i).Some?
    decreases k - i
  {
    if i < k && s[i] != '.' {
      DotAhead(s, i + 1, k);
    }
  }

  lemma SuffixHasNoAt(s: string, i: nat)
    requires |s| >= |GCP_SA_SUFFIX| && s[|s| - |GCP_SA_SUFFIX|..] == GCP_SA_SUFFIX && i < |s| && s[i] == '@'
    ensures i < |s| - |GCP_SA_SUFFIX|
  {
    var cut := |s| - |GCP_SA_SUFFIX|;
    forall k | cut <= k < |s|
      ensures s[k] != '@'
    {
      assert s[k] == s[cut..][k - cut];
    }
  }

  lemma {:induction false} FindsAProject(s: string, i: nat)
    requires |s| >= |GCP_SA_SUFFIX| && s[|s| - |GCP_SA_SUFFIX|..] == GCP_SA_SUFFIX && '\n' !in s
    ensures FindProject(s, i).Some? <==> exists k :: i <= k < |s| && s[k] == '@'
    decreases |s| - i
  {
    if i < |s| {
      FindsAProject(s, i + 1);
      if s[i] == '@' {
        var cut := |s| - |GCP_SA_SUFFIX|;
        assert s[cut] == s[cut..][0] == '.';
        SuffixHasNoAt(s, i);
        DotAhead(s, i + 1, cut);
      }
    }
  }

  /** Past the suffix check, on a name without line breaks, the project is found exactly when there is an '@'. */
  lemma NoProjectIffNoAt(account: string)
    requires |account| >= |GCP_SA_SUFFIX| && account[|account| - |GCP_SA_SUFFIX|..] == GCP_SA_SUFFIX
    requires '\n' !in account
    ensures GetProjectID(account).NoProject? <==> '@' !in account
    ensures GetProjectID(account).Project? <==> '@' in account
  {
    FindsAProject(account, 0);
  }

  lemma {:induction false} SkipToAt(s: string, i: nat, k: nat)
    requires i <= k < |s| && (forall j :: i <= j < k ==> s[j] != '@')
    ensures FindProject(s, i) == FindProject(s, k)
    decreases k - i
  {
    if i < k {
      SkipToAt(s, i + 1, k);
    }
  }

  lemma {:induction false} FirstDot(s: string, i: nat, k: nat)
    requires i <= k < |s| && s[k] == '.' && (forall j :: i <= j < k ==> s[j] != '.' && s[j] != '\n')
    ensures DotFrom(s, i) == Some(k)
    decreases k - i
  {
    if i < k {
      FirstDot(s, i + 1, k);
    }
  }

  /** The project is recovered from name@project+suffix exactly when it has neither a dot nor a line break. */
  lemma ProjectIsRecovered(name: string, project: string)
    requires '@' !in name
    ensures GetProjectID(name + "@" + project + ".iam.gserviceaccount.com") == Project(project)
            <==> '.' !in project && '\n' !in project
  {
    var s := name + "@" + project + GCP_SA_SUFFIX;
    assert s[|s| - |GCP_SA_SUFFIX|..] == GCP_SA_SUFFIX;
    FoundProject(s, 0);
    if '.' !in project && '\n' !in project {
      var a, b := |name| + 1, |name| + 1 + |project|;
      assert s[|name|] == '@' && s[a..b] == project && s[b] == '.';
      assert forall j :: a <= j < b ==> s[j] == project[j - a];
      assert forall j :: 0 <= j < |name| ==> s[j] == name[j];
      SkipToAt(s, 0, |name|);
      FirstDot(s, a, b);
    }
  }

  /** A project with a dot in it is cut off there. */
  lemma DottedProjectIsCut(name: string, head: string, tail: string)
    requires '@' !in name && '.' !in head && '\n' !in head
    ensures GetProjectID(name + "@" + (head + "." + tail) + GCP_SA_SUFFIX) == Project(head)
  {
    var s := name + "@" + (head + "." + tail) + GCP_SA_SUFFIX;
    assert s[|s| - |GCP_SA_SUFFIX|..] == GCP_SA_SUFFIX;
    var a, b := |name| + 1, |name| + 1 + |head|;
    assert s[|name|] == '@' && s[a..b] == head && s[b] == '.';
    assert forall j :: a <= j < b ==> s[j] == head[j - a];
    assert forall j :: 0 <= j < |name| ==> s[j] == name[j];
    SkipToAt(s, 0, |name|);
    FirstDot(s, a, b);
  }

  /** An '@' at `i`, and the next '.' at `j` on the same line. */
  predicate ProjectAt(s: string, i: nat, j: nat) {
    i < j < |s| && s[i] == '@' && s[j] == '.' && '.' !in s[i + 1..j] && '\n' !in s[i + 1..j]
  }

  lemma ProjectHasDot(s: string, i: nat, j: nat)
    requires ProjectAt(s, i, j)
    ensures DotFrom(s, i + 1) == Some(j)
  {
    assert forall k :: i < k < j ==> s[k] == s[i + 1..j][k - i - 1];
    FirstDot(s, i + 1, j);
  }

  lemma {:induction false} FindsTheFirst(s: string, i: nat)
    ensures match FindProject(s, i)
            case None => forall k, j :: i <= k ==> !ProjectAt(s, k, j)
            case Some(m) => i < m.0 && ProjectAt(s, m.0 - 1, m.1) &&
                            forall k, j :: i <= k < m.0 - 1 ==> !ProjectAt(s, k, j)
    decreases |s| - i
  {
    if i < |s| {
      FindsTheFirst(s, i + 1);
      if s[i] == '@' && DotFrom(s, i + 1).None? {
        forall j | ProjectAt(s, i, j)
          ensures false
        {
          ProjectHasDot(s, i, j);
        }
      }
    }
  }

  predicate HasSuffix(account: string) {
    |account| >= |GCP_SA_SUFFIX| && account[|account| - |GCP_SA_SUFFIX|..] == GCP_SA_SUFFIX
  }

  /**
   All four replies, for every account name: a name shorter than the suffix makes
   the program crash; without the suffix it is no account; with it, a project is
   found exactly when some '@' is followed by a dot on the same line, and it is
   the text between the first such '@' and the next dot.
   */
  lemma RepliesOfGetProjectID(account: string)
    ensures GetProjectID(account).Crash? <==> |account| < |GCP_SA_SUFFIX|
    ensures GetProjectID(account).NotAnAccount? <==> |account| >= |GCP_SA_SUFFIX| && !HasSuffix(account)
    ensures GetProjectID(account).NoProject? <==> HasSuffix(account) && forall i, j :: !ProjectAt(account, i, j)
    ensures GetProjectID(account).Project? ==>
              exists i: nat, j: nat :: ProjectAt(account, i, j) && GetProjectID(account).id == account[i + 1..j]
                                       && forall k: nat, l: nat :: k < i ==> !ProjectAt(account, k, l)
  {
    FindsTheFirst(account, 0);
    if HasSuffix(account) && FindProject(account, 0).Some? {
      var m := FindProject(account, 0).value;
      assert ProjectAt(account, m.0 - 1, m.1) && GetProjectID(account).id == account[m.0 - 1 + 1..m.1];
    }
  }

  /** No account at all, the default of the field, crashes the program. */
  lemma EmptyAccountCrashes()
    ensures GetProjectID("") == Crash
  {
    RepliesOfGetProjectID("");
  }
}
