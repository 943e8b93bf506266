/**
 The part of the Kubernetes API the profile controller relies on, with the write
 history of every name. The resource version of an object is its position in that
 history, so versions are never reused, not even across deletion and re-creation.
 */
module ApiStore {
  import opened Prelude
  import opened NamespaceLabels

  type Name = string

  const PROFILE_FINALIZER := "profile-finalizer"
  const OWNER := "owner"

  datatype Profile = Profile(
    version: nat,
    owner: string,
    finalizers: seq<string>,
    deleting: bool,
    status: seq<string>)

  /** `controlled`: carries a controller reference to the profile of the same name. */
  datatype Namespace = Namespace(
    version: nat,
    annotations: map<string, string>,
    labels: Labels,
    controlled: bool)

  /** Why a reconcile may go on to the finalizer: it made the namespace, or saw one it owns. */
  datatype Evidence = MadeNamespace(at: nat) | SawNamespace(ns: Namespace)

  datatype NsWriter = NsOther | NsController(read: Profile, defaults: Labels)

  datatype ProfileWriter =
    | ProfileOther
    | Registering(evidence: Evidence)
    | Deregistering(evidence: Evidence)
    | Rejecting

  datatype NsCommit = NsCommit(writer: NsWriter, before: Option<Namespace>, after: Namespace)
  datatype ProfileCommit = ProfileCommit(writer: ProfileWriter, before: Option<Profile>, after: Profile)

  /** `statusSubresource`: writes through the main endpoint ignore a profile's status. */
  datatype Store = Store(
    profiles: map<Name, Profile>,
    namespaces: map<Name, Namespace>,
    config: Option<Labels>,
    profileLog: map<Name, seq<ProfileCommit>>,
    nsLog: map<Name, seq<NsCommit>>,
    statusSubresource: bool)

  predicate OwnedBy(ns: Namespace, owner: string) {
    OWNER in ns.annotations && ns.annotations[OWNER] == owner
  }

  function ProfileLog(st: Store, n: Name): seq<ProfileCommit> {
    Get(st.profileLog, n, [])
  }

  function NsLog(st: Store, n: Name): seq<NsCommit> {
    Get(st.nsLog, n, [])
  }

  // ---- unconditional commits ----------------------------------------------

  /** A deleting profile disappears with its last finalizer. */
  function PutProfile(st: Store, n: Name, writer: ProfileWriter, p: Profile): Store {
    var log := ProfileLog(st, n);
    var stored := p.(version := |log| + 1);
    st.(profiles := if stored.deleting && stored.finalizers == [] then st.profiles - {n} else st.profiles[n := stored],
        profileLog := st.profileLog[n := log + [ProfileCommit(writer, Lookup(st.profiles, n), stored)]])
  }

  function PutNamespace(st: Store, n: Name, writer: NsWriter, ns: Namespace): Store {
    var log := NsLog(st, n);
    var stored := ns.(version := |log| + 1);
    st.(namespaces := st.namespaces[n := stored],
        nsLog := st.nsLog[n := log + [NsCommit(writer, Lookup(st.namespaces, n), stored)]])
  }

  // ---- requests -----------------------------------------------------------

  function CreateNamespace(st: Store, n: Name, writer: NsWriter, ns: Namespace): Result<Store> {
    if n in st.namespaces then Failure else Success(PutNamespace(st, n, writer, ns))
  }

  /** Commits only if the version that was read is still current; an update that changes nothing is no commit. */
  function UpdateNamespace(st: Store, n: Name, writer: NsWriter, ns: Namespace): Result<Store> {
    if n !in st.namespaces || st.namespaces[n].version != ns.version then Failure
    else if st.namespaces[n] == ns then Success(st)
    else Success(PutNamespace(st, n, writer, ns))
  }

  function UpdateProfile(st: Store, n: Name, writer: ProfileWriter, p: Profile): Result<Store> {
    if n !in st.profiles || st.profiles[n].version != p.version then Failure
    else
      var merged := if st.statusSubresource then p.(status := st.profiles[n].status) else p;
      if st.profiles[n] == merged then Success(st)
      else Success(PutProfile(st, n, writer, merged))
  }
}
