/** The plugin list of a profile: adding the default plugin, and decoding the list. */
module Plugins {
  import opened Prelude

  const WORKLOAD_IDENTITY := "WorkloadIdentity"
  const AWS_IAM := "AwsIamForServiceAccount"

  /** `spec` is raw text. */
  datatype Entry = Entry(kind: string, spec: string)

  datatype Plugin = GcpWorkloadIdentity(account: string) | AwsIam(role: string)

  /** Decoding a spec of a kind yields the one field of that plugin, or fails. */
  type Decoder = (string, string) -> Option<string>

  predicate Recognised(kind: string) {
    kind == WORKLOAD_IDENTITY || kind == AWS_IAM
  }

  function DefaultEntry(identity: string): Entry {
    Entry(WORKLOAD_IDENTITY, "{\"gcpServiceAccount\": \"" + identity + "\"}")
  }

  predicate HasKind(entries: seq<Entry>, kind: string) {
    exists i :: 0 <= i < |entries| && entries[i].kind == kind
  }

  function Patched(entries: seq<Entry>, identity: string): seq<Entry> {
    if identity != "" && !HasKind(entries, WORKLOAD_IDENTITY) then entries + [DefaultEntry(identity)] else entries
  }

  function PluginOf(entry: Entry, decode: Decoder): Option<Plugin>
    requires Recognised(entry.kind)
  {
    match decode(entry.kind, entry.spec)
    case None => None
    case Some(field) => Some(if entry.kind == WORKLOAD_IDENTITY then GcpWorkloadIdentity(field) else AwsIam(field))
  }

  /** The recognised plugins in order; one that cannot be decoded spoils the list. */
  function Decoded(entries: seq<Entry>, decode: Decoder): Result<seq<Plugin>> {
    if entries == [] then Success([])
    else
      var init, last := entries[..|entries| - 1], entries[|entries| - 1];
      match Decoded(init, decode)
      case Failure => Failure
      case Success(plugins) =>
        if !Recognised(last.kind) then Success(plugins)
        else match PluginOf(last, decode)
             case None => Failure
             case Some(p) => Success(plugins + [p])
  }

  class ProfileObject {
    var plugins: seq<Entry>
    var stored: seq<Entry>

    constructor (plugins: seq<Entry>)
      ensures this.plugins == this.stored == plugins
    {
      this.plugins, stored := plugins, plugins;
    }

    /** Appends the default plugin where its kind is missing, and writes the profile back in any case. */
    method PatchDefaultPluginSpec(identity: string, o: Outcome) returns (err: bool)
      modifies this
      ensures plugins == Patched(old(plugins), identity)
      ensures stored == if o.Failed? then old(stored) else plugins
      ensures err <==> o != Ok
    {
      var byKind: map<string, Entry> := map[];
      for i := 0 to |plugins|
        invariant plugins == old(plugins)
        invariant stored == old(stored)
        invariant forall k :: k in byKind <==> HasKind(plugins[..i], k)
      {
        assert plugins[..i + 1] == plugins[..i] + [plugins[i]];
        KindsGrow(plugins[..i], plugins[i]);
        byKind := byKind[plugins[i].kind := plugins[i]];
      }
      assert plugins[..|plugins|] == plugins;
      if identity != "" {
        if WORKLOAD_IDENTITY !in byKind {
          plugins := plugins + [DefaultEntry(identity)];
        }
      }
      if !o.Failed? {
        stored := plugins;
      }
      err := o != Ok;
    }
  }

  lemma KindsGrow(entries: seq<Entry>, last: Entry)
    ensures forall k :: HasKind(entries + [last], k) <==> HasKind(entries, k) || k == last.kind
  {
    var all := entries + [last];
    forall k
      ensures HasKind(all, k) <==> HasKind(entries, k) || k == last.kind
    {
      assert all[|entries|] == last;
      if HasKind(entries, k) {
        var i :| 0 <= i < |entries| && entries[i].kind == k;
        assert all[i].kind == k;
      }
    }
  }

  method GetPluginSpec(entries: seq<Entry>, decode: Decoder) returns (r: Result<seq<Plugin>>)
    ensures r == Decoded(entries, decode)
  {
    var plugins: seq<Plugin> := [];
    for i := 0 to |entries|
      invariant Decoded(entries[..i], decode) == Success(plugins)
    {
      assert entries[..i + 1][..i] == entries[..i];
      if !Recognised(entries[i].kind) {
        continue;
      }
      var p := PluginOf(entries[i], decode);
      if p.None? {
        FailureSpreads(entries, decode, i + 1);
        return Failure;
      }
      plugins := plugins + [p.value];
    }
    assert entries[..|entries|] == entries;
    r := Success(plugins);
  }

  lemma {:induction false} FailureSpreads(entries: seq<Entry>, decode: Decoder, i: nat)
    requires i <= |entries| && Decoded(entries[..i], decode).Failure?
    ensures Decoded(entries, decode).Failure?
    decreases |entries| - i
  {
    if i < |entries| {
      assert entries[..i + 1][..i] == entries[..i];
      FailureSpreads(entries, decode, i + 1);
    } else {
      assert entries[..i] == entries;
    }
  }

  // ---- properties ---------------------------------------------------------

  lemma PatchingIsIdempotent(entries: seq<Entry>, identity: string)
    ensures entries <= Patched(entries, identity)
    ensures Patched(Patched(entries, identity), identity) == Patched(entries, identity)
    ensures identity != "" ==> HasKind(Patched(entries, identity), WORKLOAD_IDENTITY)
  {
    KindsGrow(entries, DefaultEntry(identity));
  }

  /** The recognised entries of a list, in order. */
  function RecognisedEntries(entries: seq<Entry>): (r: seq<Entry>)
    ensures forall e :: e in r ==> e in entries && Recognised(e.kind)
  {
    if entries == [] then []
    else RecognisedEntries(entries[..|entries| - 1])
         + if Recognised(entries[|entries| - 1].kind) then [entries[|entries| - 1]] else []
  }

  /** The entry is recognised and its spec can be decoded, as this plugin. */
  predicate DecodesAs(entry: Entry, decode: Decoder, p: Plugin) {
    Recognised(entry.kind) && PluginOf(entry, decode) == Some(p)
  }

  predicate Decodable(entry: Entry, decode: Decoder) {
    Recognised(entry.kind) ==> PluginOf(entry, decode).Some?
  }

  lemma {:induction false} DecodesIff(entries: seq<Entry>, decode: Decoder)
    ensures Decoded(entries, decode).Success? <==> forall e :: e in entries ==> Decodable(e, decode)
  {
    if entries != [] {
      var init, last := entries[..|entries| - 1], entries[|entries| - 1];
      DecodesIff(init, decode);
      assert entries == init + [last];
      assert forall e :: e in entries <==> e in init || e == last;
      assert last in entries;
      assert Decoded(entries, decode).Success? <==> Decoded(init, decode).Success? && Decodable(last, decode);
    }
  }

  /** Decoding succeeds exactly when every recognised entry decodes, and keeps them one for one, in order. */
  lemma {:induction false} DecodingKeepsOrder(entries: seq<Entry>, decode: Decoder)
    ensures Decoded(entries, decode).Success? <==> forall e :: e in entries ==> Decodable(e, decode)
    ensures var known, r := RecognisedEntries(entries), Decoded(entries, decode);
            r.Success? ==> |r.value| == |known| &&
                           forall i :: 0 <= i < |known| ==> DecodesAs(known[i], decode, r.value[i])
  {
    DecodesIff(entries, decode);
    if entries != [] {
      DecodingKeepsOrder(entries[..|entries| - 1], decode);
    }
  }

  lemma {:induction false} KindIsRecognised(entries: seq<Entry>, i: nat)
    requires i < |entries| && Recognised(entries[i].kind)
    ensures entries[i] in RecognisedEntries(entries)
  {
    if i < |entries| - 1 {
      KindIsRecognised(entries[..|entries| - 1], i);
    }
  }

  /** With a default identity, a list that decodes after patching always has a workload identity plugin. */
  lemma PatchedListHasWorkloadIdentity(entries: seq<Entry>, identity: string, decode: Decoder)
    requires identity != "" && Decoded(Patched(entries, identity), decode).Success?
    ensures exists j :: 0 <= j < |Decoded(Patched(entries, identity), decode).value| &&
                        Decoded(Patched(entries, identity), decode).value[j].GcpWorkloadIdentity?
  {
    var all := Patched(entries, identity);
    PatchingIsIdempotent(entries, identity);
    var i :| 0 <= i < |all| && all[i].kind == WORKLOAD_IDENTITY;
    KindIsRecognised(all, i);
    var known := RecognisedEntries(all);
    var j :| 0 <= j < |known| && known[j] == all[i];
    DecodingKeepsOrder(all, decode);
    assert DecodesAs(known[j], decode, Decoded(all, decode).value[j]);
  }

  /** Patching changes the list exactly if an identity is configured and no entry of the kind is there. */
  lemma PatchedIff(entries: seq<Entry>, identity: string)
    ensures Patched(entries, identity) == entries <==> identity == "" || HasKind(entries, "WorkloadIdentity")
    ensures Patched(entries, identity) != entries ==>
              |Patched(entries, identity)| == |entries| + 1
              && Patched(entries, identity)[|entries|].kind == "WorkloadIdentity"
  {
    assert Patched(entries, identity) != entries ==> |Patched(entries, identity)| == |entries| + 1;
  }

  /** What each kind of entry decodes to, and that other kinds are passed over. */
  lemma DecodedOne(kind: string, spec: string, decode: Decoder)
    ensures Decoded([Entry(kind, spec)], decode) ==
            match decode(kind, spec)
            case None =>
              if kind == "WorkloadIdentity" || kind == "AwsIamForServiceAccount" then Failure else Success([])
            case Some(field) =>
              if kind == "WorkloadIdentity" then Success([GcpWorkloadIdentity(field)])
              else if kind == "AwsIamForServiceAccount" then Success([AwsIam(field)])
              else Success([])
  {
    var entry := Entry(kind, spec);
    var one := [entry];
    assert one[..|one| - 1] == [] && one[|one| - 1] == entry;
    assert Decoded(one[..|one| - 1], decode) == Success([]);
    if Recognised(kind) && decode(kind, spec).Some? {
      assert [] + [PluginOf(entry, decode).value] == [PluginOf(entry, decode).value];
    }
  }

  /** The default plugin carries the configured identity, through its spec and back. */
  lemma DefaultCarriesIdentity(identity: string, decode: Decoder)
    requires identity != ""
    requires decode("WorkloadIdentity", "{\"gcpServiceAccount\": \"" + identity + "\"}") == Some(identity)
    ensures Decoded(Patched([], identity), decode) == Success([GcpWorkloadIdentity(identity)])
  {
    var entry := Entry("WorkloadIdentity", "{\"gcpServiceAccount\": \"" + identity + "\"}");
    assert Patched([], identity) == [entry];
    DecodedOne(entry.kind, entry.spec, decode);
  }
}
