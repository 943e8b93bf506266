/**
 The trust policy of an AWS role as a JSON document, and the two rewriters that
 add a service account to it and remove one from it.
 */
module TrustPolicy {
  import opened Prelude
  import opened StringLists
  import opened Grants
  import Identities

  datatype Json =
    | Str(text: string)
    | Scalar(raw: string)        // a number or a boolean
    | Null
    | Arr(items: seq<Json>)
    | Obj(fields: map<string, Json>)

  const AUDIENCE := "sts.amazonaws.com"

  // ---- reading ------------------------------------------------------------

  function Field(j: Json, key: string): Option<Json> {
    if j.Obj? then Lookup(j.fields, key) else None
  }

  /** An array as its elements, null as none, anything else as itself alone. */
  function Elems(j: Json): seq<Json> {
    match j
    case Arr(items) => items
    case Null => []
    case _ => [j]
  }

  /** The string value of an element; elements that are no strings read as empty. */
  function StrOf(j: Json): string {
    if j.Str? then j.text else ""
  }

  /** The text of a value as it stands in a document. */
  type Printer = Json -> string

  /** What the rewriters take from a document: the provider it trusts, and for which identities. */
  datatype Policy = Policy(arn: string, ids: seq<string>)

  /** The ARN of a statement's identity provider, empty if there is none; of a list or an object it is the raw text. */
  function ProviderArn(statement: Json, raw: Printer): string {
    match Field(statement, "Principal")
    case None => ""
    case Some(principal) =>
      match Field(principal, "Federated")
      case None => ""
      case Some(Null) => ""
      case Some(Str(s)) => s
      case Some(Scalar(s)) => s
      case Some(value) => raw(value)
  }

  function SubjectKey(arn: string): string {
    Identities.IssuerOfProviderArn(arn) + ":sub"
  }

  function AudienceKey(arn: string): string {
    Identities.IssuerOfProviderArn(arn) + ":aud"
  }

  /** The conditions of a statement; none if they are not an object. */
  function Conditions(statement: Json): map<string, Json> {
    match Field(statement, "Condition")
    case None => map[]
    case Some(c) =>
      match Field(c, "StringEquals")
      case Some(Obj(fields)) => fields
      case _ => map[]
  }

  function Strings(items: seq<Json>): seq<string> {
    seq(|items|, i requires 0 <= i < |items| => StrOf(items[i]))
  }

  /** The identities listed under a condition key, in their order. */
  function IdentitiesUnder(conditions: map<string, Json>, key: string): seq<string> {
    if key in conditions then Strings(Elems(conditions[key])) else []
  }

  /** The first statement of a document, if it has a list of statements that is not empty. */
  function FirstStatement(doc: Json): Option<Json> {
    match Field(doc, "Statement")
    case Some(Arr(items)) => if items != [] then Some(items[0]) else None
    case _ => None
  }

  /** The rewriters take the first statement for granted: without one, the program stops. */
  predicate Readable(doc: Json) {
    FirstStatement(doc).Some?
  }

  function Read(doc: Json, raw: Printer): Policy
    requires Readable(doc)
  {
    var statement := FirstStatement(doc).value;
    var arn := ProviderArn(statement, raw);
    Policy(arn, IdentitiesUnder(Conditions(statement), SubjectKey(arn)))
  }

  // ---- writing ------------------------------------------------------------

  function StrItems(ids: seq<string>): seq<Json> {
    seq(|ids|, i requires 0 <= i < |ids| => Str(ids[i]))
  }

  function StrArr(ids: seq<string>): Json {
    Arr(StrItems(ids))
  }

  /** An empty list of subjects would be written as null, so its key is left out. */
  function ConditionsFor(arn: string, ids: seq<string>): Json {
    Obj(map["StringEquals" := Obj(
      if ids == [] then map[AudienceKey(arn) := StrArr([AUDIENCE])]
      else map[AudienceKey(arn) := StrArr([AUDIENCE]), SubjectKey(arn) := StrArr(ids)])])
  }

  function StatementFor(arn: string, conditions: Json): Json {
    Obj(map["Effect" := Str("Allow"),
            "Action" := Str("sts:AssumeRoleWithWebIdentity"),
            "Principal" := Obj(map["Federated" := Str(arn)]),
            "Condition" := conditions])
  }

  function PolicyDocument(statement: Json): Json {
    Obj(map["Version" := Str("2012-10-17"), "Statement" := Arr([statement])])
  }

  /** The document that trusts exactly these identities of this provider. */
  function Document(p: Policy): Json {
    PolicyDocument(StatementFor(p.arn, ConditionsFor(p.arn, p.ids)))
  }

  function Trusted(doc: Json, raw: Printer): seq<string>
    requires Readable(doc)
  {
    Read(doc, raw).ids
  }

  /** What is left of a document when one of the rewriters has been over it. */
  function Normal(doc: Json, raw: Printer): Json
    requires Readable(doc)
  {
    Document(Read(doc, raw))
  }

  /** A document the rewriters could have written themselves. */
  predicate Canonical(doc: Json, raw: Printer) {
    Readable(doc) && doc == Normal(doc, raw)
  }

  // ---- the rewriters ------------------------------------------------------

  function Added(doc: Json, x: string, raw: Printer): Json
    requires Readable(doc)
  {
    var p := Read(doc, raw);
    if x in p.ids then doc else Document(p.(ids := p.ids + [x]))
  }

  function Removed(doc: Json, x: string, raw: Printer): Json
    requires Readable(doc)
  {
    var p := Read(doc, raw);
    Document(p.(ids := Without(p.ids, x)))
  }

  /** What a rewriter answers; `AlreadyTrusted` and `BadDocument` are its two errors. */
  datatype Answer = Written(doc: Json) | AlreadyTrusted | BadDocument | Crash

  /** A text is None if it is no JSON. Only addition looks at the error of decoding it. */
  function AddAnswer(text: Option<Json>, x: string, raw: Printer): Answer {
    match text
    case None => BadDocument
    case Some(doc) =>
      if !doc.Obj? && !doc.Null? then BadDocument
      else if !Readable(doc) then Crash
      else if x in Trusted(doc, raw) then AlreadyTrusted
      else Written(Added(doc, x, raw))
  }

  function RemoveAnswer(text: Option<Json>, x: string, raw: Printer): Answer {
    if text.None? || !Readable(text.value) then Crash else Written(Removed(text.value, x, raw))
  }

  method AddServiceAccount(text: Option<Json>, ns: string, sa: string, raw: Printer) returns (answer: Answer)
    ensures answer == AddAnswer(text, Identities.Subject(ns, sa), raw)
  {
    answer := AddIdentity(text, Identities.Subject(ns, sa), raw);
  }

  method AddIdentity(text: Option<Json>, trustIdentity: string, raw: Printer) returns (answer: Answer)
    ensures answer == AddAnswer(text, trustIdentity, raw)
  {
    if text.None? || (!text.value.Obj? && !text.value.Null?) {
      return BadDocument;
    }
    var first := FirstStatement(text.value);
    if first.None? {
      return Crash;
    }
    var arn := ProviderArn(first.value, raw);
    var key := SubjectKey(arn);
    var identities := Conditions(first.value);
    var original: seq<string> := [];
    if key in identities {
      var found;
      original, found := ScanIdentities(Elems(identities[key]), trustIdentity);
      if found {
        return AlreadyTrusted;
      }
    }
    var ids := original + [trustIdentity];
    answer := Written(PolicyDocument(StatementFor(arn, ConditionsFor(arn, ids))));
  }

  /** The identities listed, up to the one looked for. */
  method ScanIdentities(values: seq<Json>, trustIdentity: string) returns (original: seq<string>, found: bool)
    ensures found <==> trustIdentity in Strings(values)
    ensures !found ==> original == Strings(values)
  {
    original := [];
    for i := 0 to |values|
      invariant original == Strings(values)[..i]
      invariant trustIdentity !in original
    {
      if StrOf(values[i]) == trustIdentity {
        assert Strings(values)[i] == trustIdentity;
        return original, true;
      }
      original := original + [StrOf(values[i])];
    }
    found := false;
  }

  method RemoveServiceAccount(text: Option<Json>, ns: string, sa: string, raw: Printer) returns (answer: Answer)
    ensures answer == RemoveAnswer(text, Identities.Subject(ns, sa), raw)
  {
    answer := RemoveIdentity(text, Identities.Subject(ns, sa), raw);
  }

  method RemoveIdentity(text: Option<Json>, trustIdentity: string, raw: Printer) returns (answer: Answer)
    ensures answer == RemoveAnswer(text, trustIdentity, raw)
  {
    var first := if text.Some? then FirstStatement(text.value) else None;
    if first.None? {
      return Crash;
    }
    var arn := ProviderArn(first.value, raw);
    var key := SubjectKey(arn);
    var identities := Conditions(first.value);
    var kept: seq<string> := [];
    if key in identities {
      kept := KeepOthers(Elems(identities[key]), trustIdentity);
    }
    answer := Written(PolicyDocument(StatementFor(arn, ConditionsFor(arn, kept))));
  }

  /** The identities listed, but for one. */
  method KeepOthers(values: seq<Json>, trustIdentity: string) returns (kept: seq<string>)
    ensures kept == Without(Strings(values), trustIdentity)
  {
    kept := [];
    ghost var all := Strings(values);
    for i := 0 to |values|
      invariant kept == Without(all[..i], trustIdentity)
    {
      WithoutAppend(all[..i], [all[i]], trustIdentity);
      assert all[..i + 1] == all[..i] + [all[i]];
      if StrOf(values[i]) != trustIdentity {
        kept := kept + [StrOf(values[i])];
      }
    }
    assert all[..|values|] == all;
  }

  /** How an update of the role ends for its caller. */
  datatype End = Finished | Erred | Panicked

  /** The role at the provider, with the text of its trust policy; every write of it is counted. */
  class IamRole {
    var text: Option<Json>
    var writes: nat

    constructor (text: Option<Json>)
      ensures this.text == text && writes == 0
    {
      this.text := text;
      writes := 0;
    }

    /** The client refuses an empty document; anything else is written unless the request fails. */
    method UpdatePolicy(document: Option<Json>, o: Outcome) returns (end: End)
      modifies this
      ensures text == (if document.None? || o.Failed? then old(text) else document)
      ensures writes == old(writes) + if document.None? || o.Failed? then 0 else 1
      ensures end == if document.None? || o != Ok then Erred else Finished
    {
      if document.None? {
        return Erred;
      }
      if !o.Failed? {
        text := document;
        writes := writes + 1;
      }
      end := if o == Ok then Finished else Erred;
    }

    /**
     Grants the account, but leaves the role alone when it is trusted already. A
     document that cannot be decoded yields an empty one, whose refusal is the
     error the caller gets.
     */
    method Trust(ns: string, sa: string, raw: Printer, o: Outcome) returns (end: End)
      modifies this
      ensures match AddAnswer(old(text), Identities.Subject(ns, sa), raw)
              case Written(doc) =>
                && text == (if o.Failed? then old(text) else Some(doc))
                && writes == old(writes) + (if o.Failed? then 0 else 1)
                && end == if o == Ok then Finished else Erred
              case AlreadyTrusted => end == Finished && text == old(text) && writes == old(writes)
              case BadDocument => end == Erred && text == old(text) && writes == old(writes)
              case Crash => end == Panicked && text == old(text) && writes == old(writes)
    {
      var answer := AddServiceAccount(text, ns, sa, raw);
      match answer {
        case Written(doc) => end := UpdatePolicy(Some(doc), o);
        case AlreadyTrusted => end := Finished;
        case BadDocument => end := UpdatePolicy(None, o);
        case Crash => end := Panicked;
      }
    }

    method Distrust(ns: string, sa: string, raw: Printer, o: Outcome) returns (end: End)
      modifies this
      ensures match RemoveAnswer(old(text), Identities.Subject(ns, sa), raw)
              case Written(doc) =>
                && text == (if o.Failed? then old(text) else Some(doc))
                && writes == old(writes) + (if o.Failed? then 0 else 1)
                && end == if o == Ok then Finished else Erred
              case _ => end == Panicked && text == old(text) && writes == old(writes)
    {
      var answer := RemoveServiceAccount(text, ns, sa, raw);
      if answer.Written? {
        end := UpdatePolicy(Some(answer.doc), o);
      } else {
        end := Panicked;
      }
    }
  }

  /** The program stops exactly on texts without a list of statements that has a first element. */
  lemma CrashIff(text: Option<Json>, x: string, raw: Printer)
    ensures RemoveAnswer(text, x, raw).Crash? <==> text.None? || !Readable(text.value)
    ensures AddAnswer(text, x, raw).Crash? <==>
              text.Some? && (text.value.Obj? || text.value.Null?) && !Readable(text.value)
    ensures AddAnswer(text, x, raw).Written? ==> RemoveAnswer(text, x, raw).Written?
  {
  }

  /**
   A text that is no JSON stops the removal but not the addition; an empty object,
   or one statement outside a list, stops both.
   */
  lemma CrashExamples(statement: map<string, Json>, x: string, raw: Printer)
    ensures RemoveAnswer(None, x, raw) == Crash && AddAnswer(None, x, raw) == BadDocument
    ensures AddAnswer(Some(Obj(map[])), x, raw) == RemoveAnswer(Some(Obj(map[])), x, raw) == Crash
    ensures var single := Obj(map["Statement" := Obj(statement)]);
            AddAnswer(Some(single), x, raw) == RemoveAnswer(Some(single), x, raw) == Crash
  {
  }

  // ---- reading back what was written --------------------------------------

  lemma KeysDiffer(arn: string)
    ensures SubjectKey(arn) != AudienceKey(arn)
  {
    var n := |Identities.IssuerOfProviderArn(arn)|;
    assert SubjectKey(arn)[n + 1] == 's' && AudienceKey(arn)[n + 1] == 'a';
  }

  /** Every written document can be read again: same provider, same key, same identities in the same order. */
  lemma ReadsBack(p: Policy, raw: Printer)
    ensures Readable(Document(p)) && Read(Document(p), raw) == p
  {
    KeysDiffer(p.arn);
    var statement := StatementFor(p.arn, ConditionsFor(p.arn, p.ids));
    assert FirstStatement(Document(p)) == Some(statement);
    assert Field(statement, "Principal") == Some(Obj(map["Federated" := Str(p.arn)]));
    assert ProviderArn(statement, raw) == p.arn;
    assert Field(statement, "Condition") == Some(ConditionsFor(p.arn, p.ids));
    assert Conditions(statement) == ConditionsFor(p.arn, p.ids).fields["StringEquals"].fields;
    assert Strings(StrItems(p.ids)) == p.ids;
  }

  /** Each rewriter acts on what is read from its document as the list operation does, and touches nothing else. */
  lemma RewritersReadBack(doc: Json, x: string, raw: Printer)
    requires Readable(doc)
    ensures Readable(Added(doc, x, raw)) && Readable(Removed(doc, x, raw)) && Readable(Normal(doc, raw))
    ensures var p := Read(doc, raw);
            && Read(Added(doc, x, raw), raw) == p.(ids := ApplyToList(p.ids, Grant(x)))
            && Read(Removed(doc, x, raw), raw) == p.(ids := ApplyToList(p.ids, Revoke(x)))
            && Read(Normal(doc, raw), raw) == p
  {
    var p := Read(doc, raw);
    ReadsBack(p, raw);
    ReadsBack(p.(ids := p.ids + [x]), raw);
    ReadsBack(p.(ids := Without(p.ids, x)), raw);
  }

  // ---- documents somebody else has written --------------------------------

  /** A document whose first statement trusts this provider under these conditions, with anything else in it. */
  function Foreign(provider: string, conditions: map<string, Json>, statement: map<string, Json>,
                   principal: map<string, Json>, condition: map<string, Json>, more: seq<Json>,
                   top: map<string, Json>): Json
  {
    var first := statement["Principal" := Obj(principal["Federated" := Str(provider)])]
                          ["Condition" := Obj(condition["StringEquals" := Obj(conditions)])];
    Obj(top["Statement" := Arr([Obj(first)] + more)])
  }

  /** The provider of this issuer; what stands before it is free of slashes. */
  function Provider(resource: string, issuer: string): string {
    resource + "/" + issuer
  }

  /** An identity for each element: its text, or nothing if it is no string. */
  function TextsOf(items: seq<Json>): seq<string> {
    if items == [] then []
    else [match items[0] case Str(text) => text case _ => ""] + TextsOf(items[1..])
  }

  lemma {:induction false} StringsAreTexts(items: seq<Json>)
    ensures Strings(items) == TextsOf(items)
  {
    if items != [] {
      StringsAreTexts(items[1..]);
      assert Strings(items)[1..] == Strings(items[1..]);
      assert Strings(items) == [Strings(items)[0]] + Strings(items)[1..];
    }
  }

  /**
   What is read from such a document: the subjects under the key of the issuer. A
   list yields its elements in order, a single value itself, and a null or a missing
   key nothing.
   */
  lemma ReadsForeign(resource: string, issuer: string, conditions: map<string, Json>, statement: map<string, Json>,
                     principal: map<string, Json>, condition: map<string, Json>, more: seq<Json>,
                     top: map<string, Json>, raw: Printer)
    requires '/' !in resource
    ensures var provider, key := Provider(resource, issuer), issuer + ":sub";
            var doc := Foreign(provider, conditions, statement, principal, condition, more, top);
            && Readable(doc)
            && Read(doc, raw).arn == provider
            && Trusted(doc, raw) ==
               if key !in conditions then []
               else match conditions[key]
                    case Str(y) => [y]
                    case Arr(items) => TextsOf(items)
                    case Null => []
                    case _ => [""]
  {
    var provider, key := Provider(resource, issuer), issuer + ":sub";
    var doc := Foreign(provider, conditions, statement, principal, condition, more, top);
    Identities.IssuerInvertsProviderArn(resource, issuer);
    var first := statement["Principal" := Obj(principal["Federated" := Str(provider)])]
                          ["Condition" := Obj(condition["StringEquals" := Obj(conditions)])];
    assert FirstStatement(doc) == Some(Obj(first));
    assert Field(Obj(first), "Principal") == Some(Obj(principal["Federated" := Str(provider)]));
    assert ProviderArn(Obj(first), raw) == provider;
    assert Conditions(Obj(first)) == conditions;
    assert SubjectKey(provider) == key;
    if key in conditions {
      StringsAreTexts(Elems(conditions[key]));
      match conditions[key]
      case Arr(items) => assert Elems(conditions[key]) == items;
      case Null => assert Elems(conditions[key]) == [];
      case value => OneText(value);
    }
  }

  /** Whatever a first statement names as its provider: a text as it is, other values as printed, null as nothing. */
  lemma ReadsProvider(value: Json, statement: map<string, Json>, principal: map<string, Json>, more: seq<Json>,
                      top: map<string, Json>, raw: Printer)
    ensures var first := statement["Principal" := Obj(principal["Federated" := value])];
            var doc := Obj(top["Statement" := Arr([Obj(first)] + more)]);
            && Readable(doc)
            && Read(doc, raw).arn ==
               match value
               case Str(text) => text
               case Scalar(text) => text
               case Null => ""
               case _ => raw(value)
  {
    var first := statement["Principal" := Obj(principal["Federated" := value])];
    var doc := Obj(top["Statement" := Arr([Obj(first)] + more)]);
    assert FirstStatement(doc) == Some(Obj(first));
  }

  lemma OneText(value: Json)
    requires !value.Arr? && !value.Null?
    ensures TextsOf(Elems(value)) == [match value case Str(text) => text case _ => ""]
  {
    assert Elems(value)[1..] == [];
  }

  /** A single subject is an identity like any other: it survives an addition, and a removal takes it off. */
  lemma SingleSubjectSurvives(resource: string, issuer: string, conditions: map<string, Json>,
                              statement: map<string, Json>, principal: map<string, Json>, condition: map<string, Json>,
                              more: seq<Json>, top: map<string, Json>, raw: Printer, y: string, x: string)
    requires '/' !in resource && issuer + ":sub" in conditions && conditions[issuer + ":sub"] == Str(y)
    ensures var provider := Provider(resource, issuer);
            var text := Some(Foreign(provider, conditions, statement, principal, condition, more, top));
            && AddAnswer(text, x, raw) ==
               (if x == y then AlreadyTrusted else Written(Document(Policy(provider, [y, x]))))
            && RemoveAnswer(text, x, raw) ==
               Written(Document(Policy(provider, if x == y then [] else [y])))
  {
    ReadsForeign(resource, issuer, conditions, statement, principal, condition, more, top, raw);
    var provider := Provider(resource, issuer);
    var doc := Foreign(provider, conditions, statement, principal, condition, more, top);
    assert Read(doc, raw) == Policy(provider, [y]);
    assert [y] + [x] == [y, x];
    assert Without([y], x) == if x == y then [] else [y] by {
      assert [y][1..] == [];
    }
  }

  /** The document of a policy, written out. */
  lemma DocumentWrittenOut(resource: string, issuer: string, ids: seq<string>)
    requires '/' !in resource
    ensures var provider := Provider(resource, issuer);
            var audience := map[issuer + ":aud" := Arr([Str("sts.amazonaws.com")])];
            var subjects := seq(|ids|, i requires 0 <= i < |ids| => Str(ids[i]));
            Document(Policy(provider, ids)) ==
            Obj(map["Version" := Str("2012-10-17"),
                    "Statement" := Arr([Obj(map[
                      "Effect" := Str("Allow"),
                      "Action" := Str("sts:AssumeRoleWithWebIdentity"),
                      "Principal" := Obj(map["Federated" := Str(provider)]),
                      "Condition" := Obj(map["StringEquals" := Obj(
                        if ids == [] then audience
                        else audience[issuer + ":sub" := Arr(subjects)])])])])])
  {
    var provider := Provider(resource, issuer);
    Identities.IssuerInvertsProviderArn(resource, issuer);
    assert SubjectKey(provider) == issuer + ":sub" && AudienceKey(provider) == issuer + ":aud";
    assert StrItems([AUDIENCE]) == [Str("sts.amazonaws.com")];
    assert StrItems(ids) == seq(|ids|, i requires 0 <= i < |ids| => Str(ids[i]));
  }

  // ---- any log of grants and revocations ----------------------------------

  function Rewritten(doc: Json, op: Op, raw: Printer): Json
    requires Readable(doc)
  {
    if op.Grant? then Added(doc, op.who, raw) else Removed(doc, op.who, raw)
  }

  function RewrittenBy(doc: Json, log: seq<Op>, raw: Printer): (r: Json)
    requires Readable(doc)
    ensures Readable(r) && Read(r, raw).arn == Read(doc, raw).arn
    decreases |log|
  {
    if log == [] then doc
    else
      var before := RewrittenBy(doc, log[..|log| - 1], raw);
      RewritersReadBack(before, log[|log| - 1].who, raw);
      Rewritten(before, log[|log| - 1], raw)
  }

  /**
   The document refines the trust relation over any log: it stays readable with
   the same provider and key, an identity is trusted as its last operation says,
   identities never revoked keep their order in front of all later ones, and a
   list without duplicates stays one.
   */
  lemma {:induction false} DocumentRefinesTrust(doc: Json, log: seq<Op>, raw: Printer)
    requires Readable(doc)
    ensures Trusted(RewrittenBy(doc, log, raw), raw) == ReplayList(Trusted(doc, raw), log)
    ensures Elements(Trusted(RewrittenBy(doc, log, raw), raw)) == Replay(Elements(Trusted(doc, raw)), log)
    ensures Survivors(Trusted(doc, raw), log) <= Trusted(RewrittenBy(doc, log, raw), raw)
    ensures NoDuplicates(Trusted(doc, raw)) ==> NoDuplicates(Trusted(RewrittenBy(doc, log, raw), raw))
    decreases |log|
  {
    if log != [] {
      DocumentRefinesTrust(doc, log[..|log| - 1], raw);
      RewritersReadBack(RewrittenBy(doc, log[..|log| - 1], raw), log[|log| - 1].who, raw);
    }
    ListRefinesSet(Trusted(doc, raw), log);
    SurvivorsComeFirst(Trusted(doc, raw), log);
    if NoDuplicates(Trusted(doc, raw)) {
      ListStaysDistinct(Trusted(doc, raw), log);
    }
  }

  lemma TrustedIffLastGranted(doc: Json, log: seq<Op>, x: string, raw: Printer)
    requires Readable(doc)
    ensures forall i :: 0 <= i < |log| && log[i].who == x && Untouched(log[i + 1..], x) ==>
              (x in Trusted(RewrittenBy(doc, log, raw), raw) <==> log[i].Grant?)
    ensures Untouched(log, x) ==> (x in Trusted(RewrittenBy(doc, log, raw), raw) <==> x in Trusted(doc, raw))
  {
    DocumentRefinesTrust(doc, log, raw);
    LastOperationWins(Elements(Trusted(doc, raw)), log, x);
    assert x in Trusted(RewrittenBy(doc, log, raw), raw) <==> x in Elements(Trusted(RewrittenBy(doc, log, raw), raw));
    assert x in Trusted(doc, raw) <==> x in Elements(Trusted(doc, raw));
  }

  lemma RewrittenOnce(doc: Json, log: seq<Op>, op: Op, raw: Printer)
    requires Readable(doc)
    ensures RewrittenBy(doc, log + [op], raw) == Rewritten(RewrittenBy(doc, log, raw), op, raw)
  {
    assert (log + [op])[..|log|] == log;
  }

  /** The log as the updates of a role see it: a grant of what is trusted already is neither written nor missed. */
  lemma AnswersFollowTheLog(doc: Json, log: seq<Op>, x: string, raw: Printer)
    requires Readable(doc)
    ensures var d := RewrittenBy(doc, log, raw);
            && RemoveAnswer(Some(d), x, raw) == Written(RewrittenBy(doc, log + [Revoke(x)], raw))
            && AddAnswer(Some(d), x, raw) ==
               (if x in ReplayList(Trusted(doc, raw), log) then AlreadyTrusted
                else Written(RewrittenBy(doc, log + [Grant(x)], raw)))
            && (x in ReplayList(Trusted(doc, raw), log) ==> RewrittenBy(doc, log + [Grant(x)], raw) == d)
  {
    DocumentRefinesTrust(doc, log, raw);
    RewrittenOnce(doc, log, Revoke(x), raw);
    RewrittenOnce(doc, log, Grant(x), raw);
  }

  // ---- undoing and repeating ----------------------------------------------

  /** Adding and removing normalises the document, exactly when the identity was not trusted before. */
  lemma AddThenRemove(doc: Json, x: string, raw: Printer)
    requires Readable(doc)
    ensures Readable(Added(doc, x, raw))
    ensures Removed(Added(doc, x, raw), x, raw) == Normal(doc, raw) <==> x !in Trusted(doc, raw)
  {
    RewritersReadBack(doc, x, raw);
    RewritersReadBack(Added(doc, x, raw), x, raw);
    AppendThenRemove(Trusted(doc, raw), x);
    WithoutAbsent(Trusted(doc, raw), x);
  }

  /** On canonical documents the round trip is exact, whether or not other identities are left. */
  lemma RoundTripOnCanonical(doc: Json, x: string, raw: Printer)
    requires Canonical(doc, raw)
    ensures Readable(Added(doc, x, raw))
    ensures Removed(Added(doc, x, raw), x, raw) == doc <==> x !in Trusted(doc, raw)
  {
    AddThenRemove(doc, x, raw);
  }

  /** Both rewriters write canonical documents, so only the first pass over a document can lose anything. */
  lemma RewritesAreCanonical(doc: Json, x: string, raw: Printer)
    requires Readable(doc)
    ensures Canonical(Removed(doc, x, raw), raw) && Canonical(Normal(doc, raw), raw)
    ensures x !in Trusted(doc, raw) ==> Canonical(Added(doc, x, raw), raw)
    ensures Canonical(doc, raw) ==> Canonical(Added(doc, x, raw), raw)
  {
    RewritersReadBack(doc, x, raw);
  }

  lemma RepeatingChangesNothing(doc: Json, x: string, raw: Printer)
    requires Readable(doc)
    ensures Readable(Removed(doc, x, raw)) && Removed(Removed(doc, x, raw), x, raw) == Removed(doc, x, raw)
    ensures Readable(Added(doc, x, raw)) && Added(Added(doc, x, raw), x, raw) == Added(doc, x, raw)
  {
    RewritersReadBack(doc, x, raw);
    RemoveTwice(Trusted(doc, raw), x);
  }

  lemma RemovalKeepsOthers(doc: Json, x: string, y: string, raw: Printer)
    requires Readable(doc) && x != y
    ensures Readable(Removed(doc, x, raw)) && (y in Trusted(Removed(doc, x, raw), raw) <==> y in Trusted(doc, raw))
  {
    RewritersReadBack(doc, x, raw);
    WithoutMembers(Trusted(doc, raw), x);
  }

  /** Revoking one namespace's account never touches another namespace's. */
  lemma RevocationIsIsolated(doc: Json, ns: string, sa: string, ns': string, sa': string, raw: Printer)
    requires Readable(doc) && ':' !in ns && ':' !in ns' && ns != ns'
    ensures var mine, other := Identities.Subject(ns, sa), Identities.Subject(ns', sa');
            && Readable(Removed(doc, mine, raw))
            && (other in Trusted(Removed(doc, mine, raw), raw) <==> other in Trusted(doc, raw))
  {
    Identities.SubjectsAreDistinct(ns, sa, ns', sa');
    RemovalKeepsOthers(doc, Identities.Subject(ns, sa), Identities.Subject(ns', sa'), raw);
  }

  // ---- a log executed on a role -------------------------------------------

  /** A plugin applied or revoked for one account; `o` is how its write request ends, if it makes one. */
  datatype Request = Request(grant: bool, ns: string, sa: string, o: Outcome)

  function OpOf(r: Request): Op {
    var who := Identities.Subject(r.ns, r.sa);
    if r.grant then Grant(who) else Revoke(who)
  }

  function StepsReaching(r: Request): seq<Op> {
    if r.o.Failed? then [] else [OpOf(r)]
  }

  /** The operations that reach the role: those whose request does not fail. */
  function Reaching(requests: seq<Request>): seq<Op> {
    if requests == [] then []
    else
      var last := requests[|requests| - 1];
      Reaching(requests[..|requests| - 1]) + StepsReaching(last)
  }

  /** How a request may end: it fails for its caller only if it did, or its reply was lost. */
  predicate FairEnd(r: Request, end: End) {
    !end.Panicked? && (end.Erred? ==> r.o != Ok)
  }

  predicate AllFair(requests: seq<Request>, ends: seq<End>)
    decreases |requests|
  {
    && |ends| == |requests|
    && (requests != [] ==>
          && FairEnd(requests[|requests| - 1], ends[|requests| - 1])
          && AllFair(requests[..|requests| - 1], ends[..|requests| - 1]))
  }

  /**
   A log executed on the role, any of its requests failing or losing its reply,
   leaves the document that the operations whose requests did not fail leave.
   */
  method Execute(role: IamRole, requests: seq<Request>, raw: Printer) returns (ends: seq<End>)
    requires role.text.Some? && Readable(role.text.value)
    modifies role
    ensures role.text == Some(RewrittenBy(old(role.text).value, Reaching(requests), raw))
    ensures AllFair(requests, ends)
    ensures role.writes <= old(role.writes) + |Reaching(requests)|
  {
    if requests == [] {
      return [];
    }
    var init, last := requests[..|requests| - 1], requests[|requests| - 1];
    ghost var start := role.text.value;
    ends := Execute(role, init, raw);
    var end := ExecuteOne(role, last, raw, start, Reaching(init));
    assert (ends + [end])[..|ends|] == ends;
    ends := ends + [end];
  }

  method ExecuteOne(role: IamRole, r: Request, raw: Printer, ghost start: Json, ghost log: seq<Op>) returns (end: End)
    requires Readable(start) && role.text == Some(RewrittenBy(start, log, raw))
    modifies role
    ensures role.text == Some(RewrittenBy(start, log + StepsReaching(r), raw))
    ensures FairEnd(r, end)
    ensures role.writes <= old(role.writes) + |StepsReaching(r)|
  {
    AnswersFollowTheLog(start, log, Identities.Subject(r.ns, r.sa), raw);
    assert log + [] == log;
    if r.grant {
      end := role.Trust(r.ns, r.sa, raw, r.o);
    } else {
      end := role.Distrust(r.ns, r.sa, raw, r.o);
    }
  }
}
