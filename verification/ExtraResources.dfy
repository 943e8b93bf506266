/**
 The extra resources of a profile: templates are rendered into one buffer, the
 buffer is split into YAML documents, and the documents are applied in order.
 What a single document means is left to a parser.
 */
module ExtraResources {
  import opened Prelude

  /** `owned`: the object already names another controller. */
  datatype Object = Object(namespace: string, body: string, owned: bool)

  /** An empty or null document is Nothing. */
  datatype Parsed = Nothing | Document(object: Object) | Malformed

  type Parser = seq<string> -> Parsed

  /** The variables of a template: no JSON at all, JSON but no object (as when they are left out), or an object. */
  datatype Vars = NotJson | NotAnObject | Fields(fields: map<string, string>)

  datatype Extra = Extra(file: string, vars: Vars)

  /** The template engine: which files it can parse, and what executing one of them yields. */
  datatype Engine = Engine(parses: string -> bool, execute: (string, map<string, string>) -> Option<string>)

  /** `Panic`: the program stops, because variables that are no object are taken for one. */
  datatype Attempt<+T> = Done(value: T) | Error | Panic

  /** How a call that applies objects ends. */
  datatype End = Applied | Erred | Panicked

  /** The objects in front of the first thing that is wrong, and whether there was none. */
  datatype Split = Split(objects: seq<Object>, ok: bool)

  const SEPARATOR := "---\n"

  // ---- lines and documents ------------------------------------------------

  /** The lines of a text without their line breaks; a last line may lack its break. */
  function Lines(text: string): (r: seq<string>)
    ensures text != "" ==> r != []
  {
    if text == "" then []
    else if text[0] == '\n' then [""] + Lines(text[1..])
    else if text[1..] == "" then [[text[0]]]
    else
      var rest := Lines(text[1..]);
      [[text[0]] + rest[0]] + rest[1..]
  }

  predicate Space(c: char) {
    || c in {' ', '\t', '\r', '\U{000B}', '\U{000C}', '\U{0085}', '\U{00A0}', '\U{1680}', '\U{3000}'}
    || '\U{2000}' <= c <= '\U{200A}'
    || c in {'\U{2028}', '\U{2029}', '\U{202F}', '\U{205F}'}
  }

  /** The first character that is no white space. */
  function FirstInk(s: string): Option<char> {
    if s == "" then None else if Space(s[0]) then FirstInk(s[1..]) else Some(s[0])
  }

  predicate Dashed(line: string) {
    |line| >= 3 && line[..3] == "---"
  }

  /** Three dashes with a comment after them. */
  predicate Commented(line: string) {
    Dashed(line) && FirstInk(line[3..]) == Some('#')
  }

  /** A line of three dashes with nothing after them but white space, or a comment (section 9.2 of YAML 1.2.2). */
  predicate Separates(line: string) {
    Dashed(line) && (FirstInk(line[3..]).None? || Commented(line))
  }

  /** Three dashes with anything else after them: the reader takes it for a broken separator and gives up. */
  predicate Spoilt(line: string) {
    Dashed(line) && !Separates(line)
  }

  /** What the reader hands out before its input, or its patience, ends. */
  datatype Stream = Stream(documents: seq<seq<string>>, ok: bool)

  /** The documents between the separators; the one in front of a broken separator is lost. */
  function Read(lines: seq<string>): (r: Stream)
    ensures r.ok ==> r.documents != []
  {
    if lines == [] then Stream([[]], true)
    else if Spoilt(lines[0]) then Stream([], false)
    else
      var rest := Read(lines[1..]);
      if Separates(lines[0]) then Stream([[]] + rest.documents, rest.ok)
      else if rest.documents == [] then rest
      else Stream([[lines[0]] + rest.documents[0]] + rest.documents[1..], rest.ok)
  }

  function Scan(documents: seq<seq<string>>, parse: Parser): Split {
    if documents == [] then Split([], true)
    else
      match parse(documents[0])
      case Malformed => Split([], false)
      case Nothing => Scan(documents[1..], parse)
      case Document(o) =>
        var rest := Scan(documents[1..], parse);
        Split([o] + rest.objects, rest.ok)
  }

  /** One split after another: the second counts only if the first went through. */
  function Then(a: Split, b: Split): Split {
    if a.ok then Split(a.objects + b.objects, b.ok) else a
  }

  function SplitText(text: string, parse: Parser): Split {
    var stream := Read(Lines(text));
    var s := Scan(stream.documents, parse);
    Split(s.objects, s.ok && stream.ok)
  }

  // ---- the buffer ---------------------------------------------------------

  function Join(texts: seq<string>): string {
    if texts == [] then ""
    else if |texts| == 1 then texts[0]
    else Join(texts[..|texts| - 1]) + SEPARATOR + texts[|texts| - 1]
  }

  function RenderOne(extra: Extra, name: string, engine: Engine): Attempt<string> {
    if !engine.parses(extra.file) then Error
    else
      match extra.vars
      case NotJson => Error
      case NotAnObject => Panic
      case Fields(fields) =>
        match engine.execute(extra.file, fields["Namespace" := name])
        case None => Error
        case Some(text) => Done(text)
  }

  /** The texts of all templates, or how the first one that does not render ends. */
  function Rendered(extras: seq<Extra>, name: string, engine: Engine): Attempt<seq<string>> {
    if extras == [] then Done([])
    else
      match Rendered(extras[..|extras| - 1], name, engine)
      case Error => Error
      case Panic => Panic
      case Done(texts) =>
        match RenderOne(extras[|extras| - 1], name, engine)
        case Error => Error
        case Panic => Panic
        case Done(text) => Done(texts + [text])
  }

  /** The objects of all templates; nothing at all if one does not render or a document is malformed. */
  function Deserialized(extras: seq<Extra>, name: string, engine: Engine, parse: Parser): Attempt<seq<Object>> {
    match Rendered(extras, name, engine)
    case Error => Error
    case Panic => Panic
    case Done(texts) =>
      var s := SplitText(Join(texts), parse);
      if s.ok then Done(s.objects) else Error
  }

  // ---- the controller's loops ---------------------------------------------

  /** The decoder hands out one document after the other until its input ends. */
  method SplitYaml(text: string, parse: Parser) returns (objs: seq<Object>, err: bool)
    ensures Split(objs, !err) == SplitText(text, parse)
  {
    var stream := Read(Lines(text));
    objs, err := ParseAll(stream.documents, parse);
    err := err || !stream.ok;
  }

  method ParseAll(documents: seq<seq<string>>, parse: Parser) returns (objs: seq<Object>, err: bool)
    ensures Split(objs, !err) == Scan(documents, parse)
  {
    var rest := documents;
    objs, err := [], false;
    while rest != []
      invariant !err
      invariant Scan(documents, parse) == Then(Split(objs, true), Scan(rest, parse))
      decreases |rest|
    {
      ghost var tail := Scan(rest[1..], parse).objects;
      match parse(rest[0]) {
        case Malformed =>
          assert objs + [] == objs;
          return objs, true;
        case Nothing =>
        case Document(o) =>
          assert objs + ([o] + tail) == (objs + [o]) + tail;
          objs := objs + [o];
      }
      rest := rest[1..];
    }
    assert objs + [] == objs;
  }

  method RenderTemplate(extra: Extra, name: string, engine: Engine) returns (r: Attempt<string>)
    ensures r == RenderOne(extra, name, engine)
  {
    if !engine.parses(extra.file) {
      return Error;
    }
    if extra.vars.NotJson? {
      return Error;
    }
    if extra.vars.NotAnObject? {
      return Panic;
    }
    var text := engine.execute(extra.file, extra.vars.fields["Namespace" := name]);
    r := if text.None? then Error else Done(text.value);
  }

  /** The buffer of all templates, or how the first one that does not render ends. */
  method RenderAll(extras: seq<Extra>, name: string, engine: Engine) returns (out: string, r: Attempt<seq<string>>)
    ensures r == Rendered(extras, name, engine)
    ensures r.Done? ==> out == Join(r.value)
  {
    out := "";
    r := Done([]);
    for ind := 0 to |extras|
      invariant r.Done? && |r.value| == ind && out == Join(r.value)
      invariant Rendered(extras[..ind], name, engine) == r
    {
      assert extras[..ind + 1][..ind] == extras[..ind];
      var text := RenderTemplate(extras[ind], name, engine);
      if !text.Done? {
        RenderingEnds(extras, name, engine, ind + 1);
        return out, if text.Error? then Error else Panic;
      }
      JoinOneMore(r.value, text.value);
      if ind > 0 {
        out := out + SEPARATOR;
      }
      out := out + text.value;
      r := Done(r.value + [text.value]);
    }
    assert extras[..|extras|] == extras;
  }

  lemma JoinOneMore(texts: seq<string>, text: string)
    ensures Join(texts + [text]) == if texts == [] then text else Join(texts) + SEPARATOR + text
  {
    assert (texts + [text])[..|texts|] == texts;
  }

  method DeserializeExtraResources(extras: seq<Extra>, name: string, engine: Engine, parse: Parser)
      returns (r: Attempt<seq<Object>>)
    ensures r == Deserialized(extras, name, engine, parse)
  {
    var out, rendered := RenderAll(extras, name, engine);
    match rendered {
      case Error => r := Error;
      case Panic => r := Panic;
      case Done(_) =>
        var objs, err := SplitYaml(out, parse);
        r := if err then Error else Done(objs);
    }
  }

  lemma {:induction false} RenderingEnds(extras: seq<Extra>, name: string, engine: Engine, i: nat)
    requires i <= |extras| && !Rendered(extras[..i], name, engine).Done?
    ensures Rendered(extras, name, engine) == Rendered(extras[..i], name, engine)
    decreases |extras| - i
  {
    if i < |extras| {
      assert extras[..i + 1][..i] == extras[..i];
      RenderingEnds(extras, name, engine, i + 1);
    } else {
      assert extras[..i] == extras;
    }
  }

  /**
   A template renders exactly if its file can be parsed, its variables are an
   object, and it executes on them with the name of the profile put in as
   `Namespace`, over one that may be there, and nothing else changed.
   */
  lemma RendersIff(extra: Extra, name: string, engine: Engine, text: string)
    ensures RenderOne(extra, name, engine) == Done(text) <==>
              && engine.parses(extra.file) && extra.vars.Fields?
              && exists fields ::
                   && "Namespace" in fields && fields["Namespace"] == name
                   && (forall v :: v != "Namespace" ==> Lookup(fields, v) == Lookup(extra.vars.fields, v))
                   && engine.execute(extra.file, fields) == Some(text)
  {
    if engine.parses(extra.file) && extra.vars.Fields? {
      var given := extra.vars.fields["Namespace" := name];
      assert "Namespace" in given && forall v :: v != "Namespace" ==> Lookup(given, v) == Lookup(extra.vars.fields, v);
      forall fields | "Namespace" in fields && fields["Namespace"] == name
                      && forall v :: v != "Namespace" ==> Lookup(fields, v) == Lookup(extra.vars.fields, v)
        ensures fields == given
      {
        forall v
          ensures Lookup(fields, v) == Lookup(given, v)
        {
          assert v != "Namespace" ==> Lookup(fields, v) == Lookup(extra.vars.fields, v);
        }
        LookupsDecide(fields, given);
      }
    }
  }

  /** The first template that does not render decides how the rendering ends. */
  lemma {:induction false} RenderedIff(extras: seq<Extra>, name: string, engine: Engine)
    ensures var r := Rendered(extras, name, engine);
            && (r.Done? <==> forall i :: 0 <= i < |extras| ==> RenderOne(extras[i], name, engine).Done?)
            && (r.Done? ==>
                  && |r.value| == |extras|
                  && forall i :: 0 <= i < |extras| ==> RenderOne(extras[i], name, engine) == Done(r.value[i]))
            && (r.Panic? <==> exists i :: FirstToPanic(extras, name, engine, i))
  {
    if extras != [] {
      var init, k := extras[..|extras| - 1], |extras| - 1;
      RenderedIff(init, name, engine);
      forall i
        ensures FirstToPanic(extras, name, engine, i) <==>
                if i == k then RenderOne(extras[k], name, engine).Panic? && Rendered(init, name, engine).Done?
                else FirstToPanic(init, name, engine, i)
      {
        assert forall j :: 0 <= j < k ==> init[j] == extras[j];
      }
      if Rendered(extras, name, engine).Panic? {
        if Rendered(init, name, engine).Panic? {
          var i :| FirstToPanic(init, name, engine, i);
          assert FirstToPanic(extras, name, engine, i);
        } else {
          assert FirstToPanic(extras, name, engine, k);
        }
      }
    }
  }

  /** This template has variables that are no object, its file can be parsed, and all templates before it render. */
  predicate FirstToPanic(extras: seq<Extra>, name: string, engine: Engine, i: int) {
    && 0 <= i < |extras|
    && engine.parses(extras[i].file) && extras[i].vars.NotAnObject?
    && forall j :: 0 <= j < i ==> RenderOne(extras[j], name, engine).Done?
  }

  /**
   The program stops exactly for a template whose file can be parsed and whose
   variables are no object, if every template before it renders.
   */
  lemma PanicsIff(extras: seq<Extra>, name: string, engine: Engine, parse: Parser)
    ensures Deserialized(extras, name, engine, parse).Panic? <==> exists i :: FirstToPanic(extras, name, engine, i)
  {
    RenderedIff(extras, name, engine);
  }

  /** For example: one template whose variables are left out. */
  lemma LeftOutVariablesPanic(file: string, name: string, engine: Engine, parse: Parser)
    requires engine.parses(file)
    ensures Deserialized([Extra(file, NotAnObject)], name, engine, parse) == Panic
  {
    assert FirstToPanic([Extra(file, NotAnObject)], name, engine, 0);
    PanicsIff([Extra(file, NotAnObject)], name, engine, parse);
  }

  function InNamespace(objs: seq<Object>, name: string): seq<Object> {
    if objs == [] then [] else [objs[0].(namespace := name)] + InNamespace(objs[1..], name)
  }

  /** The same objects in the same order, each of them in the namespace. */
  lemma {:induction false} InNamespaceElements(objs: seq<Object>, name: string)
    ensures |InNamespace(objs, name)| == |objs|
    ensures forall i :: 0 <= i < |objs| ==> InNamespace(objs, name)[i] == objs[i].(namespace := name)
  {
    if objs != [] {
      InNamespaceElements(objs[1..], name);
    }
  }

  /** The server the objects are applied to, in the order it saw them. */
  class Applier {
    const faults: seq<Outcome>
    var applied: seq<Object>
    var calls: nat

    constructor (faults: seq<Outcome>)
      ensures applied == [] && calls == 0 && this.faults == faults
    {
      applied, calls := [], 0;
      this.faults := faults;
    }

    /**
     Applies nothing unless everything renders and parses; otherwise an in-order
     prefix of the objects, all of them in the profile's namespace and none of them
     another controller's. It goes through to the end, with every object applied,
     exactly if no object is another controller's and every request went well.
     */
    method ReconcileExtraResources(extras: seq<Extra>, name: string, engine: Engine, parse: Parser)
        returns (end: End, ghost done: nat)
      modifies this
      ensures match Deserialized(extras, name, engine, parse)
              case Error => end == Erred && applied == old(applied)
              case Panic => end == Panicked && applied == old(applied)
              case Done(all) =>
                && end != Panicked
                && done <= |all| && applied == old(applied) + InNamespace(all[..done], name)
                && (end == Applied <==> AllApplied(all, faults, old(calls), |all|))
                && (end == Applied ==> done == |all|)
                && (end == Erred ==> StoppedAt(all, faults, old(calls), done))
    {
      done := 0;
      var r := DeserializeExtraResources(extras, name, engine, parse);
      match r {
        case Error => end := Erred;
        case Panic => end := Panicked;
        case Done(objs) =>
          var err;
          err, done := ApplyAll(objs, name);
          end := if err then Erred else Applied;
      }
    }

    /** Refuses an object of another controller, and otherwise asks the server. */
    method Apply(obj: Object) returns (err: bool, ghost committed: bool)
      modifies this
      ensures err <==> obj.owned || OutcomeAt(faults, old(calls)) != Ok
      ensures committed <==> !obj.owned && !OutcomeAt(faults, old(calls)).Failed?
      ensures applied == if committed then old(applied) + [obj] else old(applied)
      ensures calls == old(calls) + if obj.owned then 0 else 1
    {
      if obj.owned {
        return true, false;
      }
      var o := OutcomeAt(faults, calls);
      calls := calls + 1;
      if !o.Failed? {
        applied := applied + [obj];
      }
      return o != Ok, !o.Failed?;
    }

    /** The applying loop, over the objects already split. */
    method ApplyAll(objs: seq<Object>, name: string) returns (err: bool, ghost done: nat)
      modifies this
      ensures done <= |objs| && applied == old(applied) + InNamespace(objs[..done], name)
      ensures !err <==> AllApplied(objs, faults, old(calls), |objs|)
      ensures !err ==> done == |objs|
      ensures err ==> StoppedAt(objs, faults, old(calls), done)
    {
      done := 0;
      err := false;
      ghost var first := calls;
      assert InNamespace(objs[..0], name) == [];
      for i := 0 to |objs|
        invariant done == i && !err && calls == first + i
        invariant applied == old(applied) + InNamespace(objs[..done], name)
        invariant AllApplied(objs, faults, first, i)
      {
        InNamespaceOneMore(objs, i, name);
        ghost var committed;
        err, committed := Apply(objs[i].(namespace := name));
        if committed {
          done := i + 1;
        }
        if err {
          assert !GoesWell(objs, faults, first, i);
          return;
        }
      }
    }
  }

  /** The first `n` objects are nobody else's, and their requests, the first of which is call `first`, went well. */
  predicate AllApplied(objs: seq<Object>, faults: seq<Outcome>, first: nat, n: nat)
    requires n <= |objs|
  {
    forall i :: 0 <= i < n ==> GoesWell(objs, faults, first, i)
  }

  predicate GoesWell(objs: seq<Object>, faults: seq<Outcome>, first: nat, i: nat)
    requires i < |objs|
  {
    !objs[i].owned && OutcomeAt(faults, first + i) == Ok
  }

  /**
   The loop has stopped with `done` objects applied: at another controller's object
   or a request that failed, or behind one that was committed without a reply.
   */
  predicate StoppedAt(objs: seq<Object>, faults: seq<Outcome>, first: nat, done: nat) {
    || (done < |objs| && AllApplied(objs, faults, first, done)
          && (objs[done].owned || OutcomeAt(faults, first + done).Failed?))
    || (0 < done <= |objs| && AllApplied(objs, faults, first, done - 1)
          && !objs[done - 1].owned && OutcomeAt(faults, first + done - 1).Lost?)
  }

  lemma {:induction false} InNamespaceAppend(objs: seq<Object>, o: Object, name: string)
    ensures InNamespace(objs + [o], name) == InNamespace(objs, name) + [o.(namespace := name)]
  {
    if objs == [] {
      assert objs + [o] == [o] && [o][1..] == [];
    } else {
      assert (objs + [o])[1..] == objs[1..] + [o];
      InNamespaceAppend(objs[1..], o, name);
    }
  }

  lemma InNamespaceOneMore(objs: seq<Object>, i: nat, name: string)
    requires i < |objs|
    ensures InNamespace(objs[..i + 1], name) == InNamespace(objs[..i], name) + [objs[i].(namespace := name)]
  {
    assert objs[..i + 1] == objs[..i] + [objs[i]];
    InNamespaceAppend(objs[..i], objs[i], name);
  }

  // ---- lines of a joined text ---------------------------------------------

  /** Empty, or ending in a line break. */
  predicate Complete(text: string) {
    text == "" || text[|text| - 1] == '\n'
  }

  lemma {:induction false} LinesAppend(a: string, b: string)
    requires Complete(a)
    ensures Lines(a + b) == Lines(a) + Lines(b)
  {
    if a == "" {
      assert a + b == b;
    } else {
      var c, t := a[0], a[1..];
      assert c == '\n' || t != "";
      LinesAppend(t, b);
      LinesStep(c, t, b);
      assert a == [c] + t && a + b == [c] + (t + b);
    }
  }

  lemma LinesStep(c: char, t: string, b: string)
    requires (c == '\n' || t != "") && Lines(t + b) == Lines(t) + Lines(b)
    ensures Lines([c] + (t + b)) == Lines([c] + t) + Lines(b)
  {
    if c == '\n' {
      assert ([c] + t)[1..] == t && ([c] + (t + b))[1..] == t + b;
      assert [""] + (Lines(t) + Lines(b)) == [""] + Lines(t) + Lines(b);
    } else {
      LinesCons(c, t);
      LinesCons(c, t + b);
      FirstOfSum(c, Lines(t), Lines(b));
    }
  }

  lemma FirstOfSum(c: char, x: seq<string>, y: seq<string>)
    requires x != []
    ensures [[c] + (x + y)[0]] + (x + y)[1..] == ([[c] + x[0]] + x[1..]) + y
  {
    assert (x + y)[0] == x[0] && (x + y)[1..] == x[1..] + y;
  }

  lemma LinesCons(c: char, t: string)
    requires c != '\n' && t != ""
    ensures Lines([c] + t) == [[c] + Lines(t)[0]] + Lines(t)[1..]
  {
    assert ([c] + t)[1..] == t;
  }

  lemma SeparatorLine()
    ensures Lines(SEPARATOR) == ["---"] && Separates("---")
  {
    var end := ['\n'];
    assert end[1..] == "";
    assert Lines(end) == [""];
    assert ['-'] + "" == "-" && ['-'] + "-" == "--" && ['-'] + "--" == "---";
    LinesCons('-', end);
    assert Lines(['-'] + end) == ["-"];
    LinesCons('-', ['-'] + end);
    assert Lines(['-'] + (['-'] + end)) == ["--"];
    LinesCons('-', ['-'] + (['-'] + end));
    assert Lines(['-'] + (['-'] + (['-'] + end))) == ["---"];
    assert SEPARATOR == ['-'] + (['-'] + (['-'] + end));
    assert "---"[3..] == "";
  }

  /** The last line of `x` and the first of `y` run together. */
  function Glue(x: seq<string>, y: seq<string>): seq<string>
    requires x != [] && y != []
  {
    x[..|x| - 1] + [x[|x| - 1] + y[0]] + y[1..]
  }

  lemma GlueKeepsFirst(c: char, m: seq<string>, y: seq<string>)
    requires m != [] && y != []
    ensures Glue([""] + m, y) == [""] + Glue(m, y)
    ensures Glue([[c] + m[0]] + m[1..], y) == [[c] + Glue(m, y)[0]] + Glue(m, y)[1..]
  {
    if |m| == 1 {
      assert [c] + (m[0] + y[0]) == ([c] + m[0]) + y[0];
    }
  }

  lemma {:induction false} OpenLineRunsOn(a: string, t: string)
    requires !Complete(a) && t != ""
    ensures Lines(a) != [] && Lines(a + t) == Glue(Lines(a), Lines(t))
  {
    assert (a + t)[1..] == a[1..] + t;
    if |a| == 1 {
      assert a[1..] + t == t;
      assert Lines(a) == [[a[0]]];
    } else {
      assert a[1..][|a| - 2] == a[|a| - 1];
      OpenLineRunsOn(a[1..], t);
      GlueKeepsFirst(a[0], Lines(a[1..]), Lines(t));
    }
  }

  lemma {:induction false} OpenLineIsNotEmpty(a: string)
    requires !Complete(a)
    ensures Lines(a) != [] && LastOf(Lines(a)) != ""
  {
    if |a| > 1 {
      assert a[1..][|a| - 2] == a[|a| - 1];
      OpenLineIsNotEmpty(a[1..]);
    }
  }

  function LastOf(lines: seq<string>): string
    requires lines != []
  {
    lines[|lines| - 1]
  }

  /** A template that ends its last line stays clear of the separator. */
  lemma CompleteLinesJoin(a: string, b: string)
    requires Complete(a)
    ensures Lines(a + SEPARATOR + b) == Lines(a) + ["---"] + Lines(b)
  {
    SeparatorLine();
    assert a + SEPARATOR + b == a + (SEPARATOR + b);
    LinesAppend(a, SEPARATOR + b);
    LinesAppend(SEPARATOR, b);
  }

  /** A template that leaves its last line open swallows the separator: its last line now ends in the dashes. */
  lemma OpenLineSwallowsSeparator(a: string, b: string)
    requires !Complete(a)
    ensures var mine := Lines(a);
            && mine != [] && LastOf(mine) != ""
            && Lines(a + SEPARATOR + b) == mine[..|mine| - 1] + [LastOf(mine) + "---"] + Lines(b)
  {
    SeparatorLine();
    LinesAppend(SEPARATOR, b);
    OpenLineRunsOn(a, SEPARATOR + b);
    OpenLineIsNotEmpty(a);
    assert a + SEPARATOR + b == a + (SEPARATOR + b);
    assert Lines(SEPARATOR + b) == ["---"] + Lines(b);
    assert (["---"] + Lines(b))[1..] == Lines(b);
  }

  lemma {:induction false} FirstInkAppend(s: string)
    ensures FirstInk(s + "---") == if FirstInk(s).Some? then FirstInk(s) else Some('-')
  {
    if s == "" {
      assert s + "---" == "---";
    } else {
      assert (s + "---")[1..] == s[1..] + "---";
      FirstInkAppend(s[1..]);
    }
  }

  /** What becomes of a line with the dashes of a separator behind it: only a commented separator is one still. */
  lemma SwallowedLine(line: string)
    requires line != ""
    ensures Separates(line + "---") <==> Commented(line)
    ensures Spoilt(line) ==> Spoilt(line + "---")
  {
    var t := line + "---";
    if |line| >= 3 {
      assert t[..3] == line[..3] && t[3..] == line[3..] + "---";
      FirstInkAppend(line[3..]);
    } else {
      assert t[3] == "---"[3 - |line|] == '-';
      assert t[3..][0] == '-';
    }
  }

  // ---- documents of a joined text -----------------------------------------

  /** No line is a broken separator. */
  predicate Clean(lines: seq<string>) {
    forall i :: 0 <= i < |lines| ==> !Spoilt(lines[i])
  }

  predicate CleanText(text: string) {
    Clean(Lines(text))
  }

  /** The documents between the separators of a clean text, empty ones included. */
  function Documents(lines: seq<string>): (r: seq<seq<string>>)
    ensures r != []
  {
    if lines == [] then [[]]
    else
      var rest := Documents(lines[1..]);
      if Separates(lines[0]) then [[]] + rest else [[lines[0]] + rest[0]] + rest[1..]
  }

  /** The reader hands out exactly the documents of a clean text, and fails on any other. */
  lemma {:induction false} ReadsDocuments(lines: seq<string>)
    ensures Clean(lines) ==> Read(lines) == Stream(Documents(lines), true)
    ensures Read(lines).ok <==> Clean(lines)
  {
    if lines != [] {
      ReadsDocuments(lines[1..]);
      assert Clean(lines) <==> !Spoilt(lines[0]) && Clean(lines[1..]);
    }
  }

  /** In front of the first broken separator all documents but the one it interrupts are handed out. */
  lemma {:induction false} ReadStops(lines: seq<string>, bad: string, more: seq<string>)
    requires Clean(lines) && Spoilt(bad)
    ensures var before := Documents(lines);
            Read(lines + [bad] + more) == Stream(before[..|before| - 1], false)
  {
    var all := lines + [bad] + more;
    if lines == [] {
      assert all[0] == bad;
    } else {
      assert all[0] == lines[0] && all[1..] == lines[1..] + [bad] + more;
      assert !Spoilt(lines[0]) && Clean(lines[1..]);
      ReadStops(lines[1..], bad, more);
      var rest := Documents(lines[1..]);
      if Separates(lines[0]) {
        assert ([[]] + rest)[..|rest|] == [[]] + rest[..|rest| - 1];
      } else if |rest| > 1 {
        assert ([[lines[0]] + rest[0]] + rest[1..])[..|rest| - 1] == [[lines[0]] + rest[0]] + rest[..|rest| - 1][1..];
      }
    }
  }

  /** Spaces and tabs may follow a separator. */
  lemma {:induction false} BlanksMayFollow(blanks: string)
    requires forall c :: c in blanks ==> c == ' ' || c == '\t' || c == '\r'
    ensures Separates("---" + blanks)
  {
    assert ("---" + blanks)[3..] == blanks;
    NoInk(blanks);
  }

  lemma {:induction false} NoInk(blanks: string)
    requires forall c :: c in blanks ==> c == ' ' || c == '\t' || c == '\r'
    ensures FirstInk(blanks) == None
  {
    if blanks != "" {
      assert blanks[0] in blanks;
      assert forall c :: c in blanks[1..] ==> c in blanks;
      NoInk(blanks[1..]);
    }
  }

  lemma CleanAppend(a: seq<string>, b: seq<string>)
    ensures Clean(a + b) <==> Clean(a) && Clean(b)
  {
    if Clean(a + b) {
      assert forall i :: 0 <= i < |a| ==> a[i] == (a + b)[i];
      assert forall i :: 0 <= i < |b| ==> b[i] == (a + b)[|a| + i];
    }
  }

  lemma {:induction false} DocumentsAppend(a: seq<string>, sep: string, b: seq<string>)
    requires Separates(sep)
    ensures Documents(a + [sep] + b) == Documents(a) + Documents(b)
  {
    if a == [] {
      assert a + [sep] + b == [sep] + b;
      assert ([sep] + b)[1..] == b;
    } else {
      assert (a + [sep] + b)[1..] == a[1..] + [sep] + b;
      DocumentsAppend(a[1..], sep, b);
    }
  }

  lemma {:induction false} ScanAppend(a: seq<seq<string>>, b: seq<seq<string>>, parse: Parser)
    ensures Scan(a + b, parse) == Then(Scan(a, parse), Scan(b, parse))
  {
    if a == [] {
      assert a + b == b;
      assert [] + Scan(b, parse).objects == Scan(b, parse).objects;
    } else {
      assert (a + b)[1..] == a[1..] + b;
      ScanAppend(a[1..], b, parse);
    }
  }

  /** What is handed on: all objects of a text, or none if anything is wrong with it. */
  function ObjectsOf(text: string, parse: Parser): Option<seq<Object>> {
    var s := SplitText(text, parse);
    if s.ok then Some(s.objects) else None
  }

  function Both(a: Option<seq<Object>>, b: Option<seq<Object>>): Option<seq<Object>> {
    if a.Some? && b.Some? then Some(a.value + b.value) else None
  }

  function Accepted(s: Split): Option<seq<Object>> {
    if s.ok then Some(s.objects) else None
  }

  lemma ObjectsOfClean(text: string, parse: Parser)
    ensures ObjectsOf(text, parse) ==
            if CleanText(text) then Accepted(Scan(Documents(Lines(text)), parse)) else None
  {
    ReadsDocuments(Lines(text));
  }

  /** The documents that hold an object, in their order. */
  function Holding(documents: seq<seq<string>>, parse: Parser): seq<seq<string>> {
    if documents == [] then []
    else (if parse(documents[0]).Document? then [documents[0]] else []) + Holding(documents[1..], parse)
  }

  predicate AllParse(documents: seq<seq<string>>, parse: Parser) {
    forall d :: d in documents ==> !parse(d).Malformed?
  }

  lemma {:induction false} ScanIff(documents: seq<seq<string>>, parse: Parser)
    ensures Scan(documents, parse).ok <==> AllParse(documents, parse)
    ensures Scan(documents, parse).ok ==>
              var held, objects := Holding(documents, parse), Scan(documents, parse).objects;
              |objects| == |held| && forall i :: 0 <= i < |held| ==> parse(held[i]) == Document(objects[i])
  {
    if documents != [] {
      ScanIff(documents[1..], parse);
      assert documents == [documents[0]] + documents[1..];
      assert forall d :: d in documents <==> d == documents[0] || d in documents[1..];
    }
  }

  /** In front of the first thing that is wrong, the objects are the same. */
  lemma {:induction false} ScanStops(documents: seq<seq<string>>, parse: Parser, k: nat)
    requires k < |documents| && parse(documents[k]).Malformed?
    requires forall i :: 0 <= i < k ==> !parse(documents[i]).Malformed?
    ensures Scan(documents, parse) == Split(Scan(documents[..k], parse).objects, false)
  {
    if k > 0 {
      assert documents[1..][..k - 1] == documents[..k][1..];
      ScanStops(documents[1..], parse, k - 1);
    }
  }

  /**
   A text is accepted exactly if no separator is broken and no document malformed.
   Its objects are then those of the documents that hold one, one for one, in order.
   */
  lemma ObjectsIff(text: string, parse: Parser)
    ensures ObjectsOf(text, parse).Some? <==>
              CleanText(text) && AllParse(Documents(Lines(text)), parse)
    ensures ObjectsOf(text, parse).Some? ==>
              var held, objects := Holding(Documents(Lines(text)), parse), ObjectsOf(text, parse).value;
              |objects| == |held| && forall i :: 0 <= i < |held| ==> parse(held[i]) == Document(objects[i])
  {
    ObjectsOfClean(text, parse);
    ScanIff(Documents(Lines(text)), parse);
  }

  /** The end of a text keeps clear of a separator put behind it: a line break, or a separator with a comment. */
  predicate Closed(text: string) {
    Complete(text) || (Lines(text) != [] && Commented(LastOf(Lines(text))))
  }

  /** A broken separator on either side breaks the joined text. */
  lemma UncleanJoin(a: string, b: string)
    requires !CleanText(a) || !CleanText(b)
    ensures !CleanText(a + SEPARATOR + b)
  {
    if Complete(a) {
      CompleteLinesJoin(a, b);
      CleanAppend(Lines(a) + ["---"], Lines(b));
      CleanAppend(Lines(a), ["---"]);
    } else {
      var mine := Lines(a);
      OpenLineSwallowsSeparator(a, b);
      var init, last := mine[..|mine| - 1], LastOf(mine);
      SwallowedLine(last);
      assert mine == init + [last];
      CleanAppend(init, [last]);
      CleanAppend(init + [last + "---"], Lines(b));
      CleanAppend(init, [last + "---"]);
      assert [last][0] == last && [last + "---"][0] == last + "---";
    }
  }

  lemma SeparatedDocuments(x: seq<string>, sep: string, y: seq<string>)
    requires Separates(sep)
    ensures Documents(x + [sep] + y) == Documents(x) + Documents(y)
    ensures Clean(x + [sep] + y) <==> Clean(x) && Clean(y)
  {
    DocumentsAppend(x, sep, y);
    CleanAppend(x + [sep], y);
    CleanAppend(x, [sep]);
  }

  lemma CompleteJoin(a: string, b: string)
    requires Complete(a) && CleanText(a) && CleanText(b)
    ensures CleanText(a + SEPARATOR + b)
    ensures Documents(Lines(a + SEPARATOR + b)) == Documents(Lines(a)) + Documents(Lines(b))
  {
    SeparatorLine();
    CompleteLinesJoin(a, b);
    SeparatedDocuments(Lines(a), "---", Lines(b));
  }

  /** The documents of two clean texts, the first of which ends in an open separator with a comment. */
  lemma CommentedJoin(a: string, b: string) returns (front: seq<seq<string>>)
    requires !Complete(a) && Closed(a) && CleanText(a) && CleanText(b)
    ensures CleanText(a + SEPARATOR + b)
    ensures Documents(Lines(a)) == front + [[]]
    ensures Documents(Lines(a + SEPARATOR + b)) == front + Documents(Lines(b))
  {
    var mine := Lines(a);
    var init, last := mine[..|mine| - 1], LastOf(mine);
    OpenLineSwallowsSeparator(a, b);
    SwallowedLine(last);
    SeparatedDocuments(init, last, []);
    assert mine == init + [last] + [];
    SeparatedDocuments(init, last + "---", Lines(b));
    front := Documents(init);
  }

  lemma EmptyDocumentIsNothing(front: seq<seq<string>>, parse: Parser)
    requires parse([]) == Nothing
    ensures Scan(front + [[]], parse) == Scan(front, parse)
  {
    ScanAppend(front, [[]], parse);
    assert Scan([[]], parse) == Split([], true) by {
      var one: seq<seq<string>> := [[]];
      assert one[1..] == [];
    }
    assert Scan(front, parse).objects + [] == Scan(front, parse).objects;
  }

  lemma JoinTwo(a: string, b: string, parse: Parser)
    requires parse([]) == Nothing
    requires Closed(a) || !CleanText(a) || !CleanText(b)
    ensures ObjectsOf(a + SEPARATOR + b, parse) == Both(ObjectsOf(a, parse), ObjectsOf(b, parse))
  {
    ObjectsOfClean(a, parse);
    ObjectsOfClean(b, parse);
    ObjectsOfClean(a + SEPARATOR + b, parse);
    if !CleanText(a) || !CleanText(b) {
      UncleanJoin(a, b);
    } else if Complete(a) {
      CompleteJoin(a, b);
      ScanAppend(Documents(Lines(a)), Documents(Lines(b)), parse);
    } else {
      var front := CommentedJoin(a, b);
      EmptyDocumentIsNothing(front, parse);
      ScanAppend(front, Documents(Lines(b)), parse);
    }
  }

  /** Every text split by itself. */
  function ObjectsOfEach(texts: seq<string>, parse: Parser): Option<seq<Object>> {
    if texts == [] then Some([])
    else Both(ObjectsOfEach(texts[..|texts| - 1], parse), ObjectsOf(texts[|texts| - 1], parse))
  }

  predicate AllClean(texts: seq<string>) {
    forall i :: 0 <= i < |texts| ==> CleanText(texts[i])
  }

  /** Every text but the last is closed. */
  predicate AllButLastClosed(texts: seq<string>) {
    forall i :: 0 <= i < |texts| - 1 ==> Closed(texts[i])
  }

  lemma JoinEndsAsLast(texts: seq<string>)
    requires texts != []
    ensures Closed(Join(texts)) <==> Closed(texts[|texts| - 1])
  {
    var joined, last := Join(texts), texts[|texts| - 1];
    if |texts| > 1 {
      var init := Join(texts[..|texts| - 1]);
      assert joined == init + SEPARATOR + last;
      EndsAsLast(init, last);
    } else {
      assert joined == last;
    }
  }

  lemma EndsAsLast(a: string, b: string)
    ensures Closed(a + SEPARATOR + b) <==> Closed(b)
  {
    var t := a + SEPARATOR + b;
    if b == "" {
      assert t[|t| - 1] == '\n';
    } else {
      assert t[|t| - 1] == b[|b| - 1];
      assert Complete(a + SEPARATOR);
      LinesAppend(a + SEPARATOR, b);
      assert LastOf(Lines(t)) == LastOf(Lines(b));
    }
  }

  lemma {:induction false} UncleanJoins(texts: seq<string>)
    requires !AllClean(texts)
    ensures !CleanText(Join(texts))
  {
    var init, last := texts[..|texts| - 1], texts[|texts| - 1];
    if |texts| > 1 {
      assert AllClean(texts) <==> AllClean(init) && CleanText(last);
      if !AllClean(init) {
        UncleanJoins(init);
      }
      UncleanJoin(Join(init), last);
    }
  }

  lemma {:induction false} UncleanEach(texts: seq<string>, parse: Parser)
    requires !AllClean(texts)
    ensures ObjectsOfEach(texts, parse).None?
  {
    var init, last := texts[..|texts| - 1], texts[|texts| - 1];
    ObjectsOfClean(last, parse);
    if CleanText(last) {
      assert AllClean(texts) <==> AllClean(init) && CleanText(last);
      UncleanEach(init, parse);
    }
  }

  /**
   Join and split are homomorphic: if every template but the last is closed,
   splitting the joined buffer yields the objects of each template in turn.
   */
  lemma {:induction false} JoinThenSplit(texts: seq<string>, parse: Parser)
    requires AllButLastClosed(texts)
    requires parse([]) == Nothing
    ensures ObjectsOf(Join(texts), parse) == ObjectsOfEach(texts, parse)
  {
    if texts == [] {
      assert Read([]) == Stream([[]], true);
      var front: seq<seq<string>> := [];
      EmptyDocumentIsNothing(front, parse);
      assert front + [[]] == [[]];
    } else {
      var init, last := texts[..|texts| - 1], texts[|texts| - 1];
      if |texts| == 1 {
        assert init == [];
        assert ObjectsOfEach(init, parse) == Some([]);
        assert ObjectsOf(last, parse).Some? ==> [] + ObjectsOf(last, parse).value == ObjectsOf(last, parse).value;
      } else {
        assert forall i :: 0 <= i < |init| ==> Closed(init[i]);
        JoinEndsAsLast(init);
        JoinThenSplit(init, parse);
        JoinTwo(Join(init), last, parse);
      }
    }
  }

  /**
   All extra resources together, template by template: accepted exactly if all
   templates render and each text can be split by itself, with the objects of each
   template in turn; for templates whose texts, but for the last, are closed.
   */
  lemma DeserializedInTurn(extras: seq<Extra>, name: string, engine: Engine, parse: Parser)
    requires parse([]) == Nothing
    requires Rendered(extras, name, engine).Done? ==> AllButLastClosed(Rendered(extras, name, engine).value)
    ensures Deserialized(extras, name, engine, parse) ==
            match Rendered(extras, name, engine)
            case Error => Error
            case Panic => Panic
            case Done(texts) =>
              match ObjectsOfEach(texts, parse)
              case None => Error
              case Some(objects) => Done(objects)
  {
    if Rendered(extras, name, engine).Done? {
      JoinThenSplit(Rendered(extras, name, engine).value, parse);
    }
  }

  // ---- exactly when join and split agree ----------------------------------

  function Text(document: seq<string>): string {
    if document == [] then "" else document[0] + Text(document[1..])
  }

  /** A parser that keeps everything it is given. */
  const VERBATIM: Parser := (document: seq<string>) =>
    if document == [] then Nothing else Document(Object("", Text(document), false))

  function Size(objects: seq<Object>): nat {
    if objects == [] then 0 else |objects[0].body| + Size(objects[1..])
  }

  function DocumentSize(documents: seq<seq<string>>): nat {
    if documents == [] then 0 else |Text(documents[0])| + DocumentSize(documents[1..])
  }

  /** The characters of a text that belong to its documents. */
  function Content(lines: seq<string>): nat {
    if lines == [] then 0 else (if Separates(lines[0]) then 0 else |lines[0]|) + Content(lines[1..])
  }

  function Weight(text: string): nat {
    Content(Lines(text))
  }

  lemma {:induction false} ContentAppend(a: seq<string>, b: seq<string>)
    ensures Content(a + b) == Content(a) + Content(b)
  {
    if a == [] {
      assert a + b == b;
    } else {
      assert (a + b)[1..] == a[1..] + b;
      ContentAppend(a[1..], b);
    }
  }

  lemma {:induction false} SizeAppend(a: seq<Object>, b: seq<Object>)
    ensures Size(a + b) == Size(a) + Size(b)
  {
    if a == [] {
      assert a + b == b;
    } else {
      assert (a + b)[1..] == a[1..] + b;
      SizeAppend(a[1..], b);
    }
  }

  lemma {:induction false} DocumentsKeepContent(lines: seq<string>)
    ensures DocumentSize(Documents(lines)) == Content(lines)
  {
    if lines != [] {
      var rest := Documents(lines[1..]);
      DocumentsKeepContent(lines[1..]);
      if Separates(lines[0]) {
        assert ([[]] + rest)[1..] == rest;
      } else {
        assert ([[lines[0]] + rest[0]] + rest[1..])[1..] == rest[1..];
        assert ([lines[0]] + rest[0])[1..] == rest[0];
      }
    }
  }

  lemma {:induction false} ScanKeepsContent(documents: seq<seq<string>>)
    ensures Scan(documents, VERBATIM).ok && Size(Scan(documents, VERBATIM).objects) == DocumentSize(documents)
  {
    if documents != [] {
      ScanKeepsContent(documents[1..]);
      var rest := Scan(documents[1..], VERBATIM).objects;
      if documents[0] != [] {
        assert ([Object("", Text(documents[0]), false)] + rest)[1..] == rest;
      }
    }
  }

  lemma SplitKeepsContent(text: string)
    ensures ObjectsOf(text, VERBATIM).Some? <==> CleanText(text)
    ensures CleanText(text) ==> Size(ObjectsOf(text, VERBATIM).value) == Weight(text)
  {
    ObjectsOfClean(text, VERBATIM);
    ScanKeepsContent(Documents(Lines(text)));
    DocumentsKeepContent(Lines(text));
  }

  /** Where everything stays clean, a text that is not closed shows: its last line grows by the dashes. */
  lemma JoinWeight(a: string, b: string)
    requires CleanText(a) && CleanText(b) && CleanText(a + SEPARATOR + b)
    ensures Weight(a + SEPARATOR + b) >= Weight(a) + Weight(b)
    ensures Weight(a + SEPARATOR + b) == Weight(a) + Weight(b) <==> Closed(a)
  {
    if Complete(a) {
      SeparatorLine();
      CompleteLinesJoin(a, b);
      ContentAppend(Lines(a) + ["---"], Lines(b));
      ContentAppend(Lines(a), ["---"]);
    } else {
      var mine := Lines(a);
      OpenLineSwallowsSeparator(a, b);
      var init, last := mine[..|mine| - 1], LastOf(mine);
      SwallowedLine(last);
      ContentAppend(init + [last + "---"], Lines(b));
      ContentAppend(init, [last + "---"]);
      ContentAppend(init, [last]);
      assert mine == init + [last];
    }
  }

  /**
   Two texts joined by the separator split as one after the other, for every
   parser that skips empty documents, exactly when the first is closed or one of
   them fails by itself on a broken separator.
   */
  lemma JoinTwoIff(a: string, b: string)
    ensures (forall parse: Parser | parse([]) == Nothing ::
               ObjectsOf(a + SEPARATOR + b, parse) == Both(ObjectsOf(a, parse), ObjectsOf(b, parse)))
            <==> Closed(a) || !CleanText(a) || !CleanText(b)
  {
    if Closed(a) || !CleanText(a) || !CleanText(b) {
      forall parse: Parser | parse([]) == Nothing
        ensures ObjectsOf(a + SEPARATOR + b, parse) == Both(ObjectsOf(a, parse), ObjectsOf(b, parse))
      {
        JoinTwo(a, b, parse);
      }
    } else {
      SplitKeepsContent(a + SEPARATOR + b);
      SplitKeepsContent(a);
      SplitKeepsContent(b);
      SizeAppend(ObjectsOf(a, VERBATIM).value, ObjectsOf(b, VERBATIM).value);
      if CleanText(a + SEPARATOR + b) {
        JoinWeight(a, b);
      }
      assert VERBATIM([]) == Nothing;
      assert ObjectsOf(a + SEPARATOR + b, VERBATIM) != Both(ObjectsOf(a, VERBATIM), ObjectsOf(b, VERBATIM));
    }
  }

  function Weights(texts: seq<string>): nat {
    if texts == [] then 0 else Weights(texts[..|texts| - 1]) + Weight(texts[|texts| - 1])
  }

  lemma ButOneLess(texts: seq<string>)
    requires |texts| > 1
    ensures var init := texts[..|texts| - 1];
            && (AllButLastClosed(texts) <==> AllButLastClosed(init) && Closed(init[|init| - 1]))
            && (AllClean(texts) <==> AllClean(init) && CleanText(texts[|texts| - 1]))
  {
    var init := texts[..|texts| - 1];
    assert forall i :: 0 <= i < |init| ==> init[i] == texts[i];
  }

  lemma JoinedWeight(a: string, b: string, w: nat)
    requires CleanText(b) && CleanText(a + SEPARATOR + b)
    requires CleanText(a) ==> Weight(a) >= w
    ensures CleanText(a)
    ensures Weight(a + SEPARATOR + b) >= w + Weight(b)
    ensures Weight(a + SEPARATOR + b) == w + Weight(b) <==> Weight(a) == w && Closed(a)
  {
    if !CleanText(a) {
      UncleanJoin(a, b);
    }
    JoinWeight(a, b);
  }

  lemma {:induction false} JoinWeights(texts: seq<string>)
    requires AllClean(texts)
    ensures CleanText(Join(texts)) ==> Weight(Join(texts)) >= Weights(texts)
    ensures CleanText(Join(texts)) ==> (Weight(Join(texts)) == Weights(texts) <==> AllButLastClosed(texts))
  {
    if |texts| > 1 {
      var init, last := texts[..|texts| - 1], texts[|texts| - 1];
      ButOneLess(texts);
      JoinWeights(init);
      JoinEndsAsLast(init);
      if CleanText(Join(texts)) {
        JoinedWeight(Join(init), last, Weights(init));
      }
    } else if |texts| == 1 {
      assert texts[..0] == [];
    }
  }

  lemma {:induction false} SplitEachKeepsContent(texts: seq<string>)
    requires AllClean(texts)
    ensures ObjectsOfEach(texts, VERBATIM).Some? && Size(ObjectsOfEach(texts, VERBATIM).value) == Weights(texts)
  {
    if texts != [] {
      var init, last := texts[..|texts| - 1], texts[|texts| - 1];
      SplitEachKeepsContent(init);
      SplitKeepsContent(last);
      SizeAppend(ObjectsOfEach(init, VERBATIM).value, ObjectsOf(last, VERBATIM).value);
    }
  }

  /**
   The joined buffer splits into the objects of each template in turn, for every
   parser that skips empty documents, exactly when every template but the last is
   closed, or some template fails by itself on a broken separator.
   */
  lemma JoinThenSplitIff(texts: seq<string>)
    ensures (forall parse: Parser | parse([]) == Nothing ::
               ObjectsOf(Join(texts), parse) == ObjectsOfEach(texts, parse))
            <==> AllButLastClosed(texts) || !AllClean(texts)
  {
    if AllButLastClosed(texts) || !AllClean(texts) {
      forall parse: Parser | parse([]) == Nothing
        ensures ObjectsOf(Join(texts), parse) == ObjectsOfEach(texts, parse)
      {
        if AllClean(texts) {
          JoinThenSplit(texts, parse);
        } else {
          UncleanJoins(texts);
          ObjectsOfClean(Join(texts), parse);
          UncleanEach(texts, parse);
        }
      }
    } else {
      SplitKeepsContent(Join(texts));
      SplitEachKeepsContent(texts);
      if CleanText(Join(texts)) {
        JoinWeights(texts);
      }
      assert VERBATIM([]) == Nothing;
      assert ObjectsOf(Join(texts), VERBATIM) != ObjectsOfEach(texts, VERBATIM);
    }
  }

  // ---- three short templates ----------------------------------------------

  lemma {:induction false} OneDocument(lines: seq<string>)
    requires forall i :: 0 <= i < |lines| ==> !Dashed(lines[i])
    ensures Documents(lines) == [lines]
  {
    if lines != [] {
      OneDocument(lines[1..]);
      assert [lines[0]] + lines[1..] == lines;
    }
  }

  /** An open line runs on: two templates of one line each become one document instead of two. */
  lemma OpenLineExample()
    ensures Documents(Lines("x" + SEPARATOR + "y")) == [["x---", "y"]]
    ensures Documents(Lines("x")) + Documents(Lines("y")) == [["x"], ["y"]]
  {
    OpenLineSwallowsSeparator("x", "y");
    assert "x"[1..] == "" && "y"[1..] == "";
    assert Lines("x") == ["x"] && Lines("y") == ["y"];
    assert "x" + "---" == "x---" && ["x"][..0] == [];
    assert Lines("x" + SEPARATOR + "y") == ["x---", "y"];
    OneDocument(["x---", "y"]);
    OneDocument(["x"]);
    OneDocument(["y"]);
  }

  /** An open line that is a bare separator, or a dash, breaks the one behind it: nothing can be split any more. */
  lemma OpenDashesExample(b: string, parse: Parser)
    ensures ObjectsOf("-" + SEPARATOR + b, parse).None?
  {
    OpenLineSwallowsSeparator("-", b);
    assert "-"[1..] == "" && Lines("-") == ["-"];
    var line := "-" + "---";
    assert line[..3] == "---" && line[3..] == "-";
    assert FirstInk("-") == Some('-');
    assert Lines("-" + SEPARATOR + b)[0] == line;
    ObjectsOfClean("-" + SEPARATOR + b, parse);
  }

  /** An open line that is a separator with a comment is one still, with the dashes in its comment. */
  lemma OpenCommentExample()
    ensures Closed("---#")
  {
    var line := "---#";
    assert line[3..] == "#";
    assert FirstInk("#") == Some('#');
    OneLine(line);
  }

  lemma {:induction false} OneLine(line: string)
    requires line != "" && '\n' !in line
    ensures Lines(line) == [line]
  {
    if line[1..] != "" {
      OneLine(line[1..]);
      assert [line[0]] + line[1..] == line;
    } else {
      assert line == [line[0]];
    }
  }
}
