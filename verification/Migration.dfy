/** The rewrite of `migration/migrate-python.py`: calls of the clients' old forms become the
    keyword form, bottom up. */
module Migration {
  import opened Wrappers

  /** How the text of a node starts: with a bracket, quote or operator of its own, with a word
      of its own, or with its first child. */
  datatype Start = OwnSign | OwnWord | FirstChild

  /** A Python syntax tree. `Str` is a simple string literal, `Word` an expression or statement
      that starts with a keyword, `tight` if nothing lies between the keyword and its operand;
      every node that is none of the others is `Other`. */
  datatype Expr =
    | Name(parens: bool, id: string)
    | Str(parens: bool, text: string)
    | Attribute(parens: bool, value: Expr, attr: string)
    | Call(parens: bool, func: Expr, args: seq<Arg>)
    | Walrus(parens: bool, target: string, bound: Expr)
    | Generator(parens: bool, parts: seq<Expr>)
    | Word(word: string, tight: bool, operand: Expr)
    | Other(kind: string, start: Start, children: seq<Expr>)

  /** `star` is "", "*" or "**". */
  datatype Arg = Arg(keyword: Option<string>, star: string, value: Expr)

  const CLIENTS := {"RestClient", "WebSocketClient"}

  const STATICS := map["with_bearer_token" := "bearer_token", "with_sdk_token" := "sdk_token"]

  // ---------------------------------------------------------------- the rewrite

  predicate OnePositional(args: seq<Arg>) { |args| == 1 && args[0].keyword.None? }

  /** `_matches_client_constructor` */
  predicate MatchesConstructor(func: Expr, args: seq<Arg>) {
    && func.Name? && func.id in CLIENTS
    && OnePositional(args)
    && (args[0].value.Str? || args[0].value.Name?)
  }

  /** `_matches_static_method` */
  predicate MatchesStatic(func: Expr, args: seq<Arg>) {
    && func.Attribute? && func.value.Name? && func.value.id in CLIENTS
    && func.attr in STATICS
    && OnePositional(args)
  }

  predicate Matches(func: Expr, args: seq<Arg>) { MatchesConstructor(func, args) || MatchesStatic(func, args) }

  function KeywordCall(parens: bool, client: Expr, keyword: string, value: Expr): Expr {
    Call(parens, client, [Arg(Some(keyword), "", value)])
  }

  /** `leave_Call`: a constructor call keeps its own parentheses, a static call is built anew. */
  function Leave(parens: bool, func: Expr, args: seq<Arg>): Expr {
    if MatchesConstructor(func, args) then KeywordCall(parens, func, "api_key", args[0].value)
    else if MatchesStatic(func, args) then KeywordCall(false, func.value, STATICS[func.attr], args[0].value)
    else Call(parens, func, args)
  }

  function TransformArgs(args: seq<Arg>): (r: seq<Arg>)
    ensures |r| == |args|
    decreases args
  {
    seq(|args|, i requires 0 <= i < |args| => args[i].(value := Transform(args[i].value)))
  }

  function TransformAll(es: seq<Expr>): (r: seq<Expr>)
    ensures |r| == |es|
    decreases es
  {
    seq(|es|, i requires 0 <= i < |es| => Transform(es[i]))
  }

  function Transform(e: Expr): Expr
    decreases e
  {
    match e
    case Name(_, _) | Str(_, _) => e
    case Attribute(parens, value, attr) => Attribute(parens, Transform(value), attr)
    case Call(parens, func, args) => Leave(parens, Transform(func), TransformArgs(args))
    case Walrus(parens, target, bound) => Walrus(parens, target, Transform(bound))
    case Generator(parens, parts) => Generator(parens, TransformAll(parts))
    case Word(word, tight, operand) => Word(word, tight, Transform(operand))
    case Other(kind, start, children) => Other(kind, start, TransformAll(children))
  }

  /** Rewriting keeps what kind of tree it is, and the parts the matchers look at. */
  lemma KeepsShape(e: Expr)
    ensures Transform(e).Name? == e.Name? && Transform(e).Str? == e.Str? && Transform(e).Attribute? == e.Attribute?
    ensures Transform(e).Call? == e.Call? && Transform(e).Walrus? == e.Walrus?
      && Transform(e).Generator? == e.Generator?
    ensures e.Walrus? || e.Generator? ==> Transform(e).parens == e.parens
    ensures e.Name? ==> Transform(e) == e
    ensures e.Attribute? && e.value.Name? ==> Transform(e) == e
    ensures e.Attribute? ==> Transform(e).value.Name? == e.value.Name?
  {
    if e.Attribute? && e.value.Call? { assert Transform(e.value).Call?; }
  }

  lemma KeepsMatches(func: Expr, args: seq<Arg>)
    ensures MatchesConstructor(Transform(func), TransformArgs(args)) == MatchesConstructor(func, args)
    ensures MatchesStatic(Transform(func), TransformArgs(args)) == MatchesStatic(func, args)
    ensures Matches(func, args) ==> Transform(func) == func
  {
    KeepsShape(func);
    if |args| == 1 { KeepsShape(args[0].value); }
  }

  // ---------------------------------------------------------------- the forms, one by one

  /** `RestClient("key")` becomes `RestClient(api_key="key")`. */
  lemma OldConstructor(parens: bool, func: Expr, args: seq<Arg>)
    requires func.Name? && (func.id == "RestClient" || func.id == "WebSocketClient")
    requires |args| == 1 && args[0].keyword == None && (args[0].value.Str? || args[0].value.Name?)
    ensures Transform(Call(parens, func, args)) == Call(parens, func, [Arg(Some("api_key"), "", args[0].value)])
  {
    KeepsMatches(func, args);
    KeepsShape(args[0].value);
  }

  /** `RestClient.with_bearer_token(t)` becomes `RestClient(bearer_token=t)`, and
      `RestClient.with_sdk_token(t)` becomes `RestClient(sdk_token=t)`. */
  lemma OldStatic(parens: bool, func: Expr, args: seq<Arg>, value: Expr)
    requires func.Attribute? && func.value.Name?
    requires func.value.id == "RestClient" || func.value.id == "WebSocketClient"
    requires |args| == 1 && args[0].keyword == None && value == Transform(args[0].value)
    ensures func.attr == "with_bearer_token" ==>
      Transform(Call(parens, func, args)) == Call(false, func.value, [Arg(Some("bearer_token"), "", value)])
    ensures func.attr == "with_sdk_token" ==>
      Transform(Call(parens, func, args)) == Call(false, func.value, [Arg(Some("sdk_token"), "", value)])
  {
    KeepsMatches(func, args);
  }

  /** `func(args)` has one of the old forms. */
  predicate OldForm(func: Expr, args: seq<Arg>) {
    && |args| == 1 && args[0].keyword == None
    && match func
       case Name(_, id) =>
         (id == "RestClient" || id == "WebSocketClient") && (args[0].value.Str? || args[0].value.Name?)
       case Attribute(_, Name(_, id), attr) =>
         (id == "RestClient" || id == "WebSocketClient") && (attr == "with_bearer_token" || attr == "with_sdk_token")
       case _ => false
  }

  /** Any other call stays a call of the same arguments, under the same keywords and stars. */
  lemma OtherCalls(parens: bool, func: Expr, args: seq<Arg>)
    requires !OldForm(func, args)
    ensures var r := Transform(Call(parens, func, args));
      && r.Call? && r.parens == parens && r.func == Transform(func) && |r.args| == |args|
      && forall i :: 0 <= i < |args| ==> r.args[i] == Arg(args[i].keyword, args[i].star, Transform(args[i].value))
  {
    KeepsMatches(func, args);
  }

  // ---------------------------------------------------------------- a second pass changes nothing

  lemma KeywordCallStays(parens: bool, client: Expr, keyword: string, value: Expr)
    requires Transform(client) == client && Transform(value) == value
    ensures Transform(KeywordCall(parens, client, keyword, value)) == KeywordCall(parens, client, keyword, value)
  {
    var args := [Arg(Some(keyword), "", value)];
    assert TransformArgs(args) == args;
  }

  lemma LeaveTwice(parens: bool, func: Expr, args: seq<Arg>)
    requires Transform(func) == func && TransformArgs(args) == args
    ensures Transform(Leave(parens, func, args)) == Leave(parens, func, args)
  {
    if Matches(func, args) {
      assert TransformArgs(args)[0].value == Transform(args[0].value);
      if func.Name? {
        KeywordCallStays(parens, func, "api_key", args[0].value);
      } else {
        KeywordCallStays(false, func.value, STATICS[func.attr], args[0].value);
      }
    }
  }

  lemma {:induction false} IdempotentAll(es: seq<Expr>)
    ensures TransformAll(TransformAll(es)) == TransformAll(es)
    decreases es, 0
  {
    forall i | 0 <= i < |es| ensures Transform(Transform(es[i])) == Transform(es[i]) { Idempotent(es[i]); }
  }

  /** A second pass changes nothing. */
  lemma {:induction false} Idempotent(e: Expr)
    ensures Transform(Transform(e)) == Transform(e)
    decreases e, 1
  {
    match e
    case Name(_, _) =>
    case Str(_, _) =>
    case Attribute(_, value, _) => Idempotent(value);
    case Walrus(_, _, bound) => Idempotent(bound);
    case Generator(_, parts) => IdempotentAll(parts);
    case Word(_, _, operand) => Idempotent(operand);
    case Other(_, _, children) => IdempotentAll(children);
    case Call(parens, func, args) =>
      Idempotent(func);
      forall i | 0 <= i < |args| ensures Transform(Transform(args[i].value)) == Transform(args[i].value) {
        Idempotent(args[i].value);
      }
      assert TransformArgs(TransformArgs(args)) == TransformArgs(args);
      LeaveTwice(parens, Transform(func), TransformArgs(args));
  }

  // ---------------------------------------------------------------- nothing old is left

  predicate MigratedAll(es: seq<Expr>)
    decreases es, 0
  {
    forall i :: 0 <= i < |es| ==> Migrated(es[i])
  }

  /** No call has an old form. */
  predicate Migrated(e: Expr)
    decreases e, 1
  {
    match e
    case Name(_, _) | Str(_, _) => true
    case Attribute(_, value, _) => Migrated(value)
    case Call(_, func, args) =>
      && !Matches(func, args)
      && Migrated(func)
      && (forall i :: 0 <= i < |args| ==> Migrated(args[i].value))
    case Walrus(_, _, bound) => Migrated(bound)
    case Generator(_, parts) => MigratedAll(parts)
    case Word(_, _, operand) => Migrated(operand)
    case Other(_, _, children) => MigratedAll(children)
  }

  lemma {:induction false} NoneLeftAll(es: seq<Expr>)
    ensures MigratedAll(TransformAll(es)) && (TransformAll(es) == es <==> MigratedAll(es))
    decreases es, 0
  {
    var after := TransformAll(es);
    forall i | 0 <= i < |es| ensures Migrated(after[i]) && (after[i] == es[i] <==> Migrated(es[i])) { NoneLeft(es[i]); }
  }

  /** The rewrite leaves no old form anywhere, and leaves alone exactly the trees without one. */
  lemma {:induction false} NoneLeft(e: Expr)
    ensures Migrated(Transform(e)) && (Transform(e) == e <==> Migrated(e))
    decreases e, 1
  {
    match e
    case Name(_, _) =>
    case Str(_, _) =>
    case Attribute(_, value, _) => NoneLeft(value);
    case Walrus(_, _, bound) => NoneLeft(bound);
    case Generator(_, parts) => NoneLeftAll(parts);
    case Word(_, _, operand) => NoneLeft(operand);
    case Other(_, _, children) => NoneLeftAll(children);
    case Call(_, func, args) =>
      NoneLeft(func);
      forall i | 0 <= i < |args|
        ensures Migrated(Transform(args[i].value))
        ensures Transform(args[i].value) == args[i].value <==> Migrated(args[i].value)
      {
        NoneLeft(args[i].value);
      }
      KeepsMatches(func, args);
      ArgsAlone(args);
      assert MatchesStatic(func, args) ==> Migrated(func.value);
  }

  lemma ArgsAlone(args: seq<Arg>)
    ensures TransformArgs(args) == args <==> forall i :: 0 <= i < |args| ==> Transform(args[i].value) == args[i].value
  {
    var after := TransformArgs(args);
    if after == args {
      forall i | 0 <= i < |args| ensures Transform(args[i].value) == args[i].value { assert after[i] == args[i]; }
    }
  }

  // ---------------------------------------------------------------- what a tree means

  /** Meanings: a client constructed with one credential, or what the parts of a tree mean. */
  datatype Meaning =
    | Construct(client: string, credential: string, value: Meaning)
    | Var(id: string)
    | Literal(text: string)
    | Select(value: Meaning, attr: string)
    | Apply(func: Meaning, args: seq<ArgMeaning>)
    | Bind(target: string, bound: Meaning)
    | Generate(parts: seq<Meaning>)
    | Operate(word: string, operand: Meaning)
    | Compound(kind: string, parts: seq<Meaning>)

  datatype ArgMeaning = ArgMeaning(keyword: Option<string>, star: string, value: Meaning)

  /** The client and the credential a call passes to it, old form or new; a starred argument is
      any number of arguments and none of these. */
  function Constructs(func: Expr, args: seq<Arg>): Option<(string, string)> {
    if |args| != 1 || args[0].star != "" then None
    else if func.Name? && func.id in CLIENTS && args[0].keyword.None? then Some((func.id, "api_key"))
    else if func.Name? && func.id in CLIENTS && args[0].keyword.value in {"api_key", "bearer_token", "sdk_token"} then
      Some((func.id, args[0].keyword.value))
    else if MatchesStatic(func, args) then Some((func.value.id, STATICS[func.attr]))
    else None
  }

  function DenoteArgs(args: seq<Arg>): (r: seq<ArgMeaning>)
    ensures |r| == |args|
    decreases args
  {
    seq(|args|, i requires 0 <= i < |args| => ArgMeaning(args[i].keyword, args[i].star, Denote(args[i].value)))
  }

  function DenoteAll(es: seq<Expr>): (r: seq<Meaning>)
    ensures |r| == |es|
    decreases es
  {
    seq(|es|, i requires 0 <= i < |es| => Denote(es[i]))
  }

  /** What a tree means, if its text is Python. */
  function Denote(e: Expr): Meaning
    decreases e
  {
    match e
    case Name(_, id) => Var(id)
    case Str(_, text) => Literal(text)
    case Attribute(_, value, attr) => Select(Denote(value), attr)
    case Call(_, func, args) =>
      var c := Constructs(func, args);
      if c.Some? then Construct(c.value.0, c.value.1, Denote(args[0].value)) else Apply(Denote(func), DenoteArgs(args))
    case Walrus(_, target, bound) => Bind(target, Denote(bound))
    case Generator(_, parts) => Generate(DenoteAll(parts))
    case Word(word, _, operand) => Operate(word, Denote(operand))
    case Other(kind, _, children) => Compound(kind, DenoteAll(children))
  }

  // ---------------------------------------------------------------- what is Python

  /** Python takes `:=` and generators without parentheses as positional arguments only. */
  predicate Bare(e: Expr) { (e.Walrus? || e.Generator?) && !e.parens }

  predicate ArgStands(args: seq<Arg>, i: nat)
    requires i < |args|
  {
    Bare(args[i].value) ==>
      args[i].keyword.None? && args[i].star == "" && (args[i].value.Generator? ==> |args| == 1)
  }

  /** The text of `e` starts with a character that cannot continue a word. */
  predicate Opens(e: Expr)
    decreases e
  {
    match e
    case Name(parens, _) => parens
    case Str(parens, text) => parens || (text != "" && text[0] in "'\"")
    case Attribute(parens, value, _) => parens || Opens(value)
    case Call(parens, func, _) => parens || Opens(func)
    case Walrus(parens, _, _) => parens
    case Generator(parens, parts) => parens || (parts != [] && Opens(parts[0]))
    case Word(_, _, _) => false
    case Other(_, start, children) =>
      start.OwnSign? || (start.FirstChild? && children != [] && Opens(children[0]))
  }

  /** The two rules of Python's syntax that the rewrite can break hold all over the tree: where
      bare arguments stand, and that a word and what follows it do not run together. */
  predicate Parses(e: Expr)
    decreases e
  {
    match e
    case Name(_, _) | Str(_, _) => true
    case Attribute(_, value, _) => Parses(value)
    case Call(_, func, args) =>
      && Parses(func)
      && (forall i :: 0 <= i < |args| ==> ArgStands(args, i) && Parses(args[i].value))
    case Walrus(_, _, bound) => Parses(bound)
    case Generator(_, parts) => forall i :: 0 <= i < |parts| ==> Parses(parts[i])
    case Word(_, tight, operand) => Parses(operand) && (tight ==> Opens(operand))
    case Other(_, _, children) => forall i :: 0 <= i < |children| ==> Parses(children[i])
  }

  function Means(e: Expr): Option<Meaning> { if Parses(e) then Some(Denote(e)) else None }

  // ---------------------------------------------------------------- the condition on the input

  /** `Opens` of the rewritten tree, read off the original: only a static call that is taken
      loses its parentheses, and then starts with the client's name. */
  predicate OpensAfter(e: Expr)
    decreases e
  {
    match e
    case Name(_, _) | Str(_, _) | Word(_, _, _) => Opens(e)
    case Attribute(parens, value, _) => parens || OpensAfter(value)
    case Call(parens, func, args) =>
      if MatchesStatic(func, args) then func.value.parens else parens || OpensAfter(func)
    case Walrus(parens, _, _) => parens
    case Generator(parens, parts) => parens || (parts != [] && OpensAfter(parts[0]))
    case Other(_, start, children) =>
      start.OwnSign? || (start.FirstChild? && children != [] && OpensAfter(children[0]))
  }

  /** Every call the matchers take has an argument that may carry a keyword: no star, not bare;
      and no word relies on parentheses that go. */
  predicate Safe(e: Expr)
    decreases e
  {
    match e
    case Name(_, _) | Str(_, _) => true
    case Attribute(_, value, _) => Safe(value)
    case Call(_, func, args) =>
      && (Matches(func, args) ==> args[0].star == "" && !Bare(args[0].value))
      && Safe(func)
      && (forall i :: 0 <= i < |args| ==> Safe(args[i].value))
    case Walrus(_, _, bound) => Safe(bound)
    case Generator(_, parts) => forall i :: 0 <= i < |parts| ==> Safe(parts[i])
    case Word(_, tight, operand) => Safe(operand) && (tight ==> OpensAfter(operand))
    case Other(_, _, children) => forall i :: 0 <= i < |children| ==> Safe(children[i])
  }

  lemma {:induction false} OpensAfterMeans(e: Expr)
    ensures Opens(Transform(e)) == OpensAfter(e)
    decreases e
  {
    match e
    case Name(_, _) =>
    case Str(_, _) =>
    case Attribute(_, value, _) => OpensAfterMeans(value);
    case Call(_, func, args) =>
      OpensAfterMeans(func);
      KeepsMatches(func, args);
    case Walrus(_, _, _) =>
    case Generator(_, parts) => if parts != [] { OpensAfterMeans(parts[0]); }
    case Word(_, _, _) =>
    case Other(_, _, children) => if children != [] { OpensAfterMeans(children[0]); }
  }

  // ---------------------------------------------------------------- the meaning is kept

  lemma KeepsConstructs(func: Expr, args: seq<Arg>)
    ensures Constructs(Transform(func), TransformArgs(args)) == Constructs(func, args)
  {
    KeepsMatches(func, args);
    KeepsShape(func);
  }

  /** What a taken call is rewritten to constructs what it did, unless its argument was starred. */
  lemma TakenConstructs(func: Expr, args: seq<Arg>)
    requires Matches(func, args)
    ensures Constructs(func, args).Some? <==> args[0].star == ""
    ensures
      var after := Leave(false, func, args);
      && Constructs(after.func, after.args).Some?
      && (args[0].star == "" ==> Constructs(after.func, after.args) == Constructs(func, args))
  {
  }

  /** `e` is Python before and after, with the same meaning. */
  predicate Kept(e: Expr) { Parses(Transform(e)) && Denote(Transform(e)) == Denote(e) }

  predicate KeptAll(es: seq<Expr>) { forall i :: 0 <= i < |es| ==> Kept(es[i]) }

  lemma PartsKept(es: seq<Expr>)
    ensures KeptAll(es) <==>
      (forall i :: 0 <= i < |es| ==> Parses(TransformAll(es)[i])) && DenoteAll(TransformAll(es)) == DenoteAll(es)
  {
    var before, after := DenoteAll(es), DenoteAll(TransformAll(es));
    forall i | 0 <= i < |es| ensures after[i] == before[i] <==> Denote(Transform(es[i])) == Denote(es[i]) {}
    if forall i :: 0 <= i < |es| ==> Denote(Transform(es[i])) == Denote(es[i]) {
      assert after == before;
    }
    if KeptAll(es) {
      forall i | 0 <= i < |es| ensures Denote(Transform(es[i])) == Denote(es[i]) { assert Kept(es[i]); }
      assert after == before;
    }
    if (forall i :: 0 <= i < |es| ==> Parses(TransformAll(es)[i])) && after == before {
      forall i | 0 <= i < |es| ensures Kept(es[i]) {
        assert Parses(TransformAll(es)[i]) && after[i] == before[i];
      }
    }
  }

  predicate ArgsKept(args: seq<Arg>) { forall i :: 0 <= i < |args| ==> Kept(args[i].value) }

  lemma ArgsMean(args: seq<Arg>)
    ensures ArgsKept(args) <==>
      && (forall i :: 0 <= i < |args| ==> Parses(TransformArgs(args)[i].value))
      && DenoteArgs(TransformArgs(args)) == DenoteArgs(args)
  {
    var before, after := DenoteArgs(args), DenoteArgs(TransformArgs(args));
    if ArgsKept(args) {
      forall i | 0 <= i < |args| ensures after[i] == before[i] { assert Kept(args[i].value); }
      assert after == before;
    }
    if (forall i :: 0 <= i < |args| ==> Parses(TransformArgs(args)[i].value)) && after == before {
      forall i | 0 <= i < |args| ensures Kept(args[i].value) {
        assert Parses(TransformArgs(args)[i].value) && after[i].value == before[i].value;
      }
    }
  }

  lemma ArgsStand(args: seq<Arg>)
    requires forall i :: 0 <= i < |args| ==> ArgStands(args, i)
    ensures forall i :: 0 <= i < |args| ==> ArgStands(TransformArgs(args), i)
  {
    forall i | 0 <= i < |args| ensures ArgStands(TransformArgs(args), i) {
      assert ArgStands(args, i);
      KeepsShape(args[i].value);
    }
  }

  lemma TakenCall(e: Expr)
    requires e.Call? && Matches(e.func, e.args) && Parses(e)
    ensures Kept(e) <==> e.args[0].star == "" && !Bare(e.args[0].value) && Kept(e.args[0].value)
  {
    var func, args := e.func, e.args;
    var value := args[0].value;
    KeepsMatches(func, args);
    KeepsShape(value);
    TakenConstructs(func, args);
    KeepsConstructs(func, args);
    TakenConstructs(Transform(func), TransformArgs(args));
    var after := Transform(e);
    assert after.args[0].value == Transform(value);
    assert Denote(after).Construct? && Denote(after).value == Denote(Transform(value));
    assert Bare(Transform(value)) == Bare(value);
    assert ArgStands(after.args, 0) == !Bare(value);
  }

  lemma UntakenCall(e: Expr)
    requires e.Call? && !Matches(e.func, e.args) && Parses(e)
    ensures Constructs(e.func, e.args).None? ==> (Kept(e) <==> Kept(e.func) && ArgsKept(e.args))
    ensures Constructs(e.func, e.args).Some? ==> (Kept(e) <==> ArgsKept(e.args)) && Kept(e.func)
  {
    var func, args := e.func, e.args;
    KeepsMatches(func, args);
    KeepsConstructs(func, args);
    ArgsMean(args);
    ArgsStand(args);
    var after := Transform(e);
    assert after == Call(e.parens, Transform(func), TransformArgs(args));
    if Constructs(func, args).Some? {
      assert args == [args[0]];
      assert ArgsKept(args) <==> Kept(args[0].value);
    }
  }

  /** Safe trees are exactly those that stay Python and keep their meaning. */
  lemma {:induction false} SafeIsKept(e: Expr)
    requires Parses(e)
    ensures Kept(e) <==> Safe(e)
    decreases e
  {
    match e
    case Name(_, _) =>
    case Str(_, _) =>
    case Attribute(_, value, _) => SafeIsKept(value);
    case Call(_, func, args) =>
      SafeIsKept(func);
      forall i | 0 <= i < |args| ensures Kept(args[i].value) <==> Safe(args[i].value) { SafeIsKept(args[i].value); }
      if Matches(func, args) {
        TakenCall(e);
      } else {
        UntakenCall(e);
      }
    case Walrus(_, _, bound) => SafeIsKept(bound);
    case Generator(_, parts) =>
      forall i | 0 <= i < |parts| ensures Kept(parts[i]) <==> Safe(parts[i]) { SafeIsKept(parts[i]); }
      PartsKept(parts);
    case Word(_, _, operand) =>
      SafeIsKept(operand);
      OpensAfterMeans(operand);
    case Other(_, _, children) =>
      forall i | 0 <= i < |children| ensures Kept(children[i]) <==> Safe(children[i]) { SafeIsKept(children[i]); }
      PartsKept(children);
  }

  /** The rewrite of a program is a program with the same meaning, if and only if no call it
      takes has a starred or bare argument and no word needs the parentheses of such a call. */
  lemma PreservesMeaning(e: Expr)
    requires Parses(e)
    ensures Means(Transform(e)) == Means(e) <==> Safe(e)
  {
    SafeIsKept(e);
  }

  /** No starred and no bare argument, and a space after every word. */
  predicate Plain(e: Expr)
    decreases e
  {
    match e
    case Name(_, _) | Str(_, _) => true
    case Attribute(_, value, _) => Plain(value)
    case Call(_, func, args) =>
      && Plain(func)
      && (forall i :: 0 <= i < |args| ==> args[i].star == "" && !Bare(args[i].value) && Plain(args[i].value))
    case Walrus(_, _, bound) => Plain(bound)
    case Generator(_, parts) => forall i :: 0 <= i < |parts| ==> Plain(parts[i])
    case Word(_, tight, operand) => !tight && Plain(operand)
    case Other(_, _, children) => forall i :: 0 <= i < |children| ==> Plain(children[i])
  }

  /** Plain programs stay programs and keep their meaning. */
  lemma {:induction false} PlainKeepsMeaning(e: Expr)
    requires Plain(e)
    ensures Safe(e) && Parses(e) && Means(Transform(e)) == Some(Denote(e))
    decreases e
  {
    match e {
      case Name(_, _) =>
      case Str(_, _) =>
      case Attribute(_, value, _) => PlainKeepsMeaning(value);
      case Call(_, func, args) =>
        PlainKeepsMeaning(func);
        forall i | 0 <= i < |args| ensures Safe(args[i].value) && Parses(args[i].value) {
          PlainKeepsMeaning(args[i].value);
        }
      case Walrus(_, _, bound) => PlainKeepsMeaning(bound);
      case Generator(_, parts) =>
        forall i | 0 <= i < |parts| ensures Safe(parts[i]) && Parses(parts[i]) { PlainKeepsMeaning(parts[i]); }
      case Word(_, _, operand) => PlainKeepsMeaning(operand);
      case Other(_, _, children) =>
        forall i | 0 <= i < |children| ensures Safe(children[i]) && Parses(children[i]) {
          PlainKeepsMeaning(children[i]);
        }
    }
    PreservesMeaning(e);
  }

  // ---------------------------------------------------------------- where it is lost

  function Client(): Expr { Name(false, "RestClient") }

  function BearerCall(parens: bool, star: string, value: Expr): Expr {
    Call(parens, Attribute(false, Client(), "with_bearer_token"), [Arg(None, star, value)])
  }

  /** `RestClient.with_bearer_token(*keys)` turns into `RestClient(bearer_token=keys)`, and
      `RestClient(*keys)` into `RestClient(api_key=keys)`. */
  lemma StarIsLost(keys: Expr)
    requires keys.Name?
    ensures
      var e := Call(false, Client(), [Arg(None, "*", keys)]);
      && Parses(e) && Transform(e) == Call(false, Client(), [Arg(Some("api_key"), "", keys)])
      && Parses(Transform(e)) && Denote(Transform(e)) != Denote(e)
    ensures Means(Transform(BearerCall(false, "*", keys))) != Means(BearerCall(false, "*", keys))
  {
    var e := Call(false, Client(), [Arg(None, "*", keys)]);
    assert TransformArgs(e.args) == e.args;
    assert !Safe(BearerCall(false, "*", keys));
    PreservesMeaning(BearerCall(false, "*", keys));
  }

  /** `RestClient.with_bearer_token(tok := load())`, and the same with a generator, are Python and
      turn into what is not. */
  lemma BareArgumentBreaks(value: Expr)
    requires Bare(value) && Parses(value)
    ensures
      var e := BearerCall(false, "", value);
      && Parses(e)
      && Transform(e) == Call(false, Client(), [Arg(Some("bearer_token"), "", Transform(value))])
      && !Parses(Transform(e))
  {
    var e := BearerCall(false, "", value);
    assert Transform(e.func) == e.func;
    assert TransformArgs(e.args) == [Arg(None, "", Transform(value))];
    KeepsShape(value);
    assert !ArgStands(Transform(e).args, 0);
  }

  /** `not(RestClient.with_bearer_token(token))` loses the parentheses that keep `not` apart. (libcst
      checks a `not` when it is built and raises there, so the file stays as it was.) */
  lemma TightWordBreaks(word: string, token: Expr)
    requires token.Name?
    ensures
      var e := Word(word, true, BearerCall(true, "", token));
      && Parses(e)
      && Transform(e) == Word(word, true, Call(false, Client(), [Arg(Some("bearer_token"), "", token)]))
      && !Parses(Transform(e))
  {
    var e, after := BearerCall(true, "", token), Call(false, Client(), [Arg(Some("bearer_token"), "", token)]);
    assert TransformArgs(e.args) == e.args;
    assert Transform(e.func) == e.func;
    assert Parses(e.func.value) && ArgStands(e.args, 0);
    assert Parses(e.func) && Parses(e.args[0].value);
    assert Transform(e) == after && !Opens(after.func);
  }

  // ---------------------------------------------------------------- the transformer

  class RestClientTransformer {
    var modified: bool

    constructor ()
      ensures !modified
    {
      modified := false;
    }

    method LeaveCall(parens: bool, func: Expr, args: seq<Arg>) returns (r: Expr)
      modifies this
      ensures r == Leave(parens, func, args)
      ensures modified == (old(modified) || r != Call(parens, func, args))
    {
      if MatchesConstructor(func, args) {
        modified := true;
        r := Call(parens, func, [Arg(Some("api_key"), "", args[0].value)]);
      } else if MatchesStatic(func, args) {
        modified := true;
        var keyword := if func.attr == "with_bearer_token" then "bearer_token" else "sdk_token";
        r := Call(false, func.value, [Arg(Some(keyword), "", args[0].value)]);
      } else {
        r := Call(parens, func, args);
      }
    }

    method VisitAll(es: seq<Expr>) returns (r: seq<Expr>)
      modifies this
      ensures r == TransformAll(es)
      ensures modified == (old(modified) || r != es)
      decreases es, 0
    {
      r := [];
      for i := 0 to |es|
        invariant |r| == i && forall j :: 0 <= j < i ==> r[j] == Transform(es[j])
        invariant modified == (old(modified) || r != es[..i])
      {
        var was := r;
        var e := Visit(es[i]);
        r := r + [e];
        assert es[..i + 1] == es[..i] + [es[i]];
        assert r[..i] == was && r[i] == e;
      }
      assert r == TransformAll(es);
      assert es[..|es|] == es;
    }

    method VisitArgs(args: seq<Arg>) returns (r: seq<Arg>)
      modifies this
      ensures r == TransformArgs(args)
      ensures modified == (old(modified) || r != args)
      decreases args, 0
    {
      r := [];
      for i := 0 to |args|
        invariant |r| == i && forall j :: 0 <= j < i ==> r[j] == args[j].(value := Transform(args[j].value))
        invariant modified == (old(modified) || r != args[..i])
      {
        var was := r;
        var e := Visit(args[i].value);
        r := r + [args[i].(value := e)];
        assert args[..i + 1] == args[..i] + [args[i]];
        assert r[..i] == was && r[i] == args[i].(value := e);
      }
      assert r == TransformArgs(args);
      assert args[..|args|] == args;
    }

    /** libcst's visit: children first, then `leave_Call`. */
    method Visit(e: Expr) returns (r: Expr)
      modifies this
      ensures r == Transform(e)
      ensures modified == (old(modified) || r != e)
      decreases e, 1
    {
      match e
      case Name(_, _) => r := e;
      case Str(_, _) => r := e;
      case Attribute(parens, value, attr) =>
        var v := Visit(value);
        r := Attribute(parens, v, attr);
      case Call(parens, func, args) =>
        var f := Visit(func);
        var a := VisitArgs(args);
        r := LeaveCall(parens, f, a);
        KeepsMatches(func, args);
      case Walrus(parens, target, bound) =>
        var b := Visit(bound);
        r := Walrus(parens, target, b);
      case Generator(parens, parts) =>
        var p := VisitAll(parts);
        r := Generator(parens, p);
      case Word(word, tight, operand) =>
        var o := Visit(operand);
        r := Word(word, tight, o);
      case Other(kind, start, children) =>
        var c := VisitAll(children);
        r := Other(kind, start, c);
    }
  }
}
