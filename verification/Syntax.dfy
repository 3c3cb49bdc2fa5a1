/** The intent language: tokens, what a parse produces, and the grammar as functions on parser states.
    Line ends are gone here; the parser object skips them. */
module Syntax {
  import opened Collections

  datatype Keyword =
    | IDENTIFIER | ASSIGN | INTENT | SELECT | ACTION | CONDITION | HOST | LINK | DEVICE | FLOW
    | LEFT_PARENTHESIS | RIGHT_PARENTHESIS | EQUAL_PARAMETERS | DOUBLE_QUOTE | STRING
    | LEFT_BRACE | RIGHT_BRACE | COMMA | END_OF_LINE

  datatype Token = Token(keyword: Keyword, value: string)

  datatype Rule =
    | INITIAL_SYMBOL | INTENT_PRODUCTION_WITH_ACTION | INTENT_PRODUCTION_WITH_CONDITION
    | NETWORK_ELEM_DEFINITION | PARAMS | SECOND_PART_EQUAL | ADD_MORE_PARAMETERS
    | ELEMS_OF_ARRAY | ADD_MORE_ELEMENTS_TO_ARRAY | LAMBDA

  datatype Node = Inner(rule: Rule) | Leaf(token: Token)

  // A reference is a name in the text, and afterwards the position of the identifier it names.
  datatype Item<+R> = Text(text: string) | Ref(ref: R)

  datatype ParamValue<+R> = Single(item: Item<R>) | Array(items: seq<Item<R>>)

  datatype Param<+R> = Param(name: string, value: ParamValue<R>)

  // Unset is the nil left by a definition that the end of the text cuts short.
  datatype Definition<+R> = Unset | Element(kind: Keyword, params: seq<Param<R>>)

  datatype Identifier = Identifier(name: string, value: Definition<nat>)

  datatype Intent = Intent(name: string, select: nat)

  // NilToken: the text ends where a token is required.  NoActionWriter: HaikunetIntent has no `action=`.
  datatype Error = Syntactical | Semantical | NilToken | NoActionWriter

  datatype Result<+T> = Fine(value: T) | Fails(error: Error) {
    predicate IsFailure() { Fails? }
    function PropagateFailure<U>(): Result<U>
      requires Fails?
    {
      Fails(error)
    }
    function Extract(): T
      requires Fine?
    {
      value
    }
  }

  // ---------- Parser states ----------

  datatype State = State(
    rest: seq<Token>, tree: seq<Node>, ids: seq<Identifier>, intents: seq<Intent>,
    params: seq<Param<nat>>, elems: seq<Item<nat>>, current: string)

  function Leaves(tree: seq<Node>): seq<Token>
  {
    if tree == [] then []
    else
      var n := |tree| - 1;
      Leaves(tree[..n]) + if tree[n].Leaf? then [tree[n].token] else []
  }

  /** Tokens move from the text to the tree, in order; the context stays. */
  ghost predicate Moved(p: State, q: State)
  {
    && Leaves(q.tree) + q.rest == Leaves(p.tree) + p.rest && |q.rest| <= |p.rest|
    && q.ids == p.ids && q.intents == p.intents
  }

  lemma LeavesPush(tree: seq<Node>, n: Node)
    ensures Leaves(tree + [n]) == Leaves(tree) + if n.Leaf? then [n.token] else []
  {
    assert (tree + [n])[..|tree|] == tree;
  }

  function Push(p: State, r: Rule): (q: State)
    ensures Moved(p, q) && q.rest == p.rest
  {
    LeavesPush(p.tree, Inner(r));
    p.(tree := p.tree + [Inner(r)])
  }

  // The match of a token that is known to be there.
  function Take(p: State): (q: State)
    requires p.rest != []
    ensures Moved(p, q) && |q.rest| == |p.rest| - 1
  {
    LeavesPush(p.tree, Leaf(p.rest[0]));
    assert [p.rest[0]] + p.rest[1..] == p.rest;
    p.(rest := p.rest[1..], tree := p.tree + [Leaf(p.rest[0])])
  }

  function Match(p: State, k: Keyword): (r: Result<State>)
    ensures r.Fine? ==> Moved(p, r.value) && |r.value.rest| < |p.rest|
  {
    if p.rest == [] then Fails(NilToken) else if p.rest[0].keyword != k then Fails(Syntactical) else Fine(Take(p))
  }

  predicate LooksAt(p: State, k: Keyword) { p.rest != [] && p.rest[0].keyword == k }

  // ---------- References ----------

  function Named(ids: seq<Identifier>, name: string): seq<nat>
  {
    if ids == [] then []
    else
      var n := |ids| - 1;
      Named(ids[..n], name) + if ids[n].name == name then [n] else []
  }

  /** The identifier of that name, if there is exactly one. */
  function Lookup(ids: seq<Identifier>, name: string): Result<nat>
  {
    var found := Named(ids, name);
    if |found| == 1 then Fine(found[0]) else Fails(Semantical)
  }

  // ---------- The grammar ----------

  function QuotedText(p: State): (r: Result<(State, string)>)
    requires p.rest != []
    ensures r.Fine? ==> Moved(p, r.value.0) && |r.value.0.rest| < |p.rest|
  {
    var p1 := Take(p);
    var p2 :- Match(p1, STRING);
    var p3 :- Match(p2, DOUBLE_QUOTE);
    Fine((p3, p1.rest[0].value))
  }

  function Reference(p: State): (r: Result<(State, nat)>)
    requires p.rest != []
    ensures r.Fine? ==> Moved(p, r.value.0) && |r.value.0.rest| < |p.rest|
  {
    var i :- Lookup(p.ids, p.rest[0].value);
    Fine((Take(p), i))
  }

  function Elems(p: State): (r: Result<State>)
    ensures r.Fine? ==> Moved(p, r.value)
    decreases |p.rest|, 1
  {
    var p0 := Push(p, ELEMS_OF_ARRAY);
    if p0.rest == [] then Fine(p0)
    else if LooksAt(p0, IDENTIFIER) then
      var q :- Reference(p0);
      MoreElems(q.0.(elems := q.0.elems + [Ref(q.1)]))
    else if LooksAt(p0, DOUBLE_QUOTE) then
      var q :- QuotedText(p0);
      MoreElems(q.0.(elems := q.0.elems + [Text(q.1)]))
    else Fails(Syntactical)
  }

  function MoreElems(p: State): (r: Result<State>)
    ensures r.Fine? ==> Moved(p, r.value)
    decreases |p.rest|, 0
  {
    var p0 := Push(p, ADD_MORE_ELEMENTS_TO_ARRAY);
    if p0.rest == [] then Fine(p0)
    else if LooksAt(p0, COMMA) then
      var p1 := Take(p0);
      Elems(p1)
    else Fine(Push(p0, LAMBDA))
  }

  function ArrayValue(p: State): (r: Result<State>)
    requires p.rest != []
    ensures r.Fine? ==> Moved(p, r.value) && |r.value.rest| < |p.rest|
    decreases |p.rest|, 0
  {
    var p1 :- Elems(Take(p).(elems := []));
    Match(p1, RIGHT_BRACE)
  }

  function AddParam(p: State, v: ParamValue<nat>): (q: State)
    ensures Moved(p, q) && q.rest == p.rest
  {
    p.(params := p.params + [Param(p.current, v)])
  }

  function Params(p: State): (r: Result<State>)
    ensures r.Fine? ==> Moved(p, r.value)
    decreases |p.rest|, 2
  {
    var p0 := Push(p, PARAMS);
    if p0.rest == [] then Fine(p0)
    else if LooksAt(p0, IDENTIFIER) then
      var p1 := Take(p0);
      var p2 :- Match(p1, EQUAL_PARAMETERS);
      SecondPart(p2.(current := p0.rest[0].value))
    else Fine(Push(p0, LAMBDA))
  }

  function SecondPart(p: State): (r: Result<State>)
    ensures r.Fine? ==> Moved(p, r.value)
    decreases |p.rest|, 1
  {
    var p0 := Push(p, SECOND_PART_EQUAL);
    if p0.rest == [] then Fine(p0)
    else if LooksAt(p0, DOUBLE_QUOTE) then
      var q :- QuotedText(p0);
      MoreParams(AddParam(q.0, Single(Text(q.1))))
    else if LooksAt(p0, IDENTIFIER) then
      var q :- Reference(p0);
      MoreParams(AddParam(q.0, Single(Ref(q.1))))
    else if LooksAt(p0, LEFT_BRACE) then
      var p1 :- ArrayValue(p0);
      MoreParams(AddParam(p1, Array(p1.elems)))
    else Fails(Syntactical)
  }

  function MoreParams(p: State): (r: Result<State>)
    ensures r.Fine? ==> Moved(p, r.value)
    decreases |p.rest|, 0
  {
    var p0 := Push(p, ADD_MORE_PARAMETERS);
    if p0.rest == [] then Fine(p0)
    else if LooksAt(p0, COMMA) then
      var p1 := Take(p0);
      Params(p1)
    else Fine(Push(p0, LAMBDA))
  }

  function ParamList(p: State): (r: Result<State>)
    ensures r.Fine? ==> Moved(p, r.value)
  {
    var p1 :- Match(p, LEFT_PARENTHESIS);
    var p2 :- Params(p1.(params := []));
    Match(p2, RIGHT_PARENTHESIS)
  }

  predicate IsKind(k: Keyword)
  {
    k == HOST || k == LINK || k == DEVICE || k == ACTION || k == FLOW || k == CONDITION
  }

  function ElementDefinition(p: State): (r: Result<(State, Definition<nat>)>)
    ensures r.Fine? ==> Moved(p, r.value.0)
  {
    var p0 := Push(p, NETWORK_ELEM_DEFINITION);
    if p0.rest == [] then Fine((p0, Unset))
    else
      var kind := p0.rest[0].keyword;
      if !IsKind(kind) then Fails(Syntactical)
      else
        var p1 :- ParamList(Take(p0));
        Fine((p1, Element(kind, p1.params)))
  }

  // None is nil; the pair holds the names of an action and a condition.
  function WithCondition(p: State): (r: Result<(State, Option<string>)>)
    ensures r.Fine? ==> Moved(p, r.value.0)
  {
    var p0 := Push(p, INTENT_PRODUCTION_WITH_CONDITION);
    if p0.rest == [] then Fine((p0, None))
    else if LooksAt(p0, CONDITION) then
      var p1 := Take(p0);
      var p2 :- Match(p1, IDENTIFIER);
      Fine((p2, Some(p1.rest[0].value)))
    else Fine((Push(p0, LAMBDA), None))
  }

  function WithAction(p: State): (r: Result<(State, Option<(Option<string>, Option<string>)>)>)
    ensures r.Fine? ==> Moved(p, r.value.0)
  {
    var p0 := Push(p, INTENT_PRODUCTION_WITH_ACTION);
    if p0.rest == [] then Fine((p0, None))
    else if LooksAt(p0, ACTION) then
      var p1 := Take(p0);
      var p2 :- Match(p1, IDENTIFIER);
      var c :- WithCondition(p2);
      Fine((c.0, Some((Some(p1.rest[0].value), c.1))))
    else Fine((Push(p0, LAMBDA), Some((None, None))))
  }

  /** Tokens move from the text to the tree, and at least one does. */
  ghost predicate Progress(p: State, q: State)
  {
    Leaves(q.tree) + q.rest == Leaves(p.tree) + p.rest && |q.rest| < |p.rest|
  }

  function DefinitionOf(p: State): (r: Result<State>)
    requires p.rest != []
    ensures r.Fine? ==> Progress(p, r.value)
  {
    var name, n := p.rest[0].value, |p.ids|;
    var p1 :- Match(Take(p), ASSIGN);
    var d :- ElementDefinition(p1.(ids := p1.ids + [Identifier(name, Unset)]));
    Fine(d.0.(ids := d.0.ids[n := Identifier(name, d.1)]))
  }

  function IntentOf(p: State): (r: Result<State>)
    requires p.rest != []
    ensures r.Fine? ==> Progress(p, r.value)
  {
    var p1 := Take(p);
    var p2 :- Match(p1, IDENTIFIER);
    var p3 :- Match(p2, SELECT);
    var p4 :- Match(p3, IDENTIFIER);
    var a :- WithAction(p4);
    var select :- Lookup(a.0.ids, p3.rest[0].value);
    if a.1.None? then Fine(a.0.(intents := a.0.intents + [Intent(p1.rest[0].value, select)]))
    else Fails(NoActionWriter)
  }

  function InitialSymbol(p: State): (r: Result<State>)
    requires p.rest != []
    ensures r.Fine? ==> Progress(p, r.value)
  {
    var p0 := Push(p, INITIAL_SYMBOL);
    if LooksAt(p0, IDENTIFIER) then DefinitionOf(p0)
    else if LooksAt(p0, INTENT) then IntentOf(p0)
    else Fails(Syntactical)
  }

  function Program(p: State): (r: Result<State>)
    ensures r.Fine? ==> r.value.rest == [] && Leaves(r.value.tree) == Leaves(p.tree) + p.rest
    decreases |p.rest|
  {
    if p.rest == [] then Fine(p)
    else
      var q :- InitialSymbol(p);
      Program(q)
  }

  function Begin(tokens: seq<Token>): State { State(tokens, [], [], [], [], [], "") }

  // ---------- Line ends ----------

  function WithoutLineEnds(s: seq<Token>): seq<Token>
  {
    if s == [] then []
    else (if s[0].keyword == END_OF_LINE then [] else [s[0]]) + WithoutLineEnds(s[1..])
  }

  /** A whole parse: line ends are skipped after a token, so one in front is an error. */
  function Parse(tokens: seq<Token>): (r: Result<State>)
    ensures r.Fine? ==> Leaves(r.value.tree) == WithoutLineEnds(tokens)
  {
    if tokens != [] && tokens[0].keyword == END_OF_LINE then Fails(Syntactical)
    else Program(Begin(WithoutLineEnds(tokens)))
  }
}
