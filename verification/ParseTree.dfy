/** The parse tree is a flat list; it is the list of a tree of the grammar, read in pre-order. */
module ParseTree {
  import opened Collections
  import opened Syntax

  datatype Symbol = N(rule: Rule) | K(keyword: Keyword)

  datatype Tree = Branch(rule: Rule, children: seq<Tree>) | Tip(token: Token)

  /** The grammar.  A definition and the parts of an intent may be missing at the end of the text. */
  predicate Allowed(r: Rule, parts: seq<Symbol>)
  {
    match r
    case INITIAL_SYMBOL =>
      || parts == [K(IDENTIFIER), K(ASSIGN), N(NETWORK_ELEM_DEFINITION)]
      || parts == [K(INTENT), K(IDENTIFIER), K(SELECT), K(IDENTIFIER), N(INTENT_PRODUCTION_WITH_ACTION)]
    case INTENT_PRODUCTION_WITH_ACTION =>
      || parts == [] || parts == [N(LAMBDA)]
      || parts == [K(ACTION), K(IDENTIFIER), N(INTENT_PRODUCTION_WITH_CONDITION)]
    case INTENT_PRODUCTION_WITH_CONDITION =>
      parts == [] || parts == [N(LAMBDA)] || parts == [K(CONDITION), K(IDENTIFIER)]
    case NETWORK_ELEM_DEFINITION =>
      || parts == []
      || (|parts| == 4 && parts[0].K? && IsKind(parts[0].keyword) &&
        parts[1..] == [K(LEFT_PARENTHESIS), N(PARAMS), K(RIGHT_PARENTHESIS)])
    case PARAMS => parts == [N(LAMBDA)] || parts == [K(IDENTIFIER), K(EQUAL_PARAMETERS), N(SECOND_PART_EQUAL)]
    case SECOND_PART_EQUAL =>
      || parts == [K(DOUBLE_QUOTE), K(STRING), K(DOUBLE_QUOTE), N(ADD_MORE_PARAMETERS)]
      || parts == [K(IDENTIFIER), N(ADD_MORE_PARAMETERS)]
      || parts == [K(LEFT_BRACE), N(ELEMS_OF_ARRAY), K(RIGHT_BRACE), N(ADD_MORE_PARAMETERS)]
    case ADD_MORE_PARAMETERS => parts == [N(LAMBDA)] || parts == [K(COMMA), N(PARAMS)]
    case ELEMS_OF_ARRAY =>
      || parts == [K(DOUBLE_QUOTE), K(STRING), K(DOUBLE_QUOTE), N(ADD_MORE_ELEMENTS_TO_ARRAY)]
      || parts == [K(IDENTIFIER), N(ADD_MORE_ELEMENTS_TO_ARRAY)]
    case ADD_MORE_ELEMENTS_TO_ARRAY => parts == [N(LAMBDA)] || parts == [K(COMMA), N(ELEMS_OF_ARRAY)]
    case LAMBDA => parts == []
  }

  function Root(t: Tree): Symbol { if t.Tip? then K(t.token.keyword) else N(t.rule) }

  function Roots(ts: seq<Tree>): (r: seq<Symbol>)
    ensures |r| == |ts|
  {
    if ts == [] then [] else Roots(ts[..|ts| - 1]) + [Root(ts[|ts| - 1])]
  }

  /** Every node has the parts that the grammar gives its rule. */
  ghost predicate Grown(t: Tree)
  {
    t.Branch? ==> Allowed(t.rule, Roots(t.children)) && forall i :: 0 <= i < |t.children| ==> Grown(t.children[i])
  }

  function PreOrder(t: Tree): seq<Node>
  {
    match t
    case Tip(token) => [Leaf(token)]
    case Branch(r, children) => [Inner(r)] + PreOrders(children)
  }

  function PreOrders(ts: seq<Tree>): seq<Node>
  {
    if ts == [] then [] else PreOrders(ts[..|ts| - 1]) + PreOrder(ts[|ts| - 1])
  }

  // ---------- Growing a tree from left to right ----------

  // Behind `base` stand the nodes of these trees.
  ghost predicate Shows(base: seq<Node>, ts: seq<Tree>, tree: seq<Node>)
  {
    tree == base + PreOrders(ts) && forall i :: 0 <= i < |ts| ==> Grown(ts[i])
  }

  // One tree of this symbol.
  ghost predicate Adds(before: seq<Node>, t: Tree, s: Symbol, after: seq<Node>)
  {
    after == before + PreOrder(t) && Grown(t) && Root(t) == s
  }

  lemma Nothing(base: seq<Node>)
    ensures Shows(base, [], base) && Roots([]) == []
  {
  }

  lemma More(base: seq<Node>, ts: seq<Tree>, before: seq<Node>, t: Tree, s: Symbol, after: seq<Node>)
    requires Shows(base, ts, before) && Adds(before, t, s, after)
    ensures Shows(base, ts + [t], after) && Roots(ts + [t]) == Roots(ts) + [s]
  {
    assert (ts + [t])[..|ts|] == ts;
    assert base + PreOrders(ts) + PreOrder(t) == base + (PreOrders(ts) + PreOrder(t));
  }

  lemma Closed(p: State, r: Rule, ts: seq<Tree>, after: seq<Node>)
    requires Shows(Push(p, r).tree, ts, after) && Allowed(r, Roots(ts))
    ensures Adds(p.tree, Branch(r, ts), N(r), after)
  {
    assert p.tree + [Inner(r)] + PreOrders(ts) == p.tree + ([Inner(r)] + PreOrders(ts));
  }

  lemma Taken(p: State, k: Keyword)
    requires p.rest != [] && p.rest[0].keyword == k
    ensures Adds(p.tree, Tip(p.rest[0]), K(k), Take(p).tree)
  {
  }

  lemma OneTip(base: seq<Node>, ts: seq<Tree>, p: State, k: Keyword) returns (ts': seq<Tree>)
    requires Shows(base, ts, p.tree) && p.rest != [] && p.rest[0].keyword == k
    ensures Shows(base, ts', Take(p).tree) && Roots(ts') == Roots(ts) + [K(k)]
  {
    Taken(p, k);
    More(base, ts, p.tree, Tip(p.rest[0]), K(k), Take(p).tree);
    ts' := ts + [Tip(p.rest[0])];
  }

  lemma Empty(p: State) returns (t: Tree)
    ensures Adds(p.tree, t, N(LAMBDA), Push(p, LAMBDA).tree)
  {
    Nothing(Push(p, LAMBDA).tree);
    Closed(p, LAMBDA, [], Push(p, LAMBDA).tree);
    t := Branch(LAMBDA, []);
  }

  // LAMBDA as the only part.
  lemma OnlyLambda(p: State, r: Rule) returns (t: Tree)
    requires Allowed(r, [N(LAMBDA)])
    ensures Adds(p.tree, t, N(r), Push(Push(p, r), LAMBDA).tree)
  {
    var p0 := Push(p, r);
    Nothing(p0.tree);
    var e := Empty(p0);
    More(p0.tree, [], p0.tree, e, N(LAMBDA), Push(p0, LAMBDA).tree);
    assert [] + [e] == [e] && [] + [N(LAMBDA)] == [N(LAMBDA)];
    Closed(p, r, [e], Push(p0, LAMBDA).tree);
    t := Branch(r, [e]);
  }

  // No part at all.
  lemma NoParts(p: State, r: Rule) returns (t: Tree)
    requires Allowed(r, [])
    ensures Adds(p.tree, t, N(r), Push(p, r).tree)
  {
    Nothing(Push(p, r).tree);
    Closed(p, r, [], Push(p, r).tree);
    t := Branch(r, []);
  }

  lemma QuotedTips(base: seq<Node>, ts: seq<Tree>, p: State) returns (ts': seq<Tree>)
    requires Shows(base, ts, p.tree) && LooksAt(p, DOUBLE_QUOTE) && QuotedText(p).Fine?
    ensures Shows(base, ts', QuotedText(p).value.0.tree)
    ensures Roots(ts') == Roots(ts) + [K(DOUBLE_QUOTE), K(STRING), K(DOUBLE_QUOTE)]
  {
    hide Shows, Roots, Leaves, Moved;
    var a := OneTip(base, ts, p, DOUBLE_QUOTE);
    var b := OneTip(base, a, Take(p), STRING);
    ts' := OneTip(base, b, Take(Take(p)), DOUBLE_QUOTE);
  }

  // ---------- The productions ----------

  lemma {:induction false} ElemsTree(p: State) returns (t: Tree)
    requires Elems(p).Fine? && Elems(p).value.rest != []
    ensures Adds(p.tree, t, N(ELEMS_OF_ARRAY), Elems(p).value.tree)
    decreases |p.rest|, 1
  {
    hide Shows, Adds, Roots, Leaves, Moved, MoreElems, QuotedText, Lookup;
    var p0 := Push(p, ELEMS_OF_ARRAY);
    Nothing(p0.tree);
    var ts, q;
    if LooksAt(p0, IDENTIFIER) {
      ts := OneTip(p0.tree, [], p0, IDENTIFIER);
      q := Reference(p0).value.0;
      q := q.(elems := q.elems + [Ref(Reference(p0).value.1)]);
    } else {
      ts := QuotedTips(p0.tree, [], p0);
      q := QuotedText(p0).value.0;
      q := q.(elems := q.elems + [Text(QuotedText(p0).value.1)]);
    }
    var m := MoreElemsTree(q);
    More(p0.tree, ts, q.tree, m, N(ADD_MORE_ELEMENTS_TO_ARRAY), Elems(p).value.tree);
    Closed(p, ELEMS_OF_ARRAY, ts + [m], Elems(p).value.tree);
    t := Branch(ELEMS_OF_ARRAY, ts + [m]);
  }

  lemma {:induction false} MoreElemsTree(p: State) returns (t: Tree)
    requires MoreElems(p).Fine? && MoreElems(p).value.rest != []
    ensures Adds(p.tree, t, N(ADD_MORE_ELEMENTS_TO_ARRAY), MoreElems(p).value.tree)
    decreases |p.rest|, 0
  {
    hide Shows, Adds, Roots, Leaves, Moved, Elems;
    var p0 := Push(p, ADD_MORE_ELEMENTS_TO_ARRAY);
    if LooksAt(p0, COMMA) {
      Nothing(p0.tree);
      var ts := OneTip(p0.tree, [], p0, COMMA);
      var m := ElemsTree(Take(p0));
      More(p0.tree, ts, Take(p0).tree, m, N(ELEMS_OF_ARRAY), MoreElems(p).value.tree);
      Closed(p, ADD_MORE_ELEMENTS_TO_ARRAY, ts + [m], MoreElems(p).value.tree);
      t := Branch(ADD_MORE_ELEMENTS_TO_ARRAY, ts + [m]);
    } else {
      t := OnlyLambda(p, ADD_MORE_ELEMENTS_TO_ARRAY);
    }
  }

  lemma {:induction false} ParamsTree(p: State) returns (t: Tree)
    requires Params(p).Fine? && Params(p).value.rest != []
    ensures Adds(p.tree, t, N(PARAMS), Params(p).value.tree)
    decreases |p.rest|, 2
  {
    hide Shows, Adds, Roots, Leaves, Moved, SecondPart;
    var p0 := Push(p, PARAMS);
    if LooksAt(p0, IDENTIFIER) {
      Nothing(p0.tree);
      var a := OneTip(p0.tree, [], p0, IDENTIFIER);
      var ts := OneTip(p0.tree, a, Take(p0), EQUAL_PARAMETERS);
      var p2 := Take(Take(p0)).(current := p0.rest[0].value);
      var m := SecondPartTree(p2);
      More(p0.tree, ts, p2.tree, m, N(SECOND_PART_EQUAL), Params(p).value.tree);
      Closed(p, PARAMS, ts + [m], Params(p).value.tree);
      t := Branch(PARAMS, ts + [m]);
    } else {
      t := OnlyLambda(p, PARAMS);
    }
  }

  lemma {:induction false} SecondPartTree(p: State) returns (t: Tree)
    requires SecondPart(p).Fine? && SecondPart(p).value.rest != []
    ensures Adds(p.tree, t, N(SECOND_PART_EQUAL), SecondPart(p).value.tree)
    decreases |p.rest|, 1
  {
    hide Shows, Adds, Roots, Leaves, Moved, MoreParams, QuotedText, ArrayValue, Lookup;
    var p0 := Push(p, SECOND_PART_EQUAL);
    Nothing(p0.tree);
    var ts, q;
    if LooksAt(p0, DOUBLE_QUOTE) {
      ts := QuotedTips(p0.tree, [], p0);
      q := AddParam(QuotedText(p0).value.0, Single(Text(QuotedText(p0).value.1)));
    } else if LooksAt(p0, IDENTIFIER) {
      ts := OneTip(p0.tree, [], p0, IDENTIFIER);
      q := AddParam(Reference(p0).value.0, Single(Ref(Reference(p0).value.1)));
    } else {
      ts := ArrayTrees(p0.tree, p0);
      q := AddParam(ArrayValue(p0).value, Array(ArrayValue(p0).value.elems));
    }
    var m := MoreParamsTree(q);
    More(p0.tree, ts, q.tree, m, N(ADD_MORE_PARAMETERS), SecondPart(p).value.tree);
    Closed(p, SECOND_PART_EQUAL, ts + [m], SecondPart(p).value.tree);
    t := Branch(SECOND_PART_EQUAL, ts + [m]);
  }

  lemma {:induction false} ArrayTrees(base: seq<Node>, p: State) returns (ts: seq<Tree>)
    requires base == p.tree && LooksAt(p, LEFT_BRACE) && ArrayValue(p).Fine?
    ensures Shows(base, ts, ArrayValue(p).value.tree)
    ensures Roots(ts) == [K(LEFT_BRACE), N(ELEMS_OF_ARRAY), K(RIGHT_BRACE)]
    decreases |p.rest|, 0
  {
    hide Shows, Adds, Roots, Leaves, Moved, Elems;
    Nothing(base);
    var a := OneTip(base, [], p, LEFT_BRACE);
    var p1 := Take(p).(elems := []);
    var m := ElemsTree(p1);
    var p2 := Elems(p1).value;
    More(base, a, p1.tree, m, N(ELEMS_OF_ARRAY), p2.tree);
    ts := OneTip(base, a + [m], p2, RIGHT_BRACE);
  }

  lemma {:induction false} MoreParamsTree(p: State) returns (t: Tree)
    requires MoreParams(p).Fine? && MoreParams(p).value.rest != []
    ensures Adds(p.tree, t, N(ADD_MORE_PARAMETERS), MoreParams(p).value.tree)
    decreases |p.rest|, 0
  {
    hide Shows, Adds, Roots, Leaves, Moved, Params;
    var p0 := Push(p, ADD_MORE_PARAMETERS);
    if LooksAt(p0, COMMA) {
      Nothing(p0.tree);
      var ts := OneTip(p0.tree, [], p0, COMMA);
      var m := ParamsTree(Take(p0));
      More(p0.tree, ts, Take(p0).tree, m, N(PARAMS), MoreParams(p).value.tree);
      Closed(p, ADD_MORE_PARAMETERS, ts + [m], MoreParams(p).value.tree);
      t := Branch(ADD_MORE_PARAMETERS, ts + [m]);
    } else {
      t := OnlyLambda(p, ADD_MORE_PARAMETERS);
    }
  }

  lemma ElementTree(p: State) returns (t: Tree)
    requires ElementDefinition(p).Fine?
    ensures Adds(p.tree, t, N(NETWORK_ELEM_DEFINITION), ElementDefinition(p).value.0.tree)
  {
    hide Shows, Adds, Roots, Leaves, Moved, Params;
    var p0 := Push(p, NETWORK_ELEM_DEFINITION);
    if p0.rest == [] {
      t := NoParts(p, NETWORK_ELEM_DEFINITION);
    } else {
      var kind, p1 := p0.rest[0].keyword, Take(p0);
      Nothing(p0.tree);
      var a := OneTip(p0.tree, [], p0, kind);
      var b := OneTip(p0.tree, a, p1, LEFT_PARENTHESIS);
      var p2 := Take(p1).(params := []);
      var m := ParamsTree(p2);
      var p3 := Params(p2).value;
      More(p0.tree, b, p2.tree, m, N(PARAMS), p3.tree);
      var ts := OneTip(p0.tree, b + [m], p3, RIGHT_PARENTHESIS);
      assert Roots(ts) == [K(kind), K(LEFT_PARENTHESIS), N(PARAMS), K(RIGHT_PARENTHESIS)];
      assert Roots(ts)[1..] == [K(LEFT_PARENTHESIS), N(PARAMS), K(RIGHT_PARENTHESIS)];
      Closed(p, NETWORK_ELEM_DEFINITION, ts, Take(p3).tree);
      t := Branch(NETWORK_ELEM_DEFINITION, ts);
    }
  }

  lemma ConditionTree(p: State) returns (t: Tree)
    requires WithCondition(p).Fine?
    ensures Adds(p.tree, t, N(INTENT_PRODUCTION_WITH_CONDITION), WithCondition(p).value.0.tree)
  {
    hide Shows, Adds, Roots, Leaves, Moved;
    var p0 := Push(p, INTENT_PRODUCTION_WITH_CONDITION);
    if p0.rest == [] {
      t := NoParts(p, INTENT_PRODUCTION_WITH_CONDITION);
    } else if LooksAt(p0, CONDITION) {
      Nothing(p0.tree);
      var a := OneTip(p0.tree, [], p0, CONDITION);
      var ts := OneTip(p0.tree, a, Take(p0), IDENTIFIER);
      Closed(p, INTENT_PRODUCTION_WITH_CONDITION, ts, Take(Take(p0)).tree);
      t := Branch(INTENT_PRODUCTION_WITH_CONDITION, ts);
    } else {
      t := OnlyLambda(p, INTENT_PRODUCTION_WITH_CONDITION);
    }
  }

  lemma ActionTree(p: State) returns (t: Tree)
    requires WithAction(p).Fine?
    ensures Adds(p.tree, t, N(INTENT_PRODUCTION_WITH_ACTION), WithAction(p).value.0.tree)
  {
    hide Shows, Adds, Roots, Leaves, Moved, WithCondition;
    var p0 := Push(p, INTENT_PRODUCTION_WITH_ACTION);
    if p0.rest == [] {
      t := NoParts(p, INTENT_PRODUCTION_WITH_ACTION);
    } else if LooksAt(p0, ACTION) {
      Nothing(p0.tree);
      var a := OneTip(p0.tree, [], p0, ACTION);
      var b := OneTip(p0.tree, a, Take(p0), IDENTIFIER);
      var p2 := Take(Take(p0));
      var m := ConditionTree(p2);
      More(p0.tree, b, p2.tree, m, N(INTENT_PRODUCTION_WITH_CONDITION), WithAction(p).value.0.tree);
      Closed(p, INTENT_PRODUCTION_WITH_ACTION, b + [m], WithAction(p).value.0.tree);
      t := Branch(INTENT_PRODUCTION_WITH_ACTION, b + [m]);
    } else {
      t := OnlyLambda(p, INTENT_PRODUCTION_WITH_ACTION);
    }
  }

  lemma DefinitionTrees(p: State) returns (ts: seq<Tree>)
    requires LooksAt(p, IDENTIFIER) && DefinitionOf(p).Fine?
    ensures Shows(p.tree, ts, DefinitionOf(p).value.tree)
    ensures Roots(ts) == [K(IDENTIFIER), K(ASSIGN), N(NETWORK_ELEM_DEFINITION)]
  {
    hide Shows, Adds, Roots, Leaves, Moved, ElementDefinition;
    Nothing(p.tree);
    var a := OneTip(p.tree, [], p, IDENTIFIER);
    var b := OneTip(p.tree, a, Take(p), ASSIGN);
    var p1 := Take(Take(p));
    var p2 := p1.(ids := p1.ids + [Identifier(p.rest[0].value, Unset)]);
    var m := ElementTree(p2);
    More(p.tree, b, p2.tree, m, N(NETWORK_ELEM_DEFINITION), DefinitionOf(p).value.tree);
    ts := b + [m];
  }

  lemma IntentTrees(p: State) returns (ts: seq<Tree>)
    requires LooksAt(p, INTENT) && IntentOf(p).Fine?
    ensures Shows(p.tree, ts, IntentOf(p).value.tree)
    ensures Roots(ts) == [K(INTENT), K(IDENTIFIER), K(SELECT), K(IDENTIFIER), N(INTENT_PRODUCTION_WITH_ACTION)]
  {
    hide Shows, Adds, Roots, Leaves, Moved, WithAction, Lookup;
    Nothing(p.tree);
    var p1, p2, p3 := Take(p), Take(Take(p)), Take(Take(Take(p)));
    var a := OneTip(p.tree, [], p, INTENT);
    var b := OneTip(p.tree, a, p1, IDENTIFIER);
    var c := OneTip(p.tree, b, p2, SELECT);
    var d := OneTip(p.tree, c, p3, IDENTIFIER);
    var p4 := Take(p3);
    var m := ActionTree(p4);
    More(p.tree, d, p4.tree, m, N(INTENT_PRODUCTION_WITH_ACTION), IntentOf(p).value.tree);
    ts := d + [m];
  }

  lemma DeclarationTree(p: State) returns (t: Tree)
    requires p.rest != [] && InitialSymbol(p).Fine?
    ensures Adds(p.tree, t, N(INITIAL_SYMBOL), InitialSymbol(p).value.tree)
  {
    hide Shows, Adds, Roots, Leaves, Moved, DefinitionOf, IntentOf;
    var p0 := Push(p, INITIAL_SYMBOL);
    var ts;
    if LooksAt(p0, IDENTIFIER) { ts := DefinitionTrees(p0); } else { ts := IntentTrees(p0); }
    Closed(p, INITIAL_SYMBOL, ts, InitialSymbol(p).value.tree);
    t := Branch(INITIAL_SYMBOL, ts);
  }

  // One tree for each declaration.
  ghost predicate Declarations(ts: seq<Tree>)
  {
    forall i :: 0 <= i < |ts| ==> Grown(ts[i]) && Root(ts[i]) == N(INITIAL_SYMBOL)
  }

  lemma {:induction false} ProgramTrees(base: seq<Node>, p: State, ts: seq<Tree>) returns (all: seq<Tree>)
    requires Program(p).Fine? && Shows(base, ts, p.tree) && Declarations(ts)
    ensures Shows(base, all, Program(p).value.tree) && Declarations(all)
    decreases |p.rest|
  {
    hide Shows, Leaves, Roots, Grown, InitialSymbol;
    if p.rest == [] {
      all := ts;
    } else {
      var t := DeclarationTree(p);
      More(base, ts, p.tree, t, N(INITIAL_SYMBOL), InitialSymbol(p).value.tree);
      all := ProgramTrees(base, InitialSymbol(p).value, ts + [t]);
    }
  }

  /** What an accepted text leaves is, read in pre-order, one tree of the grammar for each declaration, and
      the tips of the trees are the text without its line ends. */
  lemma ListIsTree(tokens: seq<Token>) returns (ts: seq<Tree>)
    requires Parse(tokens).Fine?
    ensures Declarations(ts) && Parse(tokens).value.tree == PreOrders(ts)
    ensures Leaves(PreOrders(ts)) == WithoutLineEnds(tokens)
  {
    var p := Begin(WithoutLineEnds(tokens));
    Nothing(p.tree);
    hide Program, Leaves, WithoutLineEnds, Grown;
    ts := ProgramTrees([], p, []);
    assert [] + PreOrders(ts) == PreOrders(ts);
  }
}
