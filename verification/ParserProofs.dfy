/** What the parser accepts and what it makes of it: every program printed as tokens, with its meaning
    or its error, and nothing else. */
module ParserProofs {
  import opened Collections
  import opened Syntax

  // ---------- Programs ----------

  // The comma after the last parameter that the grammar lets through is part of the text.
  datatype Body = Body(kind: Keyword, params: seq<Param<string>>, comma: bool)

  // A definition without a body is the end of a text cut short after `:=`.
  datatype Decl =
    | Define(name: string, body: Option<Body>)
    | Want(name: string, select: string, action: Option<(string, Option<string>)>)

  ghost predicate GoodParams(ps: seq<Param<string>>)
  {
    forall i :: 0 <= i < |ps| && ps[i].value.Array? ==> ps[i].value.items != []
  }

  ghost predicate Grammatical(decls: seq<Decl>)
  {
    forall i :: 0 <= i < |decls| && decls[i].Define? ==>
      if decls[i].body.None? then i == |decls| - 1
      else IsKind(decls[i].body.value.kind) && GoodParams(decls[i].body.value.params)
  }

  // ---------- Printing ----------

  function T(k: Keyword): Token { Token(k, "") }

  function PrintItem(x: Item<string>): seq<Token>
  {
    match x
    case Text(t) => [T(DOUBLE_QUOTE), Token(STRING, t), T(DOUBLE_QUOTE)]
    case Ref(n) => [Token(IDENTIFIER, n)]
  }

  function PrintItems(xs: seq<Item<string>>): seq<Token>
    decreases xs, 0
  {
    if xs == [] then [] else PrintItem(xs[0]) + PrintMoreItems(xs[1..])
  }

  function PrintMoreItems(xs: seq<Item<string>>): seq<Token>
    decreases xs, 1
  {
    if xs == [] then [] else [T(COMMA)] + PrintItems(xs)
  }

  function PrintValue(v: ParamValue<string>): seq<Token>
  {
    match v
    case Single(x) => PrintItem(x)
    case Array(xs) => [T(LEFT_BRACE)] + (PrintItems(xs) + [T(RIGHT_BRACE)])
  }

  function PrintParams(ps: seq<Param<string>>, comma: bool): seq<Token>
    decreases ps, 0
  {
    if ps == [] then []
    else
      var rest := PrintValue(ps[0].value) + PrintMoreParams(ps[1..], comma);
      [Token(IDENTIFIER, ps[0].name)] + ([T(EQUAL_PARAMETERS)] + rest)
  }

  function PrintMoreParams(ps: seq<Param<string>>, comma: bool): seq<Token>
    decreases ps, 1
  {
    if ps == [] && !comma then [] else [T(COMMA)] + PrintParams(ps, comma)
  }

  function PrintBody(b: Option<Body>): seq<Token>
  {
    match b
    case None => []
    case Some(Body(kind, ps, comma)) =>
      [T(kind)] + ([T(LEFT_PARENTHESIS)] + (PrintParams(ps, comma) + [T(RIGHT_PARENTHESIS)]))
  }

  function PrintAction(a: Option<(string, Option<string>)>): seq<Token>
  {
    match a
    case None => []
    case Some((name, c)) =>
      [T(ACTION)] + ([Token(IDENTIFIER, name)] + if c.None? then [] else [T(CONDITION), Token(IDENTIFIER, c.value)])
  }

  function PrintDecl(d: Decl): seq<Token>
  {
    match d
    case Define(name, body) => [Token(IDENTIFIER, name)] + ([T(ASSIGN)] + PrintBody(body))
    case Want(name, select, action) =>
      [T(INTENT)] + ([Token(IDENTIFIER, name)] + ([T(SELECT)] + ([Token(IDENTIFIER, select)] + PrintAction(action))))
  }

  function Print(decls: seq<Decl>): seq<Token>
  {
    if decls == [] then [] else PrintDecl(decls[0]) + Print(decls[1..])
  }

  // ---------- Meaning ----------

  function ResolveItem(ids: seq<Identifier>, x: Item<string>): Result<Item<nat>>
  {
    match x
    case Text(t) => Fine(Text(t))
    case Ref(n) => var i :- Lookup(ids, n); Fine(Ref(i))
  }

  function ResolveItems(ids: seq<Identifier>, xs: seq<Item<string>>): Result<seq<Item<nat>>>
  {
    if xs == [] then Fine([])
    else
      var x :- ResolveItem(ids, xs[0]);
      var rest :- ResolveItems(ids, xs[1..]);
      Fine([x] + rest)
  }

  function ResolveValue(ids: seq<Identifier>, v: ParamValue<string>): Result<ParamValue<nat>>
  {
    match v
    case Single(x) => var y :- ResolveItem(ids, x); Fine(Single(y))
    case Array(xs) => var ys :- ResolveItems(ids, xs); Fine(Array(ys))
  }

  function ResolveParams(ids: seq<Identifier>, ps: seq<Param<string>>): Result<seq<Param<nat>>>
  {
    if ps == [] then Fine([])
    else
      var v :- ResolveValue(ids, ps[0].value);
      var rest :- ResolveParams(ids, ps[1..]);
      Fine([Param(ps[0].name, v)] + rest)
  }

  function ResolveBody(ids: seq<Identifier>, b: Option<Body>): Result<Definition<nat>>
  {
    match b
    case None => Fine(Unset)
    case Some(Body(kind, ps, _)) => var ys :- ResolveParams(ids, ps); Fine(Element(kind, ys))
  }

  /** What one declaration adds: references stand for the one identifier of that name defined by then, an
      element's own included; an intent must be the last declaration and have no action. */
  function OneMeaning(ids: seq<Identifier>, intents: seq<Intent>, d: Decl, last: bool): Result<(seq<Identifier>,
      seq<Intent>)>
  {
    match d
    case Define(name, b) =>
      var v :- ResolveBody(ids + [Identifier(name, Unset)], b);
      Fine((ids + [Identifier(name, v)], intents))
    case Want(name, select, action) =>
      var i :- Lookup(ids, select);
      if action.None? && last then Fine((ids, intents + [Intent(name, i)])) else Fails(NoActionWriter)
  }

  /** What a program defines, or the first error. */
  function Meaning(ids: seq<Identifier>, intents: seq<Intent>, decls: seq<Decl>): Result<(seq<Identifier>, seq<Intent>)>
    decreases decls
  {
    if decls == [] then Fine((ids, intents))
    else
      var c :- OneMeaning(ids, intents, decls[0], |decls| == 1);
      Meaning(c.0, c.1, decls[1..])
  }

  lemma {:induction false} NamedAre(ids: seq<Identifier>, name: string)
    ensures forall i: nat :: i in Named(ids, name) <==> i < |ids| && ids[i].name == name
    ensures forall j, k :: 0 <= j < k < |Named(ids, name)| ==> Named(ids, name)[j] < Named(ids, name)[k]
  {
    if ids != [] {
      var n := |ids| - 1;
      NamedAre(ids[..n], name);
      var before := Named(ids[..n], name);
      forall j | 0 <= j < |before| ensures before[j] < n { assert before[j] in before; }
    }
  }

  /** A name resolves to an identifier exactly when that is the only one of this name. */
  lemma LookupIsUnique(ids: seq<Identifier>, name: string, i: nat)
    ensures Lookup(ids, name) == Fine(i) <==>
      i < |ids| && ids[i].name == name && forall k: nat :: k < |ids| && ids[k].name == name ==> k == i
  {
    NamedAre(ids, name);
    var found := Named(ids, name);
    if |found| == 1 {
      assert found[0] in found;
      assert forall k: nat :: k in found ==> k == found[0];
    } else if i < |ids| && ids[i].name == name {
      assert i in found;
      assert |found| > 1 ==> found[0] in found && found[1] in found && found[0] < found[1];
    }
  }

  // ---------- Tokens up to the spelling of keywords ----------

  function Bare(t: Token): Token { if t.keyword == IDENTIFIER || t.keyword == STRING then t else T(t.keyword) }

  function Bared(s: seq<Token>): (r: seq<Token>)
    ensures |r| == |s| && forall i :: 0 <= i < |s| ==> r[i] == Bare(s[i])
  {
    seq(|s|, i requires 0 <= i < |s| => Bare(s[i]))
  }

  // Everything but the tokens and the tree.
  ghost predicate SameContext(p: State, q: State)
  {
    q.ids == p.ids && q.intents == p.intents && q.params == p.params && q.elems == p.elems && q.current == p.current
  }

  lemma TakeBared(p: State, t: Token, tail: seq<Token>)
    requires Bared(p.rest) == [t] + tail
    ensures p.rest != [] && Bare(p.rest[0]) == t && p.rest[0].keyword == t.keyword
    ensures Bared(Take(p).rest) == tail && SameContext(p, Take(p)) && Match(p, t.keyword) == Fine(Take(p))
    ensures t.keyword == IDENTIFIER || t.keyword == STRING ==> p.rest[0].value == t.value
  {
    assert |p.rest| == 1 + |tail|;
    assert Bared(p.rest)[0] == t;
    assert Bared(p.rest)[1..] == tail;
    assert Bared(p.rest[1..]) == Bared(p.rest)[1..];
  }

  lemma QuotedParses(p: State, t: string, tail: seq<Token>)
    requires Bared(p.rest) == PrintItem(Text(t)) + tail
    ensures p.rest != [] && p.rest[0].keyword == DOUBLE_QUOTE && QuotedText(p).Fine?
    ensures var q := QuotedText(p).value; q.1 == t && SameContext(p, q.0) && Bared(q.0.rest) == tail
  {
    hide Bared, Take, Moved;
    var a, b := Token(STRING, t), T(DOUBLE_QUOTE);
    assert PrintItem(Text(t)) + tail == [b] + ([a] + ([b] + tail));
    TakeBared(p, b, [a] + ([b] + tail));
    TakeBared(Take(p), a, [b] + tail);
    TakeBared(Take(Take(p)), b, tail);
  }

  // What a production makes of printed text: the meaning's failure, or its values and the text behind.
  ghost predicate ElemsGive(p: State, r: Result<State>, ys: Result<seq<Item<nat>>>, tail: seq<Token>)
  {
    match ys
    case Fails(e) => r == Fails(e)
    case Fine(s) => r.Fine? && SameContext(p.(elems := p.elems + s), r.value) && Bared(r.value.rest) == tail
  }

  lemma Gathered(a: seq<Item<nat>>, y: Item<nat>, ys: seq<Item<nat>>)
    ensures a + [y] + ys == a + ([y] + ys)
  {
  }

  lemma OneElem(p: State, x: Item<string>, more: seq<Token>) returns (q: State)
    requires Bared(p.rest) == PrintItem(x) + more
    ensures match ResolveItem(p.ids, x)
      case Fails(e) => Elems(p) == Fails(e)
      case Fine(y) => Elems(p) == MoreElems(q) && SameContext(p.(elems := p.elems + [y]), q) && Bared(q.rest) == more
  {
    hide Moved, Leaves;
    var p0 := Push(p, ELEMS_OF_ARRAY);
    q := p0;
    match x
    case Text(t) =>
      QuotedParses(p0, t, more);
      hide QuotedText, MoreElems, Bared, PrintItem;
      q := QuotedText(p0).value.0;
      q := q.(elems := q.elems + [Text(t)]);
    case Ref(n) =>
      TakeBared(p0, Token(IDENTIFIER, n), more);
      hide QuotedText, MoreElems, Bared, PrintItem, Lookup;
      if Lookup(p.ids, n).Fine? {
        q := Take(p0).(elems := p.elems + [Ref(Lookup(p.ids, n).value)]);
      }
  }

  lemma ItemsPrinted(xs: seq<Item<string>>, tail: seq<Token>)
    requires xs != []
    ensures PrintItems(xs) + tail == PrintItem(xs[0]) + (PrintMoreItems(xs[1..]) + tail)
  {
  }

  lemma MoreItemsPrinted(xs: seq<Item<string>>, tail: seq<Token>)
    requires xs != []
    ensures PrintMoreItems(xs) + tail == [T(COMMA)] + (PrintItems(xs) + tail)
  {
  }

  // Resolving the first item and then the others, in front of what is there.
  lemma FirstResolved(p: State, q: State, r: Result<State>, xs: seq<Item<string>>, tail: seq<Token>)
    requires xs != [] && ResolveItem(p.ids, xs[0]).Fine?
    requires SameContext(p.(elems := p.elems + [ResolveItem(p.ids, xs[0]).value]), q)
    requires ElemsGive(q, r, ResolveItems(p.ids, xs[1..]), tail)
    ensures ElemsGive(p, r, ResolveItems(p.ids, xs), tail)
  {
    hide ResolveItem, Bared;
    var ys := ResolveItems(p.ids, xs[1..]);
    if ys.Fine? { Gathered(p.elems, ResolveItem(p.ids, xs[0]).value, ys.value); }
  }

  lemma {:induction false} ElemsParse(p: State, xs: seq<Item<string>>, tail: seq<Token>)
    requires xs != [] && Bared(p.rest) == PrintItems(xs) + tail && tail != [] && tail[0] == T(RIGHT_BRACE)
    ensures ElemsGive(p, Elems(p), ResolveItems(p.ids, xs), tail)
    decreases |xs|, 1
  {
    ItemsPrinted(xs, tail);
    hide Moved, Leaves, Elems, MoreElems, ResolveItem, Bared, PrintItem, PrintItems, PrintMoreItems;
    var q := OneElem(p, xs[0], PrintMoreItems(xs[1..]) + tail);
    if ResolveItem(p.ids, xs[0]).Fine? {
      hide ResolveItems;
      MoreElemsParse(q, xs[1..], tail);
      FirstResolved(p, q, Elems(p), xs, tail);
    }
  }

  lemma {:induction false} MoreElemsParse(p: State, xs: seq<Item<string>>, tail: seq<Token>)
    requires Bared(p.rest) == PrintMoreItems(xs) + tail && tail != [] && tail[0] == T(RIGHT_BRACE)
    ensures ElemsGive(p, MoreElems(p), ResolveItems(p.ids, xs), tail)
    decreases |xs|, 2
  {
    hide Moved, Leaves;
    var p0 := Push(p, ADD_MORE_ELEMENTS_TO_ARRAY);
    if xs == [] {
      assert Bared(p.rest) == tail;
      assert Bared(p.rest)[0] == Bare(p.rest[0]);
    } else {
      assert PrintMoreItems(xs) + tail == [T(COMMA)] + (PrintItems(xs) + tail);
      TakeBared(p0, T(COMMA), PrintItems(xs) + tail);
      ElemsParse(Take(p0), xs, tail);
    }
  }

  ghost predicate ParamsGive(p: State, r: Result<State>, ys: Result<seq<Param<nat>>>, tail: seq<Token>)
  {
    match ys
    case Fails(e) => r == Fails(e)
    case Fine(s) =>
      && r.Fine? && Bared(r.value.rest) == tail && r.value.params == p.params + s
      && r.value.ids == p.ids && r.value.intents == p.intents
  }

  lemma ArrayPrinted(xs: seq<Item<string>>, more: seq<Token>)
    ensures PrintValue(Array(xs)) + more == [T(LEFT_BRACE)] + (PrintItems(xs) + ([T(RIGHT_BRACE)] + more))
  {
  }

  lemma ArrayParses(p: State, xs: seq<Item<string>>, more: seq<Token>)
    requires xs != [] && Bared(p.rest) == PrintValue(Array(xs)) + more
    ensures p.rest != [] && p.rest[0].keyword == LEFT_BRACE
    ensures ElemsGive(p.(elems := []), ArrayValue(p), ResolveItems(p.ids, xs), more)
  {
    var inner := [T(RIGHT_BRACE)] + more;
    ArrayPrinted(xs, more);
    hide Moved, Leaves, Elems, ResolveItems, Bared, PrintItems, PrintValue, Take, Match;
    TakeBared(p, T(LEFT_BRACE), PrintItems(xs) + inner);
    var p1 := Take(p).(elems := []);
    ElemsParse(p1, xs, inner);
    if ResolveItems(p.ids, xs).Fine? {
      TakeBared(Elems(p1).value, T(RIGHT_BRACE), more);
    }
  }

  // What parsing a value leaves: one more parameter, and the text behind it.
  ghost predicate ValueGives(p: State, y: Result<ParamValue<nat>>, q: State, more: seq<Token>)
  {
    match y
    case Fails(e) => SecondPart(p) == Fails(e)
    case Fine(v) =>
      && SecondPart(p) == MoreParams(q) && Bared(q.rest) == more
      && q.ids == p.ids && q.intents == p.intents && q.params == p.params + [Param(p.current, v)]
  }

  lemma TextValue(p: State, t: string, more: seq<Token>) returns (q: State)
    requires Bared(p.rest) == PrintValue(Single(Text(t))) + more
    ensures ValueGives(p, Fine(Single(Text(t))), q, more)
  {
    hide Moved, Leaves, MoreParams, Bared;
    var p0 := Push(p, SECOND_PART_EQUAL);
    QuotedParses(p0, t, more);
    hide QuotedText, PrintValue;
    q := AddParam(QuotedText(p0).value.0, Single(Text(t)));
  }

  lemma RefValue(p: State, n: string, more: seq<Token>) returns (q: State)
    requires Bared(p.rest) == PrintValue(Single(Ref(n))) + more
    ensures ValueGives(p, ResolveValue(p.ids, Single(Ref(n))), q, more)
  {
    hide Moved, Leaves, MoreParams, Bared, Lookup;
    q := Push(p, SECOND_PART_EQUAL);
    TakeBared(q, Token(IDENTIFIER, n), more);
    hide PrintValue;
    if Lookup(p.ids, n).Fine? {
      q := AddParam(Take(q), Single(Ref(Lookup(p.ids, n).value)));
    }
  }

  lemma ArrayGives(p: State, xs: seq<Item<string>>, more: seq<Token>) returns (q: State)
    requires xs != [] && Bared(p.rest) == PrintValue(Array(xs)) + more
    ensures ValueGives(p, ResolveValue(p.ids, Array(xs)), q, more)
  {
    hide Moved, Leaves, MoreParams, Bared, ResolveItems, PrintValue, ArrayValue;
    q := Push(p, SECOND_PART_EQUAL);
    ArrayParses(q, xs, more);
    if ResolveItems(p.ids, xs).Fine? {
      var ys := ResolveItems(p.ids, xs).value;
      assert [] + ys == ys;
      q := AddParam(ArrayValue(q).value, Array(ys));
    }
  }

  lemma OneValue(p: State, v: ParamValue<string>, more: seq<Token>) returns (q: State)
    requires Bared(p.rest) == PrintValue(v) + more && (v.Array? ==> v.items != [])
    ensures ValueGives(p, ResolveValue(p.ids, v), q, more)
  {
    hide ValueGives, Bared, PrintValue, ResolveItems;
    match v
    case Single(Text(t)) => q := TextValue(p, t, more);
    case Single(Ref(n)) => q := RefValue(p, n, more);
    case Array(xs) => q := ArrayGives(p, xs, more);
  }

  lemma {:induction false} ParamsParse(p: State, ps: seq<Param<string>>, comma: bool, tail: seq<Token>)
    requires GoodParams(ps) && Bared(p.rest) == PrintParams(ps, comma) + tail && tail != [] &&
      tail[0] == T(RIGHT_PARENTHESIS)
    ensures ParamsGive(p, Params(p), ResolveParams(p.ids, ps), tail)
    decreases |ps|, 1
  {
    hide Moved, Leaves;
    var p0 := Push(p, PARAMS);
    if ps == [] {
      assert Bared(p.rest) == tail;
      assert Bared(p.rest)[0] == Bare(p.rest[0]);
    } else {
      NamedParamParse(p, ps, comma, tail);
    }
  }

  lemma ParamStart(p: State, name: string, more: seq<Token>)
    requires Bared(p.rest) == [Token(IDENTIFIER, name)] + ([T(EQUAL_PARAMETERS)] + more)
    ensures p.rest != [] && |Take(Push(p, PARAMS)).rest| > 0
    ensures var p2 := Take(Take(Push(p, PARAMS)));
      Params(p) == SecondPart(p2.(current := name)) && SameContext(p, p2) && Bared(p2.rest) == more
  {
    hide Moved, Leaves;
    var p0 := Push(p, PARAMS);
    TakeBared(p0, Token(IDENTIFIER, name), [T(EQUAL_PARAMETERS)] + more);
    TakeBared(Take(p0), T(EQUAL_PARAMETERS), more);
    hide SecondPart, Bared;
  }

  lemma ParamsPrinted(ps: seq<Param<string>>, comma: bool, tail: seq<Token>)
    requires ps != []
    ensures PrintParams(ps, comma) + tail ==
            [Token(IDENTIFIER, ps[0].name)] +
            ([T(EQUAL_PARAMETERS)] + (PrintValue(ps[0].value) + (PrintMoreParams(ps[1..], comma) + tail)))
  {
    hide PrintValue;
  }

  lemma FirstParamResolved(p: State, q: State, r: Result<State>, ps: seq<Param<string>>, tail: seq<Token>)
    requires ps != [] && ResolveValue(p.ids, ps[0].value).Fine?
    requires q.ids == p.ids && q.intents == p.intents &&
      q.params == p.params + [Param(ps[0].name, ResolveValue(p.ids, ps[0].value).value)]
    requires ParamsGive(q, r, ResolveParams(p.ids, ps[1..]), tail)
    ensures ParamsGive(p, r, ResolveParams(p.ids, ps), tail)
  {
    hide ResolveValue, Bared;
    var ys := ResolveParams(p.ids, ps[1..]);
    if ys.Fine? { GatheredParams(p.params, Param(ps[0].name, ResolveValue(p.ids, ps[0].value).value), ys.value); }
  }

  lemma {:induction false} NamedParamParse(p: State, ps: seq<Param<string>>, comma: bool, tail: seq<Token>)
    requires ps != [] && GoodParams(ps) && Bared(p.rest) == PrintParams(ps, comma) + tail && tail != [] &&
      tail[0] == T(RIGHT_PARENTHESIS)
    ensures ParamsGive(p, Params(p), ResolveParams(p.ids, ps), tail)
    decreases |ps|, 0
  {
    var more := PrintMoreParams(ps[1..], comma) + tail;
    var name, v := ps[0].name, ps[0].value;
    ParamsPrinted(ps, comma, tail);
    assert GoodParams(ps[1..]) && (v.Array? ==> v.items != []);
    hide Moved, Leaves, Bared, PrintValue, PrintParams, PrintMoreParams, SecondPart, MoreParams, Params, ResolveValue,
      GoodParams;
    ParamStart(p, name, PrintValue(v) + more);
    var p2 := Take(Take(Push(p, PARAMS))).(current := name);
    var q := OneValue(p2, v, more);
    if ResolveValue(p.ids, v).Fine? {
      hide ResolveParams;
      MoreParamsParse(q, ps[1..], comma, tail);
      FirstParamResolved(p, q, Params(p), ps, tail);
    }
  }

  lemma GatheredParams(a: seq<Param<nat>>, y: Param<nat>, ys: seq<Param<nat>>)
    ensures a + [y] + ys == a + ([y] + ys)
  {
  }

  lemma FurtherPrinted(ps: seq<Param<string>>, comma: bool, tail: seq<Token>)
    requires ps != [] || comma
    ensures PrintMoreParams(ps, comma) + tail == [T(COMMA)] + (PrintParams(ps, comma) + tail)
  {
    hide PrintParams;
  }

  lemma {:induction false} MoreParamsParse(p: State, ps: seq<Param<string>>, comma: bool, tail: seq<Token>)
    requires GoodParams(ps) && Bared(p.rest) == PrintMoreParams(ps, comma) + tail && tail != [] &&
      tail[0] == T(RIGHT_PARENTHESIS)
    ensures ParamsGive(p, MoreParams(p), ResolveParams(p.ids, ps), tail)
    decreases |ps|, 2
  {
    hide Moved, Leaves;
    var p0 := Push(p, ADD_MORE_PARAMETERS);
    if ps == [] && !comma {
      assert Bared(p.rest) == tail;
      assert Bared(p.rest)[0] == Bare(p.rest[0]);
    } else {
      FurtherPrinted(ps, comma, tail);
      hide Params, Bared, PrintParams, PrintMoreParams, ResolveParams, GoodParams;
      TakeBared(p0, T(COMMA), PrintParams(ps, comma) + tail);
      ParamsParse(Take(p0), ps, comma, tail);
    }
  }

  // ---------- Declarations ----------

  lemma ParamListParses(p: State, ps: seq<Param<string>>, comma: bool, tail: seq<Token>)
    requires GoodParams(ps)
    requires Bared(p.rest) == [T(LEFT_PARENTHESIS)] + (PrintParams(ps, comma) + ([T(RIGHT_PARENTHESIS)] + tail))
    ensures ParamsGive(p.(params := []), ParamList(p), ResolveParams(p.ids, ps), tail)
  {
    hide Moved, Leaves, Bared, PrintParams, Params, ResolveParams, GoodParams, Take, Match;
    var inner := [T(RIGHT_PARENTHESIS)] + tail;
    TakeBared(p, T(LEFT_PARENTHESIS), PrintParams(ps, comma) + inner);
    var p1 := Take(p).(params := []);
    ParamsParse(p1, ps, comma, inner);
    if ResolveParams(p.ids, ps).Fine? { TakeBared(Params(p1).value, T(RIGHT_PARENTHESIS), tail); }
  }

  ghost predicate DefinitionGives(p: State, r: Result<(State, Definition<nat>)>, d: Result<Definition<nat>>,
      tail: seq<Token>)
  {
    match d
    case Fails(e) => r == Fails(e)
    case Fine(v) =>
      && r.Fine? && r.value.1 == v && Bared(r.value.0.rest) == tail
      && r.value.0.ids == p.ids && r.value.0.intents == p.intents
  }

  lemma BodyPrinted(b: Body, tail: seq<Token>)
    ensures PrintBody(Some(b)) + tail ==
            [T(b.kind)] + ([T(LEFT_PARENTHESIS)] + (PrintParams(b.params, b.comma) + ([T(RIGHT_PARENTHESIS)] + tail)))
  {
    hide PrintParams;
  }

  lemma NothingLeft(p: State, tail: seq<Token>)
    ensures (Bared(p.rest) == [] <==> p.rest == []) && PrintBody(None) + tail == tail
  {
  }

  lemma ElementGives(p: State, b: Body, tail: seq<Token>)
    requires p.rest != [] && p.rest[0].keyword == b.kind && IsKind(b.kind)
    requires var p1 := Take(Push(p, NETWORK_ELEM_DEFINITION));
      p1.ids == p.ids && p1.intents == p.intents &&
        ParamsGive(p1.(params := []), ParamList(p1), ResolveParams(p.ids, b.params), tail)
    ensures DefinitionGives(p, ElementDefinition(p), ResolveBody(p.ids, Some(b)), tail)
  {
    hide Moved, Leaves, ParamList, ResolveParams, Bared, Take;
    var ys := ResolveParams(p.ids, b.params);
    if ys.Fine? { assert [] + ys.value == ys.value; }
  }

  lemma BodyParses(p: State, b: Option<Body>, tail: seq<Token>)
    requires Bared(p.rest) == PrintBody(b) + tail
    requires if b.None? then tail == [] else IsKind(b.value.kind) && GoodParams(b.value.params)
    ensures DefinitionGives(p, ElementDefinition(p), ResolveBody(p.ids, b), tail)
  {
    hide Moved, Leaves;
    var p0 := Push(p, NETWORK_ELEM_DEFINITION);
    if b.None? {
      NothingLeft(p, tail);
    } else {
      BodyPrinted(b.value, tail);
      hide Bared, PrintParams, PrintBody, ParamList, ResolveParams, GoodParams, Take;
      var inner := PrintParams(b.value.params, b.value.comma) + ([T(RIGHT_PARENTHESIS)] + tail);
      TakeBared(p0, T(b.value.kind), [T(LEFT_PARENTHESIS)] + inner);
      ParamListParses(Take(p0), b.value.params, b.value.comma, tail);
      ElementGives(p, b.value, tail);
    }
  }

  // What one more declaration makes of a parser state.
  ghost predicate StateGives(r: Result<State>, c: Result<(seq<Identifier>, seq<Intent>)>, tail: seq<Token>)
  {
    match c
    case Fails(e) => r == Fails(e)
    case Fine(v) => r.Fine? && r.value.ids == v.0 && r.value.intents == v.1 && Bared(r.value.rest) == tail
  }

  lemma DefineStart(p: State, name: string, inner: seq<Token>)
    requires Bared(p.rest) == [Token(IDENTIFIER, name)] + ([T(ASSIGN)] + inner)
    ensures p.rest != [] && p.rest[0].keyword == IDENTIFIER && |Take(p).rest| > 0
    ensures var p1 := Take(Take(p)).(ids := p.ids + [Identifier(name, Unset)]);
      && Bared(p1.rest) == inner && p1.intents == p.intents
      && DefinitionOf(p) ==
         match ElementDefinition(p1)
         case Fails(e) => Fails(e)
         case Fine(d) => Fine(d.0.(ids := d.0.ids[|p.ids| := Identifier(name, d.1)]))
  {
    hide Moved, Leaves, Bared, ElementDefinition;
    TakeBared(p, Token(IDENTIFIER, name), [T(ASSIGN)] + inner);
    TakeBared(Take(p), T(ASSIGN), inner);
  }

  lemma DeclPrinted(name: string, b: Option<Body>, tail: seq<Token>)
    ensures PrintDecl(Define(name, b)) + tail == [Token(IDENTIFIER, name)] + ([T(ASSIGN)] + (PrintBody(b) + tail))
  {
    hide PrintBody;
  }

  lemma LastReplaced(ids: seq<Identifier>, a: Identifier, b: Identifier)
    ensures (ids + [a])[|ids| := b] == ids + [b]
  {
  }

  lemma DefineParses(p: State, name: string, b: Option<Body>, tail: seq<Token>)
    requires Bared(p.rest) == PrintDecl(Define(name, b)) + tail
    requires if b.None? then tail == [] else IsKind(b.value.kind) && GoodParams(b.value.params)
    ensures p.rest != [] && p.rest[0].keyword == IDENTIFIER
    ensures StateGives(DefinitionOf(p), OneMeaning(p.ids, p.intents, Define(name, b), tail == []), tail)
  {
    DeclPrinted(name, b, tail);
    hide Moved, Leaves, Bared, PrintDecl, PrintBody, GoodParams, ResolveBody, ElementDefinition, DefinitionOf;
    DefineStart(p, name, PrintBody(b) + tail);
    var unset := Identifier(name, Unset);
    var p1 := Take(Take(p)).(ids := p.ids + [unset]);
    hide Take;
    BodyParses(p1, b, tail);
    if ResolveBody(p1.ids, b).Fine? { LastReplaced(p.ids, unset, Identifier(name, ResolveBody(p1.ids, b).value)); }
  }

  // The text behind a declaration: nothing, or another one.
  predicate Follows(tail: seq<Token>) { tail == [] || tail[0].keyword == IDENTIFIER || tail[0].keyword == INTENT }

  lemma NotThere(p: State, k: Keyword)
    requires Follows(Bared(p.rest)) && k != IDENTIFIER && k != INTENT
    ensures !LooksAt(p, k) && (p.rest == [] <==> Bared(p.rest) == [])
  {
    if p.rest != [] { assert Bared(p.rest)[0] == Bare(p.rest[0]); }
  }

  lemma ConditionParses(p: State, c: Option<string>, tail: seq<Token>)
    requires Follows(tail) &&
      Bared(p.rest) == (if c.None? then [] else [T(CONDITION), Token(IDENTIFIER, c.value)]) + tail
    ensures WithCondition(p).Fine? && WithCondition(p).value.0.ids == p.ids &&
      WithCondition(p).value.0.intents == p.intents
  {
    var p0 := Push(p, INTENT_PRODUCTION_WITH_CONDITION);
    hide Moved, Leaves;
    match c
    case None =>
      assert [] + tail == tail;
      NotThere(p0, CONDITION);
    case Some(name) =>
      assert [T(CONDITION), Token(IDENTIFIER, name)] + tail == [T(CONDITION)] + ([Token(IDENTIFIER, name)] + tail);
      hide Bared;
      TakeBared(p0, T(CONDITION), [Token(IDENTIFIER, name)] + tail);
      TakeBared(Take(p0), Token(IDENTIFIER, name), tail);
  }

  lemma ActionPrinted(name: string, c: Option<string>, tail: seq<Token>)
    ensures PrintAction(Some((name, c))) + tail ==
            [T(ACTION)] + ([Token(IDENTIFIER, name)] +
              ((if c.None? then [] else [T(CONDITION), Token(IDENTIFIER, c.value)]) + tail))
  {
  }

  lemma ActionParses(p: State, action: Option<(string, Option<string>)>, tail: seq<Token>)
    requires Follows(tail) && Bared(p.rest) == PrintAction(action) + tail
    ensures WithAction(p).Fine? && WithAction(p).value.0.ids == p.ids && WithAction(p).value.0.intents == p.intents
    ensures WithAction(p).value.1.None? <==> action.None? && tail == []
    ensures WithAction(p).value.1.None? ==> WithAction(p).value.0.rest == []
  {
    var p0 := Push(p, INTENT_PRODUCTION_WITH_ACTION);
    hide Moved, Leaves, WithCondition;
    match action
    case None =>
      assert [] + tail == tail;
      NotThere(p0, ACTION);
    case Some((name, c)) =>
      var more := (if c.None? then [] else [T(CONDITION), Token(IDENTIFIER, c.value)]) + tail;
      ActionPrinted(name, c, tail);
      hide Bared, PrintAction, Follows;
      TakeBared(p0, T(ACTION), [Token(IDENTIFIER, name)] + more);
      TakeBared(Take(p0), Token(IDENTIFIER, name), more);
      ConditionParses(Take(Take(p0)), c, tail);
  }

  lemma WantPrinted(name: string, select: string, action: Option<(string, Option<string>)>, tail: seq<Token>)
    ensures PrintDecl(Want(name, select, action)) + tail ==
            [T(INTENT)] + ([Token(IDENTIFIER, name)] +
              ([T(SELECT)] + ([Token(IDENTIFIER, select)] + (PrintAction(action) + tail))))
  {
    hide PrintAction;
  }

  lemma WantStart(p: State, name: string, select: string, more: seq<Token>)
    requires Bared(p.rest) ==
      [T(INTENT)] + ([Token(IDENTIFIER, name)] + ([T(SELECT)] + ([Token(IDENTIFIER, select)] + more)))
    ensures p.rest != [] && p.rest[0].keyword == INTENT && |p.rest| >= 4
    ensures var p4 := Take(Take(Take(Take(p))));
      && Bared(p4.rest) == more && SameContext(p, p4)
      && IntentOf(p) ==
         match WithAction(p4)
         case Fails(e) => Fails(e)
         case Fine(a) =>
           match Lookup(a.0.ids, select)
           case Fails(e) => Fails(e)
           case Fine(i) =>
             if a.1.None? then Fine(a.0.(intents := a.0.intents + [Intent(name, i)])) else Fails(NoActionWriter)
  {
    hide Moved, Leaves, Bared, WithAction, Lookup;
    var t3 := [Token(IDENTIFIER, select)] + more;
    var t2 := [T(SELECT)] + t3;
    TakeBared(p, T(INTENT), [Token(IDENTIFIER, name)] + t2);
    TakeBared(Take(p), Token(IDENTIFIER, name), t2);
    TakeBared(Take(Take(p)), T(SELECT), t3);
    TakeBared(Take(Take(Take(p))), Token(IDENTIFIER, select), more);
  }

  lemma WantParses(p: State, name: string, select: string, action: Option<(string, Option<string>)>, tail: seq<Token>)
    requires Follows(tail) && Bared(p.rest) == PrintDecl(Want(name, select, action)) + tail
    ensures p.rest != [] && p.rest[0].keyword == INTENT
    ensures StateGives(IntentOf(p), OneMeaning(p.ids, p.intents, Want(name, select, action), tail == []), tail)
  {
    WantPrinted(name, select, action, tail);
    hide Moved, Leaves, PrintAction, PrintDecl, WithAction, Lookup, IntentOf, Take;
    WantStart(p, name, select, PrintAction(action) + tail);
    ActionParses(Take(Take(Take(Take(p)))), action, tail);
  }

  lemma NextDecl(decls: seq<Decl>)
    ensures Follows(Print(decls)) && (Print(decls) == [] <==> decls == [])
  {
    if decls != [] { hide PrintBody, PrintAction; }
  }

  lemma DeclParses(p: State, d: Decl, rest: seq<Decl>)
    requires Grammatical([d] + rest) && Bared(p.rest) == PrintDecl(d) + Print(rest)
    ensures p.rest != [] && StateGives(InitialSymbol(p), OneMeaning(p.ids, p.intents, d, rest == []), Print(rest))
  {
    var tail := Print(rest);
    var p0 := Push(p, INITIAL_SYMBOL);
    NextDecl(rest);
    assert ([d] + rest)[0] == d;
    hide Moved, Leaves, Bared, Print, PrintDecl, OneMeaning, DefinitionOf, IntentOf;
    match d
    case Define(name, b) => DefineParses(p0, name, b, tail);
    case Want(name, select, action) => WantParses(p0, name, select, action, tail);
  }

  ghost predicate ProgramGives(r: Result<State>, c: Result<(seq<Identifier>, seq<Intent>)>)
  {
    match c
    case Fails(e) => r == Fails(e)
    case Fine(v) => r.Fine? && r.value.ids == v.0 && r.value.intents == v.1
  }

  lemma SplitProgram(decls: seq<Decl>)
    requires Grammatical(decls) && decls != []
    ensures Grammatical([decls[0]] + decls[1..]) && Grammatical(decls[1..])
    ensures Print(decls) == PrintDecl(decls[0]) + Print(decls[1..])
  {
    hide PrintDecl, GoodParams;
    assert decls == [decls[0]] + decls[1..];
  }

  lemma {:induction false} ProgramParses(p: State, decls: seq<Decl>)
    requires Grammatical(decls) && Bared(p.rest) == Print(decls)
    ensures ProgramGives(Program(p), Meaning(p.ids, p.intents, decls))
    decreases |decls|
  {
    if decls == [] {
      NothingLeft(p, []);
    } else {
      SplitProgram(decls);
      hide Moved, Leaves, Progress, Bared, Print, PrintDecl, Grammatical, InitialSymbol, OneMeaning;
      DeclParses(p, decls[0], decls[1..]);
      if InitialSymbol(p).Fine? { ProgramParses(InitialSymbol(p).value, decls[1..]); }
    }
  }

  /** The parser makes of every printed program exactly what it means, however keywords are spelled and
      wherever lines end behind the first token. */
  lemma ParseIsMeaning(tokens: seq<Token>, decls: seq<Decl>)
    requires tokens != [] ==> tokens[0].keyword != END_OF_LINE
    requires Grammatical(decls) && Bared(WithoutLineEnds(tokens)) == Print(decls)
    ensures ProgramGives(Parse(tokens), Meaning([], [], decls))
  {
    ProgramParses(Begin(WithoutLineEnds(tokens)), decls);
  }

  // ---------- Everything accepted is a printed program ----------

  lemma TakenBared(p: State)
    requires p.rest != []
    ensures Bared(p.rest) == [Bare(p.rest[0])] + Bared(Take(p).rest)
  {
    hide Moved, Leaves;
    assert Bared(p.rest)[0] == Bare(p.rest[0]);
    assert Bared(p.rest)[1..] == Bared(p.rest[1..]);
  }

  lemma QuotedRead(p: State)
    requires LooksAt(p, DOUBLE_QUOTE) && QuotedText(p).Fine?
    ensures var q := QuotedText(p).value; Bared(p.rest) == PrintItem(Text(q.1)) + Bared(q.0.rest)
  {
    hide Moved, Leaves, Bared;
    var p1 := Take(p);
    TakenBared(p);
    TakenBared(p1);
    TakenBared(Take(p1));
  }

  lemma OneElemRead(p: State) returns (x: Item<string>, q: State)
    requires p.rest != [] && Elems(p).Fine?
    ensures Elems(p) == MoreElems(q) && |q.rest| < |p.rest| && Bared(p.rest) == PrintItem(x) + Bared(q.rest)
  {
    var p0 := Push(p, ELEMS_OF_ARRAY);
    hide Moved, Leaves, MoreElems, Bared, Lookup, PrintItem;
    if LooksAt(p0, DOUBLE_QUOTE) {
      QuotedRead(p0);
      hide QuotedText;
      var (q0, t) := QuotedText(p0).value;
      x, q := Text(t), q0.(elems := q0.elems + [Text(t)]);
    } else {
      TakenBared(p0);
      var n := p.rest[0].value;
      x, q := Ref(n), Take(p0).(elems := p.elems + [Ref(Lookup(p.ids, n).value)]);
      RefPrinted(n);
    }
  }

  lemma RefPrinted(n: string)
    ensures PrintItem(Ref(n)) == [Token(IDENTIFIER, n)]
  {
  }

  // The elements parsed when something follows them.
  lemma {:induction false} ElemsRead(p: State) returns (xs: seq<Item<string>>)
    requires Elems(p).Fine? && Elems(p).value.rest != []
    ensures xs != [] && Bared(p.rest) == PrintItems(xs) + Bared(Elems(p).value.rest)
    decreases |p.rest|, 1
  {
    assert p.rest != [];
    var x, q := OneElemRead(p);
    hide Moved, Leaves, Elems, MoreElems, Bared, PrintItem;
    var more := MoreElemsRead(q);
    xs := [x] + more;
    assert xs[1..] == more;
    ItemsPrinted(xs, Bared(Elems(p).value.rest));
  }

  lemma {:induction false} MoreElemsRead(p: State) returns (xs: seq<Item<string>>)
    requires MoreElems(p).Fine? && MoreElems(p).value.rest != []
    ensures Bared(p.rest) == PrintMoreItems(xs) + Bared(MoreElems(p).value.rest)
    decreases |p.rest|, 0
  {
    var p0 := Push(p, ADD_MORE_ELEMENTS_TO_ARRAY);
    hide Moved, Leaves, Elems, Bared;
    if LooksAt(p0, COMMA) {
      TakenBared(p0);
      xs := ElemsRead(Take(p0));
      MoreItemsPrinted(xs, Bared(MoreElems(p).value.rest));
      hide Take, PrintItems, PrintMoreItems;
    } else {
      xs := [];
      assert [] + Bared(p.rest) == Bared(p.rest);
    }
  }

  lemma ArrayRead(p: State) returns (xs: seq<Item<string>>)
    requires p.rest != []
    ensures p.rest[0].keyword == LEFT_BRACE && ArrayValue(p).Fine? ==>
      xs != [] && Bared(p.rest) == PrintValue(Array(xs)) + Bared(ArrayValue(p).value.rest)
  {
    hide Moved, Leaves, Elems, Bared, PrintItems;
    xs := [];
    if p.rest[0].keyword == LEFT_BRACE && ArrayValue(p).Fine? {
      var p1 := Take(p).(elems := []);
      TakenBared(p);
      xs := ElemsRead(p1);
      var p2 := Elems(p1).value;
      TakenBared(p2);
      ArrayPrinted(xs, Bared(Take(p2).rest));
    }
  }

  lemma OneValueRead(p: State) returns (v: ParamValue<string>, q: State)
    requires p.rest != [] && SecondPart(p).Fine?
    ensures SecondPart(p) == MoreParams(q) && |q.rest| < |p.rest| && (v.Array? ==> v.items != [])
    ensures Bared(p.rest) == PrintValue(v) + Bared(q.rest)
  {
    var p0 := Push(p, SECOND_PART_EQUAL);
    hide Moved, Leaves, MoreParams, Bared, Lookup, PrintItem, ArrayValue;
    if LooksAt(p0, DOUBLE_QUOTE) {
      QuotedRead(p0);
      hide QuotedText;
      var (q0, t) := QuotedText(p0).value;
      v, q := Single(Text(t)), AddParam(q0, Single(Text(t)));
    } else if LooksAt(p0, IDENTIFIER) {
      TakenBared(p0);
      var n := p.rest[0].value;
      v, q := Single(Ref(n)), AddParam(Take(p0), Single(Ref(Lookup(p.ids, n).value)));
      RefPrinted(n);
    } else {
      var xs := ArrayRead(p0);
      v, q := Array(xs), AddParam(ArrayValue(p0).value, Array(ArrayValue(p0).value.elems));
      hide PrintValue;
    }
  }

  lemma {:induction false} ParamsRead(p: State) returns (ps: seq<Param<string>>, comma: bool)
    requires Params(p).Fine? && Params(p).value.rest != []
    ensures GoodParams(ps) && Bared(p.rest) == PrintParams(ps, comma) + Bared(Params(p).value.rest)
    decreases |p.rest|, 1
  {
    var p0 := Push(p, PARAMS);
    hide Moved, Leaves, SecondPart, Bared;
    if LooksAt(p0, IDENTIFIER) {
      ps, comma := SomeParamsRead(p);
    } else {
      ps, comma := [], false;
      assert [] + Bared(p.rest) == Bared(p.rest);
    }
  }

  lemma ParamStartRead(p: State) returns (q: State)
    requires LooksAt(p, IDENTIFIER) && Params(p).Fine?
    ensures Params(p) == SecondPart(q) && |q.rest| < |p.rest|
    ensures Bared(p.rest) == [Token(IDENTIFIER, p.rest[0].value)] + ([T(EQUAL_PARAMETERS)] + Bared(q.rest))
  {
    hide Moved, Leaves, SecondPart, Bared;
    var p0 := Push(p, PARAMS);
    TakenBared(p0);
    TakenBared(Take(p0));
    q := Take(Take(p0)).(current := p.rest[0].value);
  }

  lemma SecondPartAtEnd(p: State)
    requires SecondPart(p).Fine? && SecondPart(p).value.rest != []
    ensures p.rest != []
  {
    hide MoreParams, Elems, QuotedText, ArrayValue, Leaves, Moved;
  }

  lemma {:induction false} SomeParamsRead(p: State) returns (ps: seq<Param<string>>, comma: bool)
    requires Params(p).Fine? && Params(p).value.rest != [] && LooksAt(p, IDENTIFIER)
    ensures GoodParams(ps) && Bared(p.rest) == PrintParams(ps, comma) + Bared(Params(p).value.rest)
    decreases |p.rest|, 0
  {
    var p2 := ParamStartRead(p);
    SecondPartAtEnd(p2);
    hide Moved, Leaves, SecondPart, Bared, Params, MoreParams, PrintValue;
    var v, q := OneValueRead(p2);
    var more;
    more, comma := MoreParamsRead(q);
    ps := [Param(p.rest[0].value, v)] + more;
    assert ps[1..] == more;
    forall i | 0 <= i < |ps| && ps[i].value.Array? ensures ps[i].value.items != [] {
      if i > 0 { assert ps[i] == more[i - 1]; }
    }
    ParamsPrinted(ps, comma, Bared(Params(p).value.rest));
    hide GoodParams;
  }

  lemma CommaPrinted(ps: seq<Param<string>>, comma: bool, tail: seq<Token>)
    ensures PrintMoreParams(ps, comma || ps == []) + tail == [T(COMMA)] + (PrintParams(ps, comma) + tail)
  {
    MorePrinted(ps, comma);
    hide PrintMoreParams, PrintParams;
  }

  lemma MorePrinted(ps: seq<Param<string>>, comma: bool)
    ensures PrintMoreParams(ps, comma || ps == []) == [T(COMMA)] + PrintParams(ps, comma)
  {
    if ps == [] { assert PrintParams(ps, true) == PrintParams(ps, comma); }
  }

  lemma {:induction false} MoreParamsRead(p: State) returns (ps: seq<Param<string>>, comma: bool)
    requires MoreParams(p).Fine? && MoreParams(p).value.rest != []
    ensures GoodParams(ps) && Bared(p.rest) == PrintMoreParams(ps, comma) + Bared(MoreParams(p).value.rest)
    decreases |p.rest|, 2
  {
    var p0 := Push(p, ADD_MORE_PARAMETERS);
    hide Moved, Leaves, Params, Bared;
    if LooksAt(p0, COMMA) {
      TakenBared(p0);
      ps, comma := ParamsRead(Take(p0));
      CommaPrinted(ps, comma, Bared(MoreParams(p).value.rest));
      comma := comma || ps == [];
      hide Take, PrintParams, PrintMoreParams, GoodParams;
    } else {
      ps, comma := [], false;
      assert [] + Bared(p.rest) == Bared(p.rest);
    }
  }

  lemma ParamListRead(p: State) returns (ps: seq<Param<string>>, comma: bool)
    requires ParamList(p).Fine?
    ensures GoodParams(ps)
    ensures Bared(p.rest) ==
      [T(LEFT_PARENTHESIS)] + (PrintParams(ps, comma) + ([T(RIGHT_PARENTHESIS)] + Bared(ParamList(p).value.rest)))
  {
    hide Moved, Leaves, Bared, Params, PrintParams, GoodParams;
    var p1 := Take(p).(params := []);
    TakenBared(p);
    ps, comma := ParamsRead(p1);
    TakenBared(Params(p1).value);
  }

  // A definition's body, or the end of the text.
  lemma BodyRead(p: State) returns (b: Option<Body>)
    requires ElementDefinition(p).Fine?
    ensures var q := ElementDefinition(p).value.0;
      && Bared(p.rest) == PrintBody(b) + Bared(q.rest)
      && if b.None? then q.rest == [] else IsKind(b.value.kind) && GoodParams(b.value.params)
  {
    hide Moved, Leaves, ParamList;
    var p0 := Push(p, NETWORK_ELEM_DEFINITION);
    if p.rest == [] {
      b := None;
    } else {
      hide Bared, PrintParams, GoodParams;
      TakenBared(p0);
      var ps, comma := ParamListRead(Take(p0));
      b := Some(Body(p.rest[0].keyword, ps, comma));
      BodyPrinted(b.value, Bared(ParamList(Take(p0)).value.rest));
      hide PrintBody, Take;
    }
  }

  lemma DefineRead(p: State) returns (name: string, b: Option<Body>)
    requires LooksAt(p, IDENTIFIER) && DefinitionOf(p).Fine?
    ensures var q := DefinitionOf(p).value;
      && Bared(p.rest) == PrintDecl(Define(name, b)) + Bared(q.rest)
      && if b.None? then q.rest == [] else IsKind(b.value.kind) && GoodParams(b.value.params)
  {
    hide Moved, Leaves, Bared, ElementDefinition, PrintBody, GoodParams;
    name := p.rest[0].value;
    TakenBared(p);
    TakenBared(Take(p));
    var p1 := Take(Take(p)).(ids := p.ids + [Identifier(name, Unset)]);
    b := BodyRead(p1);
    DeclPrinted(name, b, Bared(ElementDefinition(p1).value.0.rest));
    hide Take, PrintDecl;
  }

  lemma ActionAtEnd(p: State)
    requires WithAction(p).Fine? && WithAction(p).value.1.None?
    ensures p.rest == [] && WithAction(p).value.0.rest == []
  {
    hide Moved, Leaves, WithCondition;
  }

  lemma WantRead(p: State) returns (name: string, select: string)
    requires LooksAt(p, INTENT) && IntentOf(p).Fine?
    ensures Bared(p.rest) == PrintDecl(Want(name, select, None)) && IntentOf(p).value.rest == []
  {
    hide Moved, Leaves, Bared, WithAction, Lookup;
    var p1 := Take(p);
    var p2 := Take(p1);
    var p3 := Take(p2);
    var p4 := Take(p3);
    ActionAtEnd(p4);
    TakenBared(p);
    TakenBared(p1);
    TakenBared(p2);
    TakenBared(p3);
    NothingLeft(p4, []);
    name, select := p1.rest[0].value, p3.rest[0].value;
    WantPrinted(name, select, None, []);
    assert PrintDecl(Want(name, select, None)) + [] == PrintDecl(Want(name, select, None));
    assert PrintAction(None) + [] == [];
    hide Take, PrintDecl, PrintAction;
  }

  lemma DeclRead(p: State) returns (d: Decl)
    requires p.rest != [] && InitialSymbol(p).Fine?
    ensures var q := InitialSymbol(p).value;
      && Bared(p.rest) == PrintDecl(d) + Bared(q.rest)
      && (q.rest == [] ==> Grammatical([d]))
      && (q.rest != [] ==> Complete(d))
  {
    hide Moved, Leaves, Bared, DefinitionOf, IntentOf, PrintDecl, GoodParams;
    var p0 := Push(p, INITIAL_SYMBOL);
    if LooksAt(p0, IDENTIFIER) {
      var name, b := DefineRead(p0);
      d := Define(name, b);
    } else {
      var name, select := WantRead(p0);
      d := Want(name, select, None);
      NothingLeft(IntentOf(p0).value, []);
      assert PrintDecl(d) + [] == PrintDecl(d);
    }
  }

  // A declaration that others may follow.
  ghost predicate Complete(d: Decl)
  {
    d.Define? && d.body.Some? && IsKind(d.body.value.kind) && GoodParams(d.body.value.params)
  }

  lemma OneMoreDecl(d: Decl, rest: seq<Decl>)
    requires if rest == [] then Grammatical([d]) else Complete(d) && Grammatical(rest)
    ensures Grammatical([d] + rest) && Print([d] + rest) == PrintDecl(d) + Print(rest)
  {
    hide PrintDecl, GoodParams;
    var decls := [d] + rest;
    assert decls[1..] == rest && [d] + [] == [d];
    forall i | 0 <= i < |decls| && decls[i].Define?
      ensures if decls[i].body.None? then i == |decls| - 1
              else IsKind(decls[i].body.value.kind) && GoodParams(decls[i].body.value.params)
    {
      if i == 0 { assert [d][0] == d; } else { assert decls[i] == rest[i - 1]; }
    }
  }

  lemma {:induction false} ProgramRead(p: State) returns (decls: seq<Decl>)
    requires Program(p).Fine?
    ensures Grammatical(decls) && Bared(p.rest) == Print(decls)
    decreases |p.rest|
  {
    if p.rest == [] {
      decls := [];
      NothingLeft(p, []);
    } else {
      var d := DeclRead(p);
      var q := InitialSymbol(p).value;
      assert |q.rest| < |p.rest|;
      hide Leaves, Bared, InitialSymbol, Grammatical, Complete, Print, PrintDecl, Progress;
      var rest := ProgramRead(q);
      NothingLeft(q, []);
      NextDecl(rest);
      OneMoreDecl(d, rest);
      decls := [d] + rest;
    }
  }

  /** Every text the parser accepts is the print of a program, which then means what the parser made of it. */
  lemma AcceptedIsPrinted(tokens: seq<Token>) returns (decls: seq<Decl>)
    requires Parse(tokens).Fine?
    ensures Grammatical(decls) && Bared(WithoutLineEnds(tokens)) == Print(decls)
    ensures Meaning([], [], decls) == Fine((Parse(tokens).value.ids, Parse(tokens).value.intents))
  {
    decls := ProgramRead(Begin(WithoutLineEnds(tokens)));
    ParseIsMeaning(tokens, decls);
  }

  // ---------- Consequences ----------

  ghost predicate Prints(tokens: seq<Token>, decls: seq<Decl>)
  {
    Grammatical(decls) && Bared(WithoutLineEnds(tokens)) == Print(decls)
  }

  /** The accepted language, exactly. */
  lemma AcceptedLanguage(tokens: seq<Token>)
    ensures Parse(tokens).Fine? <==>
      && (tokens != [] ==> tokens[0].keyword != END_OF_LINE)
      && exists decls :: Prints(tokens, decls) && Meaning([], [], decls).Fine?
  {
    hide Program, Meaning, Print, Bared;
    if Parse(tokens).Fine? {
      var decls := AcceptedIsPrinted(tokens);
      assert Prints(tokens, decls);
    } else if tokens == [] || tokens[0].keyword != END_OF_LINE {
      forall decls | Prints(tokens, decls) ensures Meaning([], [], decls).Fails? {
        ParseIsMeaning(tokens, decls);
      }
    }
  }

  /** Line ends behind the first token change nothing. */
  lemma LineEndsDoNotMatter(tokens: seq<Token>, i: nat, end: Token)
    requires 0 < i <= |tokens| && end.keyword == END_OF_LINE
    ensures Parse(tokens[..i] + [end] + tokens[i..]) == Parse(tokens)
  {
    hide Program;
    var more := [end] + tokens[i..];
    assert more[1..] == tokens[i..];
    WithoutEndsSplit(tokens[..i], more);
    WithoutEndsSplit(tokens[..i], tokens[i..]);
    assert tokens[..i] + tokens[i..] == tokens;
    assert tokens[..i] + [end] + tokens[i..] == tokens[..i] + more;
    assert WithoutLineEnds(more) == WithoutLineEnds(tokens[i..]);
    assert (tokens[..i] + more)[0] == tokens[0];
  }

  lemma {:induction false} WithoutEndsSplit(a: seq<Token>, b: seq<Token>)
    ensures WithoutLineEnds(a + b) == WithoutLineEnds(a) + WithoutLineEnds(b)
  {
    if a == [] {
      assert a + b == b;
    } else {
      assert (a + b)[1..] == a[1..] + b;
      WithoutEndsSplit(a[1..], b);
    }
  }

  // Every name used is defined exactly once by then.
  ghost predicate Resolvable(ids: seq<Identifier>, decls: seq<Decl>)
    decreases decls
  {
    decls == [] ||
    match decls[0]
    case Want(_, select, _) => Lookup(ids, select).Fine? && Resolvable(ids, decls[1..])
    case Define(name, b) =>
      var v := ResolveBody(ids + [Identifier(name, Unset)], b);
      v.Fine? && Resolvable(ids + [Identifier(name, v.value)], decls[1..])
  }

  // An intent without an action at the very end.
  predicate OnlyBareLast(decls: seq<Decl>)
  {
    forall i :: 0 <= i < |decls| && decls[i].Want? ==> i == |decls| - 1 && decls[i].action.None?
  }

  /** A program whose references are all in order parses back to its meaning if and only if it has at most
      one intent, which stands last and has no action: HaikunetIntent has nowhere to put one. */
  lemma RoundTrip(tokens: seq<Token>, decls: seq<Decl>)
    requires Prints(tokens, decls) && (tokens != [] ==> tokens[0].keyword != END_OF_LINE) && Resolvable([], decls)
    ensures Parse(tokens).Fine? <==> OnlyBareLast(decls)
    ensures Parse(tokens).Fine? ==>
      Meaning([], [], decls) == Fine((Parse(tokens).value.ids, Parse(tokens).value.intents))
    ensures Parse(tokens).Fails? ==> Parse(tokens).error == NoActionWriter
  {
    hide Program, Parse;
    ParseIsMeaning(tokens, decls);
    ResolvableMeans([], [], decls);
  }

  lemma {:induction false} ResolvableMeans(ids: seq<Identifier>, intents: seq<Intent>, decls: seq<Decl>)
    requires Resolvable(ids, decls)
    ensures if OnlyBareLast(decls) then Meaning(ids, intents, decls).Fine?
      else Meaning(ids, intents, decls) == Fails(NoActionWriter)
    decreases decls
  {
    if decls != [] {
      var c := OneMeaning(ids, intents, decls[0], |decls| == 1);
      if c.Fine? {
        ResolvableMeans(c.value.0, c.value.1, decls[1..]);
        hide ResolveBody;
        assert OnlyBareLast(decls) <==> OnlyBareLast(decls[1..]) by {
          assert forall i :: 0 < i < |decls| ==> decls[i] == decls[1..][i - 1];
          assert forall i :: 0 <= i < |decls[1..]| ==> decls[1..][i] == decls[i + 1];
        }
      } else {
        assert decls[0].Want?;
      }
    }
  }

  // a := HOST() INTENT i SELECT a ACTION b
  const HOST_PART: seq<Token> := [Token(IDENTIFIER, "a"), T(ASSIGN), T(HOST), T(LEFT_PARENTHESIS), T(RIGHT_PARENTHESIS)]
  const INTENT_PART: seq<Token> :=
    [T(INTENT), Token(IDENTIFIER, "i"), T(SELECT), Token(IDENTIFIER, "a"), T(ACTION), Token(IDENTIFIER, "b")]
  const WITH_ACTION: seq<Token> := HOST_PART + INTENT_PART

  /** An intent with an action cannot be parsed, although its reference is in order. */
  lemma ActionRaises()
    ensures Parse(WITH_ACTION) == Fails(NoActionWriter)
  {
    var host, intent := Define("a", Some(Body(HOST, [], false))), Want("i", "a", Some(("b", None)));
    var decls := [host, intent];
    hide Parse, WithoutLineEnds, Bared, Print, PrintDecl, Meaning, Grammatical;
    PrintsWithAction(decls, host, intent);
    WithActionIsBare();
    ParseIsMeaning(WITH_ACTION, decls);
    HostThenIntent(decls, host, intent);
  }

  lemma PrintsWithAction(decls: seq<Decl>, host: Decl, intent: Decl)
    requires decls == [host, intent]
    requires host == Define("a", Some(Body(HOST, [], false))) && intent == Want("i", "a", Some(("b", None)))
    ensures Grammatical(decls) && Print(decls) == WITH_ACTION
  {
    HostPrinted(host);
    IntentPrinted(intent);
    assert decls[1..] == [intent] && [intent][1..] == [];
    hide PrintDecl;
    assert Print([]) == [];
    assert Print([intent]) == PrintDecl(intent) + [] == PrintDecl(intent);
  }

  lemma HostPrinted(host: Decl)
    requires host == Define("a", Some(Body(HOST, [], false)))
    ensures PrintDecl(host) == HOST_PART
  {
    assert PrintParams([], false) == [];
    assert PrintBody(host.body) == [T(HOST), T(LEFT_PARENTHESIS), T(RIGHT_PARENTHESIS)];
  }

  lemma IntentPrinted(intent: Decl)
    requires intent == Want("i", "a", Some(("b", None)))
    ensures PrintDecl(intent) == INTENT_PART
  {
    assert PrintAction(intent.action) == [T(ACTION), Token(IDENTIFIER, "b")];
  }

  // Tokens that are neither line ends nor keywords with another spelling.
  ghost predicate Plain(s: seq<Token>) { forall i :: 0 <= i < |s| ==>
      Bare(s[i]) == s[i] && s[i].keyword != END_OF_LINE }

  lemma PlainStays(s: seq<Token>)
    requires Plain(s)
    ensures WithoutLineEnds(s) == s && Bared(s) == s
  {
    NoLineEnds(s);
  }

  lemma WithActionIsBare()
    ensures |WITH_ACTION| == 11 && WITH_ACTION[0].keyword == IDENTIFIER
    ensures WithoutLineEnds(WITH_ACTION) == WITH_ACTION && Bared(WITH_ACTION) == WITH_ACTION
  {
    hide WithoutLineEnds, Bared;
    assert Plain(HOST_PART) && Plain(INTENT_PART);
    PlainStays(HOST_PART + INTENT_PART);
  }

  lemma {:induction false} NoLineEnds(s: seq<Token>)
    requires forall i :: 0 <= i < |s| ==> s[i].keyword != END_OF_LINE
    ensures WithoutLineEnds(s) == s
  {
    if s != [] { NoLineEnds(s[1..]); }
  }

  lemma HostThenIntent(decls: seq<Decl>, host: Decl, intent: Decl)
    requires decls == [host, intent]
    requires host == Define("a", Some(Body(HOST, [], false))) && intent == Want("i", "a", Some(("b", None)))
    ensures Meaning([], [], decls) == Fails(NoActionWriter)
  {
    var unset, ids := [Identifier("a", Unset)], [Identifier("a", Element(HOST, []))];
    assert [] + unset == unset && [] + ids == ids && decls[1..] == [intent];
    assert ResolveParams(unset, []) == Fine([]);
    assert ResolveBody(unset, host.body) == Fine(Element(HOST, []));
    assert OneMeaning([], [], host, false) == Fine((ids, []));
    LookupIsUnique(ids, "a", 0);
    hide Lookup, ResolveBody;
    assert OneMeaning(ids, [], intent, true) == Fails(NoActionWriter);
  }
}
