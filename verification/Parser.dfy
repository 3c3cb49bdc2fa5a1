/** The recursive-descent parser over mutable state: an index into the tokens, the tree so far, the
    identifiers and intents, and the parameters and array elements being collected. */
module Parsing {
  import opened Collections
  import opened Syntax

  datatype Status = Pass | Fail(error: Error) {
    predicate IsFailure() { Fail? }
    function PropagateFailure(): Status
      requires Fail?
    {
      this
    }
  }

  /** A method's status and final state say what the grammar says. */
  predicate Agrees(status: Status, state: State, r: Result<State>)
  {
    match r
    case Fine(q) => status == Pass && state == q
    case Fails(e) => status == Fail(e)
  }

  lemma WithoutEndsAt(s: seq<Token>, i: nat)
    requires i < |s|
    ensures WithoutLineEnds(s[i..]) ==
            (if s[i].keyword == END_OF_LINE then [] else [s[i]]) + WithoutLineEnds(s[i + 1..])
  {
    assert s[i..][1..] == s[i + 1..];
  }

  class Parser {
    const tokens: seq<Token>
    var index: nat
    var tree: seq<Node>
    var identifiers: seq<Identifier>
    var intents: seq<Intent>
    var actualParams: seq<Param<nat>>
    var elemsOfArray: seq<Item<nat>>
    var actualIdentifier: string

    /** The index never rests on a line end. */
    predicate Valid()
      reads this
    {
      index <= |tokens| && (index < |tokens| ==> tokens[index].keyword != END_OF_LINE)
    }

    function View(): State
      reads this
    {
      var rest := if index <= |tokens| then WithoutLineEnds(tokens[index..]) else [];
      State(rest, tree, identifiers, intents, actualParams, elemsOfArray, actualIdentifier)
    }

    constructor (lexeme: seq<Token>)
      ensures tokens == lexeme && index == 0 && View() == Begin(WithoutLineEnds(lexeme))
    {
      tokens := lexeme;
      index, tree, identifiers, intents, actualParams, elemsOfArray, actualIdentifier := 0, [], [], [], [], [], "";
      new;
      assert tokens[0..] == tokens;
    }

    method GetLookahead() returns (token: Option<Token>)
      requires Valid()
      ensures token == if View().rest == [] then None else Some(View().rest[0])
    {
      if index < |tokens| {
        WithoutEndsAt(tokens, index);
        token := Some(tokens[index]);
      } else {
        token := None;
      }
    }

    method PushNode(r: Rule)
      requires Valid()
      modifies `tree
      ensures Valid() && View() == Push(old(View()), r)
    {
      tree := tree + [Inner(r)];
    }

    method SkipLineEnds()
      requires index <= |tokens|
      modifies `index
      ensures Valid() && View() == old(View()) && old(index) <= index
    {
      while index < |tokens| && tokens[index].keyword == END_OF_LINE
        invariant old(index) <= index <= |tokens|
        invariant WithoutLineEnds(tokens[index..]) == WithoutLineEnds(tokens[old(index)..])
      {
        WithoutEndsAt(tokens, index);
        index := index + 1;
      }
    }

    /** Takes the token and skips the line ends behind it. */
    method Match(k: Keyword) returns (status: Status)
      requires Valid()
      modifies `tree, `index
      ensures Valid() && Agrees(status, View(), Syntax.Match(old(View()), k))
      ensures status.Pass? ==> old(index) < |tokens| && tokens[old(index)] == old(View()).rest[0]
    {
      if index == |tokens| {
        return Fail(NilToken);
      }
      WithoutEndsAt(tokens, index);
      hide WithoutLineEnds, Moved;
      if tokens[index].keyword == k {
        tree := tree + [Leaf(tokens[index])];
        index := index + 1;
      } else {
        return Fail(Syntactical);
      }
      SkipLineEnds();
      status := Pass;
    }

    method GetIdentifier(name: string) returns (r: Result<nat>)
      requires Valid()
      ensures r == Lookup(View().ids, name)
    {
      var found: seq<nat> := [];
      for i := 0 to |identifiers|
        invariant found == Named(identifiers[..i], name)
      {
        assert identifiers[..i + 1][..i] == identifiers[..i];
        if identifiers[i].name == name {
          found := found + [i];
        }
      }
      assert identifiers[..|identifiers|] == identifiers;
      r := if |found| == 1 then Fine(found[0]) else Fails(Semantical);
    }

    method MatchText() returns (status: Status, text: string)
      requires Valid() && View().rest != [] && View().rest[0].keyword == DOUBLE_QUOTE
      modifies `tree, `index
      ensures Valid()
      ensures match QuotedText(old(View()))
        case Fine(q) => status == Pass && View() == q.0 && text == q.1
        case Fails(e) => status == Fail(e)
    {
      hide View, Valid, WithoutLineEnds, Moved, Leaves;
      text := "";
      var _ := Match(DOUBLE_QUOTE);
      var at := index;
      :- Match(STRING);
      :- Match(DOUBLE_QUOTE);
      return Pass, tokens[at].value;
    }

    method MatchReference() returns (status: Status, id: nat)
      requires Valid() && View().rest != [] && View().rest[0].keyword == IDENTIFIER
      modifies `tree, `index
      ensures Valid()
      ensures match Reference(old(View()))
        case Fine(q) => status == Pass && View() == q.0 && id == q.1
        case Fails(e) => status == Fail(e)
    {
      hide View, Valid, WithoutLineEnds, Moved, Leaves, Lookup;
      var at := index;
      var _ := Match(IDENTIFIER);
      var found := GetIdentifier(tokens[at].value);
      if found.Fails? { return Fail(found.error), 0; }
      return Pass, found.value;
    }

    // The fields, as the state has them.
    lemma Fields()
      requires Valid()
      ensures View().ids == identifiers && View().elems == elemsOfArray && View().params == actualParams
    {
    }

    method StartElems()
      requires Valid()
      modifies `elemsOfArray
      ensures Valid() && View() == old(View()).(elems := [])
    {
      elemsOfArray := [];
    }

    method StartParams()
      requires Valid()
      modifies `actualParams
      ensures Valid() && View() == old(View()).(params := [])
    {
      actualParams := [];
    }

    method NameParam(name: string)
      requires Valid()
      modifies `actualIdentifier
      ensures Valid() && View() == old(View()).(current := name)
    {
      actualIdentifier := name;
    }

    method PushIdentifier(name: string)
      requires Valid()
      modifies `identifiers
      ensures Valid() && View() == old(View()).(ids := old(View()).ids + [Identifier(name, Unset)])
    {
      identifiers := identifiers + [Identifier(name, Unset)];
    }

    method SetValue(n: nat, value: Definition<nat>)
      requires Valid() && n < |View().ids|
      modifies `identifiers
      ensures Valid() && View() == old(View()).(ids := old(View()).ids[n := old(View()).ids[n].(value := value)])
    {
      identifiers := identifiers[n := identifiers[n].(value := value)];
    }

    method PushIntent(name: string, select: nat)
      requires Valid()
      modifies `intents
      ensures Valid() && View() == old(View()).(intents := old(View()).intents + [Intent(name, select)])
    {
      intents := intents + [Intent(name, select)];
    }

    method PushElem(x: Item<nat>)
      requires Valid()
      modifies `elemsOfArray
      ensures Valid() && View() == old(View()).(elems := old(View()).elems + [x])
    {
      elemsOfArray := elemsOfArray + [x];
    }

    method ElemsOfArray() returns (status: Status)
      requires Valid()
      modifies this
      ensures Valid() && Agrees(status, View(), Elems(old(View())))
      decreases |View().rest|, 1
    {
      hide View, Valid, WithoutLineEnds, Moved, Leaves, Reference, MoreElems, QuotedText;
      PushNode(ELEMS_OF_ARRAY);
      var token := GetLookahead();
      if token.None? { return Pass; }
      match token.value.keyword {
        case IDENTIFIER =>
          var id :- MatchReference();
          PushElem(Ref(id));
        case DOUBLE_QUOTE =>
          var text :- MatchText();
          PushElem(Text(text));
        case _ =>
          return Fail(Syntactical);
      }
      status := AddMoreElementsToArray();
    }

    method AddMoreElementsToArray() returns (status: Status)
      requires Valid()
      modifies this
      ensures Valid() && Agrees(status, View(), MoreElems(old(View())))
      decreases |View().rest|, 0
    {
      hide View, Valid, WithoutLineEnds, Moved, Leaves, Elems;
      PushNode(ADD_MORE_ELEMENTS_TO_ARRAY);
      var token := GetLookahead();
      if token.None? { return Pass; }
      if token.value.keyword == COMMA {
        var _ := Match(COMMA);
        status := ElemsOfArray();
      } else {
        PushNode(LAMBDA);
        status := Pass;
      }
    }

    method MatchArray() returns (status: Status)
      requires Valid() && View().rest != [] && View().rest[0].keyword == LEFT_BRACE
      modifies this
      ensures Valid() && Agrees(status, View(), ArrayValue(old(View())))
      decreases |View().rest|, 0
    {
      hide View, Valid, WithoutLineEnds, Moved, Leaves, Elems;
      var _ := Match(LEFT_BRACE);
      StartElems();
      :- ElemsOfArray();
      status := Match(RIGHT_BRACE);
    }

    method PushParam(v: ParamValue<nat>)
      requires Valid()
      modifies `actualParams
      ensures Valid() && View() == AddParam(old(View()), v)
    {
      actualParams := actualParams + [Param(actualIdentifier, v)];
    }

    method ParamsProduction() returns (status: Status)
      requires Valid()
      modifies this
      ensures Valid() && Agrees(status, View(), Params(old(View())))
      decreases |View().rest|, 2
    {
      hide View, Valid, WithoutLineEnds, Moved, Leaves, SecondPart;
      PushNode(PARAMS);
      var token := GetLookahead();
      if token.None? { return Pass; }
      if token.value.keyword == IDENTIFIER {
        var at := index;
        var _ := Match(IDENTIFIER);
        :- Match(EQUAL_PARAMETERS);
        NameParam(tokens[at].value);
        status := SecondPartEqual();
      } else {
        PushNode(LAMBDA);
        status := Pass;
      }
    }

    method SecondPartEqual() returns (status: Status)
      requires Valid()
      modifies this
      ensures Valid() && Agrees(status, View(), SecondPart(old(View())))
      decreases |View().rest|, 1
    {
      hide View, Valid, WithoutLineEnds, Moved, Leaves, Reference, MoreParams, QuotedText, ArrayValue, AddParam, Push,
        Take, Syntax.Match;
      PushNode(SECOND_PART_EQUAL);
      var token := GetLookahead();
      if token.None? { return Pass; }
      match token.value.keyword {
        case DOUBLE_QUOTE =>
          var text :- MatchText();
          PushParam(Single(Text(text)));
        case IDENTIFIER =>
          var id :- MatchReference();
          PushParam(Single(Ref(id)));
        case LEFT_BRACE =>
          :- MatchArray();
          Fields();
          PushParam(Array(elemsOfArray));
        case _ =>
          return Fail(Syntactical);
      }
      status := AddMoreParameters();
    }

    method AddMoreParameters() returns (status: Status)
      requires Valid()
      modifies this
      ensures Valid() && Agrees(status, View(), MoreParams(old(View())))
      decreases |View().rest|, 0
    {
      hide View, Valid, WithoutLineEnds, Moved, Leaves, Params;
      PushNode(ADD_MORE_PARAMETERS);
      var token := GetLookahead();
      if token.None? { return Pass; }
      if token.value.keyword == COMMA {
        var _ := Match(COMMA);
        status := ParamsProduction();
      } else {
        PushNode(LAMBDA);
        status := Pass;
      }
    }

    method MatchParamList() returns (status: Status)
      requires Valid()
      modifies this
      ensures Valid() && Agrees(status, View(), ParamList(old(View())))
    {
      hide View, Valid, WithoutLineEnds, Moved, Leaves, Params;
      :- Match(LEFT_PARENTHESIS);
      StartParams();
      :- ParamsProduction();
      status := Match(RIGHT_PARENTHESIS);
    }

    method NetworkElemDefinition() returns (status: Status, value: Definition<nat>)
      requires Valid()
      modifies this
      ensures Valid()
      ensures match ElementDefinition(old(View()))
        case Fine(q) => status == Pass && View() == q.0 && value == q.1
        case Fails(e) => status == Fail(e)
    {
      hide View, Valid, WithoutLineEnds, Moved, Leaves, ParamList;
      value := Unset;
      PushNode(NETWORK_ELEM_DEFINITION);
      var token := GetLookahead();
      if token.None? { return Pass, Unset; }
      var kind := token.value.keyword;
      match kind {
        case HOST | LINK | DEVICE | ACTION | FLOW | CONDITION =>
          var _ := Match(kind);
          :- MatchParamList();
          Fields();
          return Pass, Element(kind, actualParams);
        case _ =>
          return Fail(Syntactical), Unset;
      }
    }

    method IntentProductionWithCondition() returns (status: Status, condition: Option<string>)
      requires Valid()
      modifies this
      ensures Valid()
      ensures match WithCondition(old(View()))
        case Fine(q) => status == Pass && View() == q.0 && condition == q.1
        case Fails(e) => status == Fail(e)
    {
      hide View, Valid, WithoutLineEnds, Moved, Leaves;
      condition := None;
      PushNode(INTENT_PRODUCTION_WITH_CONDITION);
      var token := GetLookahead();
      if token.None? { return Pass, None; }
      if token.value.keyword == CONDITION {
        var _ := Match(CONDITION);
        var at := index;
        :- Match(IDENTIFIER);
        return Pass, Some(tokens[at].value);
      }
      PushNode(LAMBDA);
      status := Pass;
    }

    method IntentProductionWithAction() returns (status: Status, out: Option<(Option<string>, Option<string>)>)
      requires Valid()
      modifies this
      ensures Valid()
      ensures match WithAction(old(View()))
        case Fine(q) => status == Pass && View() == q.0 && out == q.1
        case Fails(e) => status == Fail(e)
    {
      hide View, Valid, WithoutLineEnds, Moved, Leaves, WithCondition;
      out := None;
      PushNode(INTENT_PRODUCTION_WITH_ACTION);
      var token := GetLookahead();
      if token.None? { return Pass, None; }
      if token.value.keyword == ACTION {
        var _ := Match(ACTION);
        var at := index;
        :- Match(IDENTIFIER);
        var condition :- IntentProductionWithCondition();
        return Pass, Some((Some(tokens[at].value), condition));
      }
      PushNode(LAMBDA);
      return Pass, Some((None, None));
    }

    method DefineIdentifier() returns (status: Status)
      requires Valid() && View().rest != [] && View().rest[0].keyword == IDENTIFIER
      modifies this
      ensures Valid() && Agrees(status, View(), DefinitionOf(old(View())))
    {
      hide View, Valid, WithoutLineEnds, Leaves, ElementDefinition;
      var at := index;
      var _ := Match(IDENTIFIER);
      :- Match(ASSIGN);
      Fields();
      var n := |identifiers|;
      PushIdentifier(tokens[at].value);
      var value :- NetworkElemDefinition();
      SetValue(n, value);
      status := Pass;
    }

    method DefineIntent() returns (status: Status)
      requires Valid() && View().rest != [] && View().rest[0].keyword == INTENT
      modifies this
      ensures Valid() && Agrees(status, View(), IntentOf(old(View())))
    {
      hide View, Valid, WithoutLineEnds, Moved, Leaves, WithAction, Lookup;
      var _ := Match(INTENT);
      var atIntent := index;
      :- Match(IDENTIFIER);
      :- Match(SELECT);
      var atSelect := index;
      :- Match(IDENTIFIER);
      var actionAndCondition :- IntentProductionWithAction();
      var found := GetIdentifier(tokens[atSelect].value);
      if found.Fails? { return Fail(found.error); }
      PushIntent(tokens[atIntent].value, found.value);
      if actionAndCondition.None? { return Pass; }
      // The original writes the intent's action here, which the class does not allow.
      status := Fail(NoActionWriter);
    }

    method InitialSymbolProduction() returns (status: Status)
      requires Valid() && View().rest != []
      modifies this
      ensures Valid() && Agrees(status, View(), InitialSymbol(old(View())))
    {
      hide View, Valid, WithoutLineEnds, Moved, Leaves, DefinitionOf, IntentOf;
      PushNode(INITIAL_SYMBOL);
      var token := GetLookahead();
      match token.value.keyword {
        case IDENTIFIER => status := DefineIdentifier();
        case INTENT => status := DefineIntent();
        case _ => status := Fail(Syntactical);
      }
    }

    /** The parse of a fresh parser's tokens. */
    method Parse() returns (status: Status)
      requires index == 0 && View() == Begin(WithoutLineEnds(tokens))
      modifies this
      ensures index <= |tokens| && Agrees(status, View(), Syntax.Parse(tokens))
    {
      if tokens != [] && tokens[0].keyword == END_OF_LINE {
        // Only in front of the first token does the first production see a line end.
        return Fail(Syntactical);
      }
      while index < |tokens|
        invariant Valid() && Program(View()) == Program(old(View()))
        decreases |View().rest|
      {
        WithoutEndsAt(tokens, index);
        :- InitialSymbolProduction();
      }
      status := Pass;
    }
  }
}
