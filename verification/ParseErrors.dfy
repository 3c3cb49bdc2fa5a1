/** What an error says about the text: a syntax error stays one however the text goes on, and a missing
    token is one that a further token, if it does not suit, turns into a syntax error. */
module ParseErrors {
  import opened Collections
  import opened Syntax

  function Extended(p: State, more: seq<Token>): State { p.(rest := p.rest + more) }

  // One token that no production begins with.
  predicate Unsuitable(more: seq<Token>)
  {
    |more| == 1 && (more[0].keyword == SELECT || more[0].keyword == ASSIGN)
  }

  // What more text makes of a result.
  ghost predicate GoesOn(r: Result<State>, r': Result<State>, more: seq<Token>)
  {
    && (r == Fails(Syntactical) ==> r' == Fails(Syntactical))
    && (r.Fine? && r.value.rest != [] ==> r' == Fine(Extended(r.value, more)))
    && (Unsuitable(more) && r.Fine? && r.value.rest == [] ==>
      r' == Fails(Syntactical) || (r'.Fine? && r'.value.rest == more))
  }

  // ... where a missing token is not SELECT or ASSIGN.
  ghost predicate GoesOnInside(r: Result<State>, r': Result<State>, more: seq<Token>)
  {
    GoesOn(r, r', more) && (Unsuitable(more) && r == Fails(NilToken) ==> r' == Fails(Syntactical))
  }

  function First<T>(r: Result<(State, T)>): Result<State> { var v :- r; Fine(v.0) }

  lemma TakeOn(p: State, more: seq<Token>)
    requires p.rest != []
    ensures Take(Extended(p, more)) == Extended(Take(p), more) && Extended(p, more).rest[0] == p.rest[0]
  {
    assert (p.rest + more)[1..] == p.rest[1..] + more;
  }

  lemma MatchOn(p: State, k: Keyword, more: seq<Token>)
    ensures GoesOn(Match(p, k), Match(Extended(p, more), k), more) || Match(p, k) == Fails(NilToken) ||
      (Match(p, k).Fine? && Match(p, k).value.rest == [])
    ensures Match(p, k).Fine? ==> Match(Extended(p, more), k) == Fine(Extended(Match(p, k).value, more))
    ensures Match(p, k) == Fails(Syntactical) ==> Match(Extended(p, more), k) == Fails(Syntactical)
    ensures Unsuitable(more) && Match(p, k) == Fails(NilToken) && k != more[0].keyword ==>
      Match(Extended(p, more), k) == Fails(Syntactical)
  {
    if p.rest != [] { TakeOn(p, more); } else { assert p.rest + more == more; }
  }

  lemma AtEnd(p: State, more: seq<Token>)
    requires p.rest == []
    ensures Extended(p, more).rest == more
  {
  }

  lemma QuotedOn(p: State, more: seq<Token>)
    requires p.rest != []
    ensures GoesOnInside(First(QuotedText(p)), First(QuotedText(Extended(p, more))), more)
    ensures QuotedText(p).Fine? ==>
      QuotedText(Extended(p, more)) == Fine((Extended(QuotedText(p).value.0, more), QuotedText(p).value.1))
  {
    hide Take, Match, Leaves, Moved;
    TakeOn(p, more);
    var p1 := Take(p);
    MatchOn(p1, STRING, more);
    if Match(p1, STRING).Fine? { MatchOn(Match(p1, STRING).value, DOUBLE_QUOTE, more); }
  }

  lemma ReferenceOn(p: State, more: seq<Token>)
    requires p.rest != []
    ensures Reference(p).Fails? ==> Reference(Extended(p, more)) == Reference(p) == Fails(Semantical)
    ensures Reference(p).Fine? ==>
      Reference(Extended(p, more)) == Fine((Extended(Reference(p).value.0, more), Reference(p).value.1))
  {
    TakeOn(p, more);
  }

  lemma PushOn(p: State, r: Rule, more: seq<Token>)
    ensures Push(Extended(p, more), r) == Extended(Push(p, r), more)
    ensures p.rest != [] ==> Extended(p, more).rest[0] == p.rest[0]
  {
  }

  lemma {:induction false} ElemsOn(p: State, more: seq<Token>)
    ensures GoesOnInside(Elems(p), Elems(Extended(p, more)), more)
    decreases |p.rest|, 1
  {
    hide Leaves, Moved, MoreElems, QuotedText, Reference, Push;
    PushOn(p, ELEMS_OF_ARRAY, more);
    var p0 := Push(p, ELEMS_OF_ARRAY);
    if p0.rest != [] {
      if LooksAt(p0, IDENTIFIER) {
        ReferenceOn(p0, more);
        if Reference(p0).Fine? {
          var q := Reference(p0).value;
          MoreElemsOn(q.0.(elems := q.0.elems + [Ref(q.1)]), more);
        }
      } else if LooksAt(p0, DOUBLE_QUOTE) {
        QuotedOn(p0, more);
        if QuotedText(p0).Fine? {
          var q := QuotedText(p0).value;
          MoreElemsOn(q.0.(elems := q.0.elems + [Text(q.1)]), more);
        }
      }
    }
  }

  lemma {:induction false} MoreElemsOn(p: State, more: seq<Token>)
    ensures GoesOnInside(MoreElems(p), MoreElems(Extended(p, more)), more)
    decreases |p.rest|, 0
  {
    hide Leaves, Moved, Elems, Push;
    PushOn(p, ADD_MORE_ELEMENTS_TO_ARRAY, more);
    var p0 := Push(p, ADD_MORE_ELEMENTS_TO_ARRAY);
    PushOn(p0, LAMBDA, more);
    if LooksAt(p0, COMMA) {
      TakeOn(p0, more);
      ElemsOn(Take(p0), more);
    }
  }

  // A production and the token that closes it.
  lemma ThenMatch(r: Result<State>, r': Result<State>, k: Keyword, more: seq<Token>)
    requires GoesOnInside(r, r', more) && k != SELECT && k != ASSIGN
    ensures GoesOnInside(if r.Fine? then Match(r.value, k) else r, if r'.Fine? then Match(r'.value, k) else r', more)
  {
    if r.Fine? && r.value.rest != [] { MatchOn(r.value, k, more); }
  }

  lemma {:induction false} ArrayOn(p: State, more: seq<Token>)
    requires p.rest != []
    ensures GoesOnInside(ArrayValue(p), ArrayValue(Extended(p, more)), more)
    decreases |p.rest|, 0
  {
    hide Leaves, Moved, Elems, Match, GoesOnInside;
    TakeOn(p, more);
    var p1 := Take(p).(elems := []);
    ElemsOn(p1, more);
    ThenMatch(Elems(p1), Elems(Extended(p1, more)), RIGHT_BRACE, more);
  }

  lemma {:induction false} ParamsOn(p: State, more: seq<Token>)
    ensures GoesOnInside(Params(p), Params(Extended(p, more)), more)
    decreases |p.rest|, 3
  {
    hide Leaves, Moved, SecondPart, Push, Match, Take;
    PushOn(p, PARAMS, more);
    var p0 := Push(p, PARAMS);
    PushOn(p0, LAMBDA, more);
    if LooksAt(p0, IDENTIFIER) {
      TakeOn(p0, more);
      var p1 := Take(p0);
      MatchOn(p1, EQUAL_PARAMETERS, more);
      if Match(p1, EQUAL_PARAMETERS).Fine? {
        SecondPartOn(Match(p1, EQUAL_PARAMETERS).value.(current := p0.rest[0].value), more);
      }
    }
  }

  lemma {:induction false} SecondPartOn(p: State, more: seq<Token>)
    ensures GoesOnInside(SecondPart(p), SecondPart(Extended(p, more)), more)
    decreases |p.rest|, 2
  {
    hide Leaves, Moved, MoreParams, QuotedText, Reference, ArrayValue, Push;
    PushOn(p, SECOND_PART_EQUAL, more);
    var p0 := Push(p, SECOND_PART_EQUAL);
    if p0.rest != [] {
      if LooksAt(p0, DOUBLE_QUOTE) {
        QuotedOn(p0, more);
        if QuotedText(p0).Fine? {
          MoreParamsOn(AddParam(QuotedText(p0).value.0, Single(Text(QuotedText(p0).value.1))), more);
        }
      } else if LooksAt(p0, IDENTIFIER) {
        ReferenceOn(p0, more);
        if Reference(p0).Fine? {
          MoreParamsOn(AddParam(Reference(p0).value.0, Single(Ref(Reference(p0).value.1))), more);
        }
      } else if LooksAt(p0, LEFT_BRACE) {
        ArraySecond(p0, more);
      }
    }
  }

  lemma {:induction false} ArraySecond(p: State, more: seq<Token>)
    requires p.rest != []
    ensures GoesOnInside(AfterArray(ArrayValue(p)), AfterArray(ArrayValue(Extended(p, more))), more)
    decreases |p.rest|, 1
  {
    hide Leaves, Moved, MoreParams, ArrayValue;
    ArrayOn(p, more);
    var r := ArrayValue(p);
    if r.Fine? {
      var q := AddParam(r.value, Array(r.value.elems));
      var r' := ArrayValue(Extended(p, more));
      if r.value.rest != [] {
        MoreParamsOn(q, more);
      } else {
        NoMoreParams(q, more);
        if r'.Fine? { NoMoreParams(AddParam(r'.value, Array(r'.value.elems)), more); }
      }
    }
  }

  lemma NoMoreParams(p: State, more: seq<Token>)
    ensures p.rest == [] || (Unsuitable(more) && p.rest == more) ==>
      MoreParams(p).Fine? && MoreParams(p).value.rest == p.rest
  {
  }

  function AfterArray(r: Result<State>): Result<State>
  {
    var p1 :- r;
    MoreParams(AddParam(p1, Array(p1.elems)))
  }

  lemma {:induction false} MoreParamsOn(p: State, more: seq<Token>)
    ensures GoesOnInside(MoreParams(p), MoreParams(Extended(p, more)), more)
    decreases |p.rest|, 0
  {
    hide Leaves, Moved, Params, Push;
    PushOn(p, ADD_MORE_PARAMETERS, more);
    var p0 := Push(p, ADD_MORE_PARAMETERS);
    PushOn(p0, LAMBDA, more);
    if LooksAt(p0, COMMA) {
      TakeOn(p0, more);
      ParamsOn(Take(p0), more);
    }
  }

  lemma ParamListOn(p: State, more: seq<Token>)
    ensures GoesOnInside(ParamList(p), ParamList(Extended(p, more)), more)
  {
    hide Leaves, Moved, Params, Match, GoesOnInside;
    MatchOn(p, LEFT_PARENTHESIS, more);
    if Match(p, LEFT_PARENTHESIS).Fine? {
      var p2 := Match(p, LEFT_PARENTHESIS).value.(params := []);
      ParamsOn(p2, more);
      ThenMatch(Params(p2), Params(Extended(p2, more)), RIGHT_PARENTHESIS, more);
    } else {
      ParamListStops(p, more);
    }
  }

  lemma ParamListStops(p: State, more: seq<Token>)
    requires Match(p, LEFT_PARENTHESIS).Fails?
    ensures GoesOnInside(ParamList(p), ParamList(Extended(p, more)), more)
  {
    hide Leaves, Moved, Params;
    MatchOn(p, LEFT_PARENTHESIS, more);
  }

  lemma ElementOn(p: State, more: seq<Token>)
    ensures GoesOnInside(First(ElementDefinition(p)), First(ElementDefinition(Extended(p, more))), more)
    ensures ElementDefinition(p).Fine? && ElementDefinition(p).value.0.rest != [] ==>
      ElementDefinition(Extended(p, more)) ==
        Fine((Extended(ElementDefinition(p).value.0, more), ElementDefinition(p).value.1))
  {
    hide Leaves, Moved, ParamList, Push;
    PushOn(p, NETWORK_ELEM_DEFINITION, more);
    var p0 := Push(p, NETWORK_ELEM_DEFINITION);
    if p0.rest != [] {
      TakeOn(p0, more);
      ParamListOn(Take(p0), more);
    }
  }

  lemma ConditionOn(p: State, more: seq<Token>)
    ensures GoesOnInside(First(WithCondition(p)), First(WithCondition(Extended(p, more))), more)
    ensures WithCondition(p).Fine? && WithCondition(p).value.0.rest != [] ==>
      WithCondition(Extended(p, more)) == Fine((Extended(WithCondition(p).value.0, more), WithCondition(p).value.1))
  {
    hide Leaves, Moved, Push, Match, Take;
    PushOn(p, INTENT_PRODUCTION_WITH_CONDITION, more);
    var p0 := Push(p, INTENT_PRODUCTION_WITH_CONDITION);
    PushOn(p0, LAMBDA, more);
    if LooksAt(p0, CONDITION) {
      TakeOn(p0, more);
      MatchOn(Take(p0), IDENTIFIER, more);
    }
  }

  lemma ActionOn(p: State, more: seq<Token>)
    ensures GoesOnInside(First(WithAction(p)), First(WithAction(Extended(p, more))), more)
    ensures WithAction(p).Fine? && WithAction(p).value.0.rest != [] ==>
      WithAction(Extended(p, more)) == Fine((Extended(WithAction(p).value.0, more), WithAction(p).value.1))
  {
    hide Leaves, Moved, Push, WithCondition;
    PushOn(p, INTENT_PRODUCTION_WITH_ACTION, more);
    var p0 := Push(p, INTENT_PRODUCTION_WITH_ACTION);
    PushOn(p0, LAMBDA, more);
    if LooksAt(p0, ACTION) {
      TakeOn(p0, more);
      MatchOn(Take(p0), IDENTIFIER, more);
      if Match(Take(p0), IDENTIFIER).Fine? { ConditionOn(Match(Take(p0), IDENTIFIER).value, more); }
    }
  }

  // What more text makes of a declaration; a missing token may be SELECT or ASSIGN here.
  ghost predicate DeclarationGoesOn(p: State, r: Result<State>, r': Result<State>, more: seq<Token>)
    requires p.rest != []
  {
    && (r == Fails(Syntactical) ==> r' == Fails(Syntactical))
    && (r.Fine? && r.value.rest != [] ==> r' == Fine(Extended(r.value, more)))
    && (|more| == 1 && more[0].keyword == (if p.rest[0].keyword == INTENT then ASSIGN else SELECT) ==>
          r == Fails(NilToken) ==> r' == Fails(Syntactical))
  }

  lemma DefinitionOn(p: State, more: seq<Token>)
    requires p.rest != [] && p.rest[0].keyword == IDENTIFIER
    ensures DeclarationGoesOn(p, DefinitionOf(p), DefinitionOf(Extended(p, more)), more)
  {
    hide Leaves, ElementDefinition, Match, Take;
    TakeOn(p, more);
    var name := p.rest[0].value;
    MatchOn(Take(p), ASSIGN, more);
    if Match(Take(p), ASSIGN).Fine? {
      var p1 := Match(Take(p), ASSIGN).value;
      ElementOn(p1.(ids := p1.ids + [Identifier(name, Unset)]), more);
    }
  }

  lemma NilAtEnd(p: State)
    ensures WithAction(p).Fine? && WithAction(p).value.1.None? ==> WithAction(p).value.0.rest == []
  {
  }

  lemma LookupErrors()
    ensures forall ids, name :: Lookup(ids, name).Fails? ==> Lookup(ids, name) == Fails(Semantical)
  {
  }

  lemma IntentOn(p: State, more: seq<Token>)
    requires p.rest != [] && p.rest[0].keyword == INTENT
    ensures DeclarationGoesOn(p, IntentOf(p), IntentOf(Extended(p, more)), more)
  {
    hide Leaves, Moved, WithAction, Take, Lookup;
    TakeOn(p, more);
    var p1 := Take(p);
    MatchOn(p1, IDENTIFIER, more);
    if Match(p1, IDENTIFIER).Fine? {
      var p2 := Match(p1, IDENTIFIER).value;
      MatchOn(p2, SELECT, more);
      if Match(p2, SELECT).Fine? {
        var p3 := Match(p2, SELECT).value;
        MatchOn(p3, IDENTIFIER, more);
        if Match(p3, IDENTIFIER).Fine? {
          var p4 := Match(p3, IDENTIFIER).value;
          ActionOn(p4, more);
          NilAtEnd(p4);
          LookupErrors();
        }
      }
    }
  }

  lemma InitialOn(p: State, more: seq<Token>)
    requires p.rest != []
    ensures DeclarationGoesOn(p, InitialSymbol(p), InitialSymbol(Extended(p, more)), more)
  {
    hide Leaves, DefinitionOf, IntentOf, Push;
    PushOn(p, INITIAL_SYMBOL, more);
    var p0 := Push(p, INITIAL_SYMBOL);
    if LooksAt(p0, IDENTIFIER) { DefinitionOn(p0, more); } else if LooksAt(p0, INTENT) { IntentOn(p0, more); }
  }

  /** A syntax error is one however the text goes on; a missing token is no syntax error yet, but becomes
      one for some next token. */
  lemma {:induction false} ProgramOn(p: State)
    ensures Program(p) == Fails(Syntactical) ==>
      forall more: seq<Token> :: Program(Extended(p, more)) == Fails(Syntactical)
    ensures Program(p) == Fails(NilToken) ==>
      Program(Extended(p, [Token(SELECT, "")])) == Fails(Syntactical) ||
      Program(Extended(p, [Token(ASSIGN, "")])) == Fails(Syntactical)
    decreases |p.rest|
  {
    hide Leaves, InitialSymbol;
    if p.rest != [] {
      forall more: seq<Token> ensures DeclarationGoesOn(p, InitialSymbol(p), InitialSymbol(Extended(p, more)), more) {
        InitialOn(p, more);
      }
      var r := InitialSymbol(p);
      if r.Fine? { ProgramOn(r.value); }
    }
  }

  lemma LineEndsHead(s: seq<Token>)
    requires s != []
    ensures WithoutLineEnds(s) == (if s[0].keyword == END_OF_LINE then [] else [s[0]]) + WithoutLineEnds(s[1..])
  {
  }

  lemma {:induction false} LineEndsSplit(s: seq<Token>, more: seq<Token>)
    ensures WithoutLineEnds(s + more) == WithoutLineEnds(s) + WithoutLineEnds(more)
    decreases s
  {
    if s == [] {
      assert s + more == more;
    } else {
      hide *;
      LineEndsSplit(s[1..], more);
      LineEndsHead(s);
      LineEndsHead(s + more);
      assert (s + more)[1..] == s[1..] + more;
      Regroup(if s[0].keyword == END_OF_LINE then [] else [s[0]], WithoutLineEnds(s[1..]), WithoutLineEnds(more));
    }
  }

  lemma Regroup(a: seq<Token>, b: seq<Token>, c: seq<Token>)
    ensures a + (b + c) == (a + b) + c
  {
  }

  // A declaration begins with a name or with `intent`.
  lemma BadStart(tokens: seq<Token>)
    requires tokens != [] && tokens[0].keyword != IDENTIFIER && tokens[0].keyword != INTENT
    ensures Parse(tokens) == Fails(Syntactical)
  {
    hide Leaves;
    if tokens[0].keyword != END_OF_LINE {
      assert WithoutLineEnds(tokens)[0] == tokens[0];
    }
  }

  // A text that begins well goes on as the grammar does.
  lemma ParseOn(tokens: seq<Token>, more: seq<Token>)
    requires tokens != [] && tokens[0].keyword != END_OF_LINE
    ensures Parse(tokens) == Program(Begin(WithoutLineEnds(tokens)))
    ensures Parse(tokens + more) == Program(Extended(Begin(WithoutLineEnds(tokens)), WithoutLineEnds(more)))
  {
    hide Leaves, Program;
    LineEndsSplit(tokens, more);
  }

  lemma OneLeft(t: Token)
    requires t.keyword != END_OF_LINE
    ensures WithoutLineEnds([t]) == [t]
  {
  }

  /** The same of whole texts, line ends included. */
  lemma ErrorsGoOn(tokens: seq<Token>)
    ensures Parse(tokens) == Fails(Syntactical) ==>
      forall more: seq<Token> :: Parse(tokens + more) == Fails(Syntactical)
    ensures Parse(tokens) == Fails(NilToken) ==>
      Parse(tokens + [Token(SELECT, "")]) == Fails(Syntactical) ||
      Parse(tokens + [Token(ASSIGN, "")]) == Fails(Syntactical)
  {
    hide Leaves, Program;
    var p := Begin(WithoutLineEnds(tokens));
    if tokens != [] && tokens[0].keyword != END_OF_LINE {
      ProgramOn(p);
      ParseOn(tokens, [Token(SELECT, "")]);
      ParseOn(tokens, [Token(ASSIGN, "")]);
      OneLeft(Token(SELECT, ""));
      OneLeft(Token(ASSIGN, ""));
      forall more: seq<Token> | Parse(tokens) == Fails(Syntactical)
        ensures Parse(tokens + more) == Fails(Syntactical)
      {
        ParseOn(tokens, more);
      }
    } else if tokens == [] {
      assert Program(p).Fine? by { EmptyIsFine(p); }
    }
  }

  lemma EmptyIsFine(p: State)
    requires p.rest == []
    ensures Program(p).Fine?
  {
  }

  /** Elements are of six kinds; any other token in their place is a syntax error. */
  lemma SixKinds(p: State)
    requires p.rest != []
    ensures var kinds := {HOST, LINK, DEVICE, ACTION, FLOW, CONDITION};
      if p.rest[0].keyword in kinds
      then ElementDefinition(p).Fine? <==> ParamList(Take(Push(p, NETWORK_ELEM_DEFINITION))).Fine?
      else ElementDefinition(p) == Fails(Syntactical)
  {
    hide ParamList, Leaves;
  }
}
