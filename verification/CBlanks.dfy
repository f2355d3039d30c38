/** Blank tokens in an expression.  ast_parsev skips them in its loop, but the token behind the opening
    parenthesis of a call is looked at before the loop: `f( )` is not read like `f()`. */
module CBlanks {
  import opened Options
  import opened CAst
  import opened CAstReading
  import opened CGrammar

  function Dense(toks: seq<Tok>): seq<Tok> {
    if toks == [] then [] else (if toks[0] == Space then [] else [toks[0]]) + Dense(toks[1..])
  }

  /** The first token from pos on that is not a blank. */
  function NextTok(toks: seq<Tok>, pos: nat): Option<Tok>
    requires pos <= |toks|
    decreases |toks| - pos
  {
    if pos == |toks| then None else if toks[pos] == Space then NextTok(toks, pos + 1) else Some(toks[pos])
  }

  /** Nothing but blanks, and at least one, between an opening and a closing parenthesis. */
  predicate Gap(toks: seq<Tok>, i: nat)
    requires i < |toks|
  {
    toks[i] == LParen && i + 1 < |toks| && toks[i + 1] == Space && NextTok(toks, i + 1) == Some(RParen)
  }

  predicate NoGap(toks: seq<Tok>, from: nat, to: nat)
    requires to <= |toks|
  {
    forall i :: from <= i < to ==> !Gap(toks, i)
  }

  /** Position q of the dense tokens d is position p of toks. */
  predicate Same(toks: seq<Tok>, p: nat, d: seq<Tok>, q: nat) {
    p <= |toks| && q <= |d| && d[q..] == Dense(toks[p..])
  }

  lemma SameStep(toks: seq<Tok>, p: nat, d: seq<Tok>, q: nat)
    requires Same(toks, p, d, q) && p < |toks|
    ensures if toks[p] == Space then Same(toks, p + 1, d, q)
            else q < |d| && d[q] == toks[p] && Same(toks, p + 1, d, q + 1)
  {
    assert toks[p..][1..] == toks[p + 1..];
    if toks[p] != Space {
      assert d[q] == d[q..][0] && d[q + 1..] == d[q..][1..];
      assert ([toks[p]] + Dense(toks[p + 1..]))[1..] == Dense(toks[p + 1..]);
    }
  }

  lemma SameEnd(toks: seq<Tok>, d: seq<Tok>, q: nat)
    requires Same(toks, |toks|, d, q)
    ensures q == |d|
  {
  }

  lemma {:induction false} SameNext(toks: seq<Tok>, p: nat, d: seq<Tok>, q: nat)
    requires Same(toks, p, d, q)
    ensures NextTok(toks, p) == if q < |d| then Some(d[q]) else None
    decreases |toks| - p
  {
    if p == |toks| {
      SameEnd(toks, d, q);
    } else {
      SameStep(toks, p, d, q);
      if toks[p] == Space {
        SameNext(toks, p + 1, d, q);
      }
    }
  }

  /** An expression has been read that can be finished. */
  predicate Whole(r: Option<(State, bool, nat)>) {
    r.Some? && r.value.1
  }

  lemma LoopStops(toks: seq<Tok>, pos: nat, ends: seq<Tok>, st: State, want: bool)
    requires pos <= |toks| && Shape(st, want) && Loop(toks, pos, ends, st, want).Some?
    ensures var p := Loop(toks, pos, ends, st, want).value.2; p == |toks| || toks[p] in ends
    decreases |toks| - pos
  {
    hide Step;
    if pos < |toks| && toks[pos] !in ends {
      var s := Step(toks, pos, st, want).value;
      LoopStops(toks, s.2, ends, s.0, s.1);
    }
  }

  /** Where an operand should stand and none does. */
  lemma {:induction false} NoOperand(toks: seq<Tok>, pos: nat, ends: seq<Tok>, st: State)
    requires pos <= |toks| && Shape(st, false) && Space !in ends
    requires NextTok(toks, pos).None? || NextTok(toks, pos).value in ends
    ensures !Whole(Loop(toks, pos, ends, st, false))
    decreases |toks| - pos
  {
    if pos < |toks| && toks[pos] == Space {
      NoOperand(toks, pos + 1, ends, st);
    }
  }

  lemma NothingEnclosed(toks: seq<Tok>, pos: nat, close: Tok)
    requires pos <= |toks| && close != Space && (NextTok(toks, pos).None? || NextTok(toks, pos).value == close)
    ensures Enclosed(toks, pos, close).None?
  {
    hide Loop;
    NoOperand(toks, pos, [close], EMPTY);
  }

  /** What a turn encloses, and where it ends; a turn that encloses nothing ends behind its token. */
  function Part(toks: seq<Tok>, pos: nat, want: bool): Option<(Ast, nat)>
    requires pos < |toks|
  {
    match toks[pos]
    case LParen => if want then Arguments(toks, pos + 1) else Enclosed(toks, pos + 1, RParen)
    case LBracket => if want then Enclosed(toks, pos + 1, RBracket) else Some((Placeholder, pos + 1))
    case Question => if want then Enclosed(toks, pos + 1, Colon) else Some((Placeholder, pos + 1))
    case _ => Some((Placeholder, pos + 1))
  }

  /** What a turn makes of its token and of what it encloses. */
  function Turn(st: State, want: bool, tok: Tok, part: Option<(Ast, nat)>): Option<(State, bool, nat)>
    requires Shape(st, want)
  {
    if part.None? then None
    else
      var (ast, pos) := part.value;
      if want then
        if tok == PlusPlus || tok == MinusMinus then
          match Rewind(Push(st, Post(tok), None))
          case None => None
          case Some(st') => Some((PushOperand(st', Placeholder), true, pos))
        else if IsOperator(tok) then Infix(st, tok, if tok == Question then Some(ast) else None, pos)
        else if tok == LParen || tok == LBracket then Suffix(st, tok, ast, pos)
        else None
      else if IsOperator(tok) then
        if !IsPrefix(tok) then None
        else
          match Rewind(PushOperand(Push(st, Pre(tok), None), Placeholder))
          case None => None
          case Some(st') => Some((st', false, pos))
      else Some((PushOperand(st, if tok == LParen then ast else Leaf(tok)), true, pos))
  }

  lemma OperatorTurn(toks: seq<Tok>, pos: nat, st: State)
    requires pos < |toks| && Shape(st, true)
    ensures StepOperator(toks, pos, st) == Turn(st, true, toks[pos], Part(toks, pos, true))
  {
    hide Rewind, Enclosed, Arguments, Infix, Suffix, IsOperator;
    WhichOperators();
  }

  lemma WhichOperators()
    ensures IsOperator(Question) && !IsOperator(LParen) && !IsOperator(LBracket) && IsOperator(Sizeof)
  {
  }

  lemma OperandTurn(toks: seq<Tok>, pos: nat, st: State)
    requires pos < |toks| && Shape(st, false) && !(toks[pos] == Sizeof && pos + 1 == |toks|)
    ensures StepOperand(toks, pos, st) == Turn(st, false, toks[pos], Part(toks, pos, false))
  {
    hide Rewind, Enclosed, IsOperator, IsPrefix;
    WhichOperators();
  }

  lemma StepTurn(toks: seq<Tok>, pos: nat, st: State, want: bool)
    requires pos < |toks| && toks[pos] != Space && Shape(st, want) && !(!want && toks[pos] == Sizeof && pos + 1 == |toks|)
    ensures Step(toks, pos, st, want) == Turn(st, want, toks[pos], Part(toks, pos, want))
  {
    hide StepOperator, StepOperand, Turn, Part;
    if want {
      OperatorTurn(toks, pos, st);
    } else {
      OperandTurn(toks, pos, st);
    }
  }

  lemma TurnEnds(st: State, want: bool, tok: Tok, part: Option<(Ast, nat)>)
    requires Shape(st, want) && Turn(st, want, tok, part).Some?
    ensures part.Some? && Turn(st, want, tok, part).value.2 == part.value.1
  {
    hide Rewind, IsOperator;
  }

  /** Where a turn ends does not matter to what it makes. */
  lemma TurnMoved(st: State, want: bool, tok: Tok, ast: Ast, p: nat, q: nat)
    requires Shape(st, want)
    ensures var r, s := Turn(st, want, tok, Some((ast, p))), Turn(st, want, tok, Some((ast, q)));
            (r.Some? <==> s.Some?) && (r.Some? ==> r.value == (s.value.0, s.value.1, p) && s.value.2 == q)
  {
    hide Rewind, IsOperator;
  }

  lemma SizeofTurn(toks: seq<Tok>, pos: nat, st: State)
    requires pos < |toks| && toks[pos] == Sizeof && Shape(st, false)
    ensures var r := Step(toks, pos, st, false);
            if pos + 1 == |toks| then r.None? else r.Some? ==> !r.value.1 && r.value.2 == pos + 1
  {
    hide Rewind;
    assert Step(toks, pos, st, false) == StepOperand(toks, pos, st);
  }

  // ----- with and without the blanks, the parser does the same -----

  ghost predicate SameRead(toks: seq<Tok>, d: seq<Tok>, r: Option<(State, bool, nat)>, s: Option<(State, bool, nat)>) {
    && (Whole(r) <==> Whole(s))
    && (Whole(r) ==> r.value.0 == s.value.0 && Same(toks, r.value.2, d, s.value.2))
  }

  ghost predicate SameAst(toks: seq<Tok>, d: seq<Tok>, r: Option<(Ast, nat)>, s: Option<(Ast, nat)>) {
    && (r.Some? <==> s.Some?)
    && (r.Some? ==> r.value.0 == s.value.0 && Same(toks, r.value.1, d, s.value.1))
  }

  ghost predicate SameTurn(toks: seq<Tok>, d: seq<Tok>, r: Option<(State, bool, nat)>, s: Option<(State, bool, nat)>) {
    && (r.Some? <==> s.Some?)
    && (r.Some? ==> r.value.0 == s.value.0 && r.value.1 == s.value.1 && Same(toks, r.value.2, d, s.value.2))
  }

  /** `sizeof` as the last token but for blanks: refused at once or at the end. */
  predicate LastSizeof(toks: seq<Tok>, p: nat, want: bool)
    requires p < |toks|
  {
    !want && toks[p] == Sizeof && NextTok(toks, p + 1).None?
  }

  lemma {:induction false} LoopBlanks(toks: seq<Tok>, p: nat, d: seq<Tok>, q: nat, ends: seq<Tok>, st: State, want: bool)
    requires p <= |toks| && q <= |d| && Same(toks, p, d, q) && Shape(st, want) && Space !in ends && NoGap(toks, p, |toks|)
    ensures SameRead(toks, d, Loop(toks, p, ends, st, want), Loop(d, q, ends, st, want))
    decreases |toks| - p, 3
  {
    hide Step, Same, Gap;
    if p == |toks| {
      SameEnd(toks, d, q);
    } else {
      SameStep(toks, p, d, q);
      if toks[p] == Space {
        BlankTurn(toks, p, st, want);
        LoopBlanks(toks, p + 1, d, q, ends, st, want);
      } else if toks[p] !in ends {
        if LastSizeof(toks, p, want) {
          SizeofFails(toks, p, d, q, ends, st);
        } else {
          StepBlanks(toks, p, d, q, st, want);
          var r := Step(toks, p, st, want);
          if r.Some? {
            LoopBlanks(toks, r.value.2, d, Step(d, q, st, want).value.2, ends, r.value.0, r.value.1);
          }
        }
      }
    }
  }

  lemma BlankTurn(toks: seq<Tok>, p: nat, st: State, want: bool)
    requires p < |toks| && toks[p] == Space && Shape(st, want)
    ensures Step(toks, p, st, want) == Some((st, want, p + 1))
  {
  }

  lemma SizeofFails(toks: seq<Tok>, p: nat, d: seq<Tok>, q: nat, ends: seq<Tok>, st: State)
    requires Same(toks, p, d, q) && p < |toks| && q <= |d| && Shape(st, false) && Space !in ends && Sizeof !in ends && LastSizeof(toks, p, false)
    ensures !Whole(Loop(toks, p, ends, st, false)) && !Whole(Loop(d, q, ends, st, false))
  {
    hide Step, Same;
    SameStep(toks, p, d, q);
    SameNext(toks, p + 1, d, q + 1);
    SizeofTurn(toks, p, st);
    SizeofTurn(d, q, st);
    var r := Step(toks, p, st, false);
    if r.Some? {
      NoOperand(toks, p + 1, ends, r.value.0);
    }
  }

  lemma {:induction false} StepBlanks(toks: seq<Tok>, p: nat, d: seq<Tok>, q: nat, st: State, want: bool)
    requires Same(toks, p, d, q) && p < |toks| && toks[p] != Space && q < |d| && Shape(st, want) && NoGap(toks, p, |toks|)
    requires !LastSizeof(toks, p, want)
    ensures SameTurn(toks, d, Step(toks, p, st, want), Step(d, q, st, want))
    decreases |toks| - p, 2
  {
    hide Same, Step, Turn, Part, NextTok, Gap;
    SameStep(toks, p, d, q);
    if !want && toks[p] == Sizeof {
      SomethingFollows(toks, p, d, q);
    }
    StepTurn(toks, p, st, want);
    StepTurn(d, q, st, want);
    PartBlanks(toks, p, d, q, want);
    var r, s := Part(toks, p, want), Part(d, q, want);
    if r.Some? {
      TurnMoved(st, want, toks[p], r.value.0, r.value.1, s.value.1);
    } else {
      NoPart(st, want, toks[p]);
    }
  }

  lemma NoPart(st: State, want: bool, tok: Tok)
    requires Shape(st, want)
    ensures Turn(st, want, tok, None).None?
  {
  }

  lemma {:induction false} PartBlanks(toks: seq<Tok>, p: nat, d: seq<Tok>, q: nat, want: bool)
    requires p < |toks| && q < |d| && d[q] == toks[p] && Same(toks, p + 1, d, q + 1) && NoGap(toks, p, |toks|)
    ensures SameAst(toks, d, Part(toks, p, want), Part(d, q, want))
    decreases |toks| - p, 1
  {
    hide Same, Enclosed, Arguments, Gap;
    if toks[p] == LParen && want {
      ArgumentsBlanks(toks, p, d, q);
    } else if toks[p] == LParen {
      EnclosedBlanks(toks, p + 1, d, q + 1, RParen);
    } else if toks[p] == LBracket && want {
      EnclosedBlanks(toks, p + 1, d, q + 1, RBracket);
    } else if toks[p] == Question && want {
      EnclosedBlanks(toks, p + 1, d, q + 1, Colon);
    }
  }

  lemma SomethingFollows(toks: seq<Tok>, p: nat, d: seq<Tok>, q: nat)
    requires Same(toks, p + 1, d, q + 1) && p < |toks| && q < |d| && NextTok(toks, p + 1).Some?
    ensures p + 1 < |toks| && q + 1 < |d|
  {
    SameNext(toks, p + 1, d, q + 1);
  }

  lemma {:induction false} ArgumentsBlanks(toks: seq<Tok>, p: nat, d: seq<Tok>, q: nat)
    requires p < |toks| && q < |d| && Same(toks, p + 1, d, q + 1) && toks[p] == LParen && !Gap(toks, p) && NoGap(toks, p + 1, |toks|)
    ensures SameAst(toks, d, Arguments(toks, p + 1), Arguments(d, q + 1))
    decreases |toks| - p, 0
  {
    hide Same, Enclosed;
    SameNext(toks, p + 1, d, q + 1);
    if p + 1 < |toks| {
      SameStep(toks, p + 1, d, q + 1);
      EnclosedBlanks(toks, p + 1, d, q + 1, RParen);
      if toks[p + 1] == Space && q + 1 == |d| {
        NothingEnclosed(toks, p + 1, RParen);
      }
    }
  }

  lemma {:induction false} EnclosedBlanks(toks: seq<Tok>, p: nat, d: seq<Tok>, q: nat, close: Tok)
    requires p <= |toks| && q <= |d| && Same(toks, p, d, q) && close != Space && NoGap(toks, p, |toks|)
    ensures SameAst(toks, d, Enclosed(toks, p, close), Enclosed(d, q, close))
    decreases |toks| - p, 4
  {
    hide Same, Loop, Finish, Gap;
    LoopBlanks(toks, p, d, q, [close], EMPTY, false);
    var r := Loop(toks, p, [close], EMPTY, false);
    if Whole(r) {
      LoopStops(toks, p, [close], EMPTY, false);
      LoopStops(d, q, [close], EMPTY, false);
      var e := r.value.2;
      if e < |toks| {
        SameStep(toks, e, d, Loop(d, q, [close], EMPTY, false).value.2);
      } else {
        SameEnd(toks, d, Loop(d, q, [close], EMPTY, false).value.2);
      }
    }
    NotWhole(toks, p, [close]);
    NotWhole(d, q, [close]);
  }

  lemma NotWhole(toks: seq<Tok>, pos: nat, ends: seq<Tok>)
    requires pos <= |toks|
    ensures var r := Loop(toks, pos, ends, EMPTY, false);
            Parse(toks, pos, ends).Some? <==> Whole(r) && Finish(r.value.0, true).Some?
    ensures var r := Loop(toks, pos, ends, EMPTY, false);
            Parse(toks, pos, ends).Some? ==> Parse(toks, pos, ends) == Some((Finish(r.value.0, true).value, r.value.2))
  {
    hide Loop;
  }

  // ----- a gap is refused -----

  /** What has been read to its end has no gap. */
  lemma {:induction false} LoopGaps(toks: seq<Tok>, pos: nat, ends: seq<Tok>, st: State, want: bool)
    requires pos <= |toks| && Shape(st, want) && Whole(Loop(toks, pos, ends, st, want))
    ensures NoGap(toks, pos, Loop(toks, pos, ends, st, want).value.2)
    decreases |toks| - pos, 3
  {
    hide Step, Gap;
    if pos < |toks| && toks[pos] !in ends {
      StepGaps(toks, pos, st, want);
      var s := Step(toks, pos, st, want).value;
      LoopGaps(toks, s.2, ends, s.0, s.1);
    }
  }

  lemma {:induction false} StepGaps(toks: seq<Tok>, pos: nat, st: State, want: bool)
    requires pos < |toks| && Shape(st, want) && Step(toks, pos, st, want).Some?
    ensures NoGap(toks, pos, Step(toks, pos, st, want).value.2)
    decreases |toks| - pos, 2
  {
    hide Step, Part, Gap, Turn;
    if toks[pos] == Space {
      BlankTurn(toks, pos, st, want);
      NotParen(toks, pos);
    } else {
      if !want && toks[pos] == Sizeof {
        SizeofTurn(toks, pos, st);
      }
      StepTurn(toks, pos, st, want);
      TurnEnds(st, want, toks[pos], Part(toks, pos, want));
      PartGaps(toks, pos, want);
    }
  }

  lemma {:induction false} PartGaps(toks: seq<Tok>, pos: nat, want: bool)
    requires pos < |toks| && Part(toks, pos, want).Some?
    ensures NoGap(toks, pos, Part(toks, pos, want).value.1)
    decreases |toks| - pos, 1
  {
    hide Enclosed, Gap;
    if toks[pos] == LParen {
      ParenGap(toks, pos);
      if want && toks[pos + 1] == RParen {
        NotParen(toks, pos + 1);
      } else {
        EnclosedGaps(toks, pos + 1, RParen);
      }
    } else {
      NotParen(toks, pos);
      if want && toks[pos] == LBracket {
        EnclosedGaps(toks, pos + 1, RBracket);
      } else if want && toks[pos] == Question {
        EnclosedGaps(toks, pos + 1, Colon);
      }
    }
  }

  lemma NotParen(toks: seq<Tok>, i: nat)
    requires i < |toks| && toks[i] != LParen
    ensures !Gap(toks, i)
  {
  }

  /** Behind a parenthesis with a gap nothing can be enclosed, and there is no closing one at once. */
  lemma ParenGap(toks: seq<Tok>, pos: nat)
    requires pos < |toks| && toks[pos] == LParen
    ensures Gap(toks, pos) ==> Enclosed(toks, pos + 1, RParen).None? && pos + 1 < |toks| && toks[pos + 1] != RParen
  {
    hide Enclosed;
    if Gap(toks, pos) {
      NothingEnclosed(toks, pos + 1, RParen);
    }
  }

  lemma {:induction false} EnclosedGaps(toks: seq<Tok>, pos: nat, close: Tok)
    requires pos <= |toks| && close != LParen && Enclosed(toks, pos, close).Some?
    ensures NoGap(toks, pos, Enclosed(toks, pos, close).value.1)
    decreases |toks| - pos, 4
  {
    hide Loop, Finish, Gap;
    NotWhole(toks, pos, [close]);
    LoopGaps(toks, pos, [close], EMPTY, false);
    NotParen(toks, Loop(toks, pos, [close], EMPTY, false).value.2);
  }

  // ----- the two together -----

  lemma SameAll(toks: seq<Tok>)
    ensures Same(toks, 0, Dense(toks), 0)
  {
    assert toks[0..] == toks && Dense(toks)[0..] == Dense(toks);
  }

  /** Blanks between the tokens of an expression change nothing, but for those that stand alone between two
      parentheses, which make the parser refuse it: a sequence of tokens is accepted if and only if it has
      no such gap and is accepted without its blanks, and then it gives the same tree. */
  lemma BlanksIff(toks: seq<Tok>)
    ensures Parse(toks, 0, []).Some? <==> Parse(Dense(toks), 0, []).Some? && NoGap(toks, 0, |toks|)
    ensures Parse(toks, 0, []).Some? ==> Parse(toks, 0, []) == Some((Parse(Dense(toks), 0, []).value.0, |toks|))
  {
    hide Loop, Finish, Gap, Same, Parse;
    var d := Dense(toks);
    NotWhole(toks, 0, []);
    NotWhole(d, 0, []);
    SameAll(toks);
    var r := Loop(toks, 0, [], EMPTY, false);
    if Whole(r) {
      LoopStops(toks, 0, [], EMPTY, false);
      LoopGaps(toks, 0, [], EMPTY, false);
    }
    if NoGap(toks, 0, |toks|) {
      LoopBlanks(toks, 0, d, 0, [], EMPTY, false);
    }
  }

  /** So every sentence of the grammar is read, with any blanks between its tokens, if and only if the
      blanks leave no gap. */
  lemma ParsesWithBlanks(e: Cst, toks: seq<Tok>)
    requires Derives(ExpressionX, e) && Dense(toks) == Tokens(e)
    ensures Parse(toks, 0, []) == if NoGap(toks, 0, |toks|) then Some((TreeOf(e), |toks|)) else None
  {
    hide Parse, Derives, NoGap;
    BlanksIff(toks);
    var d := Tokens(e);
    assert d[0..0 + |d|] == d;
    ParsesTheGrammar(e, d, 0, []);
  }
}
