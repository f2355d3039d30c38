/** ast_parsev and ast_rewind_stack as they are written: vectors that are pushed and popped, and a
    token source with one step of give-back (asmg/c_preproc.g:54-98). */
module CAstParser {
  import opened Options
  import opened CAst

  class TokenSource {
    const toks: seq<Tok>
    var pos: nat

    constructor (toks: seq<Tok>)
      ensures this.toks == toks && pos == 0
    {
      this.toks := toks;
      pos := 0;
    }

    /** None stands for the null pointer at the end of the input, where the index does not move. */
    method GetToken() returns (tok: Option<Tok>)
      requires pos <= |toks|
      modifies this
      ensures pos <= |toks|
      ensures if old(pos) < |toks| then tok == Some(toks[old(pos)]) && pos == old(pos) + 1 else tok == None && pos == old(pos)
    {
      if pos < |toks| {
        tok := Some(toks[pos]);
        pos := pos + 1;
      } else {
        tok := None;
      }
    }

    method GiveBackToken()
      requires pos > 0
      modifies this
      ensures pos == old(pos) - 1
    {
      pos := pos - 1;
    }
  }

  class Stacks {
    var ops: seq<Op>
    var operands: seq<Ast>
    var centers: seq<Option<Ast>>

    constructor ()
      ensures Value() == EMPTY
    {
      ops, operands, centers := [], [], [];
    }

    function Value(): State
      reads this
    {
      State(ops, operands, centers)
    }

    method PushOp(op: Op, center: Option<Ast>)
      modifies this
      ensures Value() == Push(old(Value()), op, center)
    {
      ops := ops + [op];
      centers := centers + [center];
    }

    method PushAst(ast: Ast)
      modifies this
      ensures Value() == PushOperand(old(Value()), ast)
    {
      operands := operands + [ast];
    }

    /** ast_rewind_stack; false when an assertion of it, or of the table lookups, fails. */
    method RewindStack() returns (ok: bool)
      requires Balanced(Value())
      modifies this
      ensures ok <==> Rewind(old(Value())).Some?
      ensures ok ==> Value() == Rewind(old(Value())).value
    {
      var cont := true;
      while |ops| >= 2 && cont
        invariant Balanced(Value())
        invariant Rewind(Value()) == Rewind(old(Value()))
        invariant !cont ==> Rewind(Value()) == Some(Value())
        decreases |ops|, cont
      {
        var lastPri := Priority(ops[|ops| - 1]);
        var nlastPri := Priority(ops[|ops| - 2]);
        if lastPri == 0 || nlastPri == 0 { return false; }
        var dir := LeftToRight(ops[|ops| - 1]);
        if lastPri > nlastPri || (lastPri == nlastPri && dir) {
          var n := |ops|;
          var tmp, tmp2 := ops[n - 1], centers[n - 1];
          var right, left := operands[n - 1], operands[n - 2];
          var name, center := ops[n - 2], centers[n - 2];
          ops, centers, operands := ops[..n - 2], centers[..n - 2], operands[..n - 2];
          if name == Plain(Question) && center.None? { return false; }
          operands := operands + [Node(name, left, center, right)];
          ops, centers := ops + [tmp], centers + [tmp2];
        } else {
          cont := false;
        }
      }
      return true;
    }
  }

  /** ast_parse1 and the closing token after it. */
  method ParseEnclosed(src: TokenSource, close: Tok) returns (r: Option<Ast>)
    requires src.pos <= |src.toks|
    modifies src
    ensures src.pos <= |src.toks|
    ensures match Enclosed(src.toks, old(src.pos), close)
            case None => r == None
            case Some((ast, p)) => r == Some(ast) && src.pos == p
    decreases |src.toks| - src.pos, 4
  {
    r := ParseV(src, [close]);
    if r.None? { return; }
    var tok := src.GetToken();
    if tok != Some(close) { r := None; }
  }

  method ParseArguments(src: TokenSource) returns (r: Option<Ast>)
    requires src.pos <= |src.toks|
    modifies src
    ensures src.pos <= |src.toks|
    ensures match Arguments(src.toks, old(src.pos))
            case None => r == None
            case Some((ast, p)) => r == Some(ast) && src.pos == p
    decreases |src.toks| - src.pos, 5
  {
    hide Enclosed;
    var tok := src.GetToken();
    if tok.None? { return None; }
    if tok == Some(RParen) { return Some(Placeholder); }
    src.GiveBackToken();
    r := ParseEnclosed(src, RParen);
  }

  /** A token where an operator is expected; it has just been taken from the source. */
  method ParseOperator(src: TokenSource, s: Stacks, tok: Tok) returns (ok: bool, want: bool)
    requires 0 < src.pos <= |src.toks| && src.toks[src.pos - 1] == tok && tok != Space && Shape(s.Value(), true)
    modifies src, s
    ensures src.pos <= |src.toks|
    ensures match StepOperator(src.toks, old(src.pos) - 1, old(s.Value()))
            case None => !ok
            case Some((st, w, p)) => ok && s.Value() == st && want == w && src.pos == p
    decreases |src.toks| - src.pos, 6
  {
    hide Rewind, Parse, Loop, Priority, Enclosed, Arguments;
    ok, want := false, true;
    if IsOperator(tok) {
      var center: Option<Ast> := None;
      var op := Plain(tok);
      var isPostfix := false;
      if tok == PlusPlus || tok == MinusMinus {
        op, isPostfix := Post(tok), true;
      }
      if tok == Question {
        center := ParseEnclosed(src, Colon);
        if center.None? { return; }
      }
      s.PushOp(op, center);
      ok := s.RewindStack();
      if !ok { return; }
      if isPostfix {
        s.PushAst(Placeholder);
      } else {
        want := false;
        ok := s.RewindStack();
      }
    } else if tok == LParen {
      var args := ParseArguments(src);
      if args.None? { return; }
      s.PushOp(Plain(tok), None);
      ok := s.RewindStack();
      if !ok { return; }
      s.PushAst(args.value);
    } else if tok == LBracket {
      var index := ParseEnclosed(src, RBracket);
      if index.None? { return; }
      s.PushOp(Plain(tok), None);
      ok := s.RewindStack();
      if !ok { return; }
      s.PushAst(index.value);
    }
  }

  /** A token where an operand is expected. */
  method ParseOperand(src: TokenSource, s: Stacks, tok: Tok) returns (ok: bool, want: bool)
    requires 0 < src.pos <= |src.toks| && src.toks[src.pos - 1] == tok && tok != Space && Balanced(s.Value())
    modifies src, s
    ensures src.pos <= |src.toks|
    ensures match StepOperand(src.toks, old(src.pos) - 1, old(s.Value()))
            case None => !ok
            case Some((st, w, p)) => ok && s.Value() == st && want == w && src.pos == p
    decreases |src.toks| - src.pos, 5
  {
    hide Rewind, Parse, Loop, Priority;
    ok, want := false, false;
    if tok == Sizeof {
      // the type parser finds no type, and the token is given back
      var tok2 := src.GetToken();
      if tok2.None? { return; }
      src.GiveBackToken();
    }
    if IsOperator(tok) {
      if !IsPrefix(tok) { return; }
      s.PushOp(Pre(tok), None);
      s.PushAst(Placeholder);
      ok := s.RewindStack();
    } else if tok == LParen {
      var ast := ParseEnclosed(src, RParen);
      if ast.None? { return; }
      s.PushAst(ast.value);
      ok, want := true, true;
    } else {
      s.PushAst(Leaf(tok));
      ok, want := true, true;
    }
  }

  /** A token that does not end the expression; blanks are skipped. */
  method ParseToken(src: TokenSource, s: Stacks, tok: Tok, want: bool) returns (ok: bool, want': bool)
    requires 0 < src.pos <= |src.toks| && src.toks[src.pos - 1] == tok && Shape(s.Value(), want)
    modifies src, s
    ensures src.pos <= |src.toks|
    ensures match Step(src.toks, old(src.pos) - 1, old(s.Value()), want)
            case None => !ok
            case Some((st, w, p)) => ok && s.Value() == st && want' == w && src.pos == p
    decreases |src.toks| - src.pos, 7
  {
    hide StepOperator, StepOperand;
    if tok == Space {
      ok, want' := true, want;
    } else if want {
      ok, want' := ParseOperator(src, s, tok);
    } else {
      ok, want' := ParseOperand(src, s, tok);
    }
  }

  /** ast_parsev; None when an assertion fails. */
  method ParseV(src: TokenSource, ends: seq<Tok>) returns (r: Option<Ast>)
    requires src.pos <= |src.toks|
    modifies src
    ensures src.pos <= |src.toks|
    ensures match Parse(src.toks, old(src.pos), ends)
            case None => r == None
            case Some((ast, p)) => r == Some(ast) && src.pos == p
    decreases |src.toks| - src.pos, 3
  {
    hide Step, Finish;
    var cont, want := true, false;
    var s := new Stacks();
    ghost var whole := Loop(src.toks, src.pos, ends, EMPTY, false);
    while cont
      invariant fresh(s) && old(src.pos) <= src.pos <= |src.toks|
      invariant Shape(s.Value(), want)
      invariant cont ==> whole == Loop(src.toks, src.pos, ends, s.Value(), want)
      invariant !cont ==> whole == Some((s.Value(), want, src.pos))
      decreases cont, |src.toks| - src.pos
    {
      ghost var pos := src.pos;
      var tok := src.GetToken();
      var stop := tok.None?;
      if !stop {
        stop := Stops(src, ends, tok.value);
      }
      if stop {
        cont := false;
      } else {
        var ok;
        ok, want := ParseToken(src, s, tok.value, want);
        if !ok { return None; }
      }
    }
    r := Conclude(s, want);
  }

  /** The operator that ends the expression, and the checks behind it. */
  method Conclude(s: Stacks, want: bool) returns (r: Option<Ast>)
    requires Shape(s.Value(), want)
    modifies s
    ensures r == Finish(old(s.Value()), want)
  {
    hide Rewind, Priority;
    if !want { return None; }
    s.PushOp(Blank, None);
    var ok := s.RewindStack();
    if !ok || |s.ops| != 1 || s.ops[0] != Blank || s.centers[0].Some? { return None; }
    return Some(s.operands[0]);
  }

  /** The scan of the end tokens: a match gives the token back. */
  method Stops(src: TokenSource, ends: seq<Tok>, tok: Tok) returns (stop: bool)
    requires src.pos > 0
    modifies src
    ensures stop <==> tok in ends
    ensures src.pos == if stop then old(src.pos) - 1 else old(src.pos)
  {
    stop := false;
    var i := 0;
    while i < |ends| && !stop
      invariant 0 <= i <= |ends|
      invariant stop <==> tok in ends[..i]
      invariant src.pos == if stop then old(src.pos) - 1 else old(src.pos)
    {
      if ends[i] == tok {
        src.GiveBackToken();
        stop := true;
      }
      i := i + 1;
    }
  }
}
