/** Concrete expressions, and the theorem that ast_parsev reads them back. */
module CAstReading {
  import opened Options
  import opened CAst

  /** An expression as it is written: `Group` is a pair of parentheses.  Casts are not modelled. */
  datatype Cst =
    | Name(tok: Tok)
    | Group(body: Cst)
    | Prefix(tok: Tok, body: Cst)
    | Postfix(body: Cst, tok: Tok)
    | Binary(left: Cst, tok: Tok, right: Cst)
    | Ternary(left: Cst, center: Cst, right: Cst)
    | Call(body: Cst, args: Option<Cst>)
    | Index(body: Cst, index: Cst)

  function Tokens(e: Cst): seq<Tok> {
    match e
    case Name(tok) => [tok]
    case Group(x) => [LParen] + (Tokens(x) + [RParen])
    case Prefix(tok, x) => [tok] + Tokens(x)
    case Postfix(x, tok) => Tokens(x) + [tok]
    case Binary(l, tok, r) => Tokens(l) + ([tok] + ([] + Tokens(r)))
    case Ternary(l, c, r) => Tokens(l) + ([Question] + ((Tokens(c) + [Colon]) + Tokens(r)))
    case Call(x, args) => Tokens(x) + ([LParen] + ((if args.Some? then Tokens(args.value) else []) + [RParen]))
    case Index(x, i) => Tokens(x) + ([LBracket] + (Tokens(i) + [RBracket]))
  }

  /** The tree that the expression means.  Prefix and postfix operators and calls without arguments
      have a placeholder where they have no operand. */
  function TreeOf(e: Cst): Ast {
    match e
    case Name(tok) => Leaf(tok)
    case Group(x) => TreeOf(x)
    case Prefix(tok, x) => Node(Pre(tok), Placeholder, None, TreeOf(x))
    case Postfix(x, tok) => Node(Post(tok), TreeOf(x), None, Placeholder)
    case Binary(l, tok, r) => Node(Plain(tok), TreeOf(l), None, TreeOf(r))
    case Ternary(l, c, r) => Node(Plain(Question), TreeOf(l), Some(TreeOf(c)), TreeOf(r))
    case Call(x, args) => Node(Plain(LParen), TreeOf(x), None, if args.Some? then TreeOf(args.value) else Placeholder)
    case Index(x, i) => Node(Plain(LBracket), TreeOf(x), None, TreeOf(i))
  }

  predicate Atomic(e: Cst) {
    e.Name? || e.Group?
  }

  function OpOf(e: Cst): Op
    requires !Atomic(e)
  {
    match e
    case Prefix(tok, _) => Pre(tok)
    case Postfix(_, tok) => Post(tok)
    case Binary(_, tok, _) => Plain(tok)
    case Ternary(_, _, _) => Plain(Question)
    case Call(_, _) => Plain(LParen)
    case Index(_, _) => Plain(LBracket)
  }

  /** How weakly the outermost operator binds; 0 for a name or a parenthesised expression. */
  function Level(e: Cst): nat {
    if Atomic(e) then 0 else Priority(OpOf(e))
  }

  predicate IsInfix(tok: Tok) {
    IsOperator(tok) && tok != Question && Priority(Plain(tok)) > 0
  }

  predicate LeftOk(op: Op, l: Cst) {
    Level(l) < Priority(op) || (Level(l) == Priority(op) && LeftToRight(op))
  }

  predicate RightOk(op: Op, r: Cst) {
    Level(r) < Priority(op) || (Level(r) == Priority(op) && !LeftToRight(op))
  }

  /** Every operand binds as its place demands, or is parenthesised. */
  predicate Proper(e: Cst) {
    match e
    case Name(tok) => tok.Word?
    case Group(x) => Proper(x)
    case Prefix(tok, x) => IsPrefix(tok) && Proper(x) && RightOk(OpOf(e), x)
    case Postfix(x, tok) => (tok == PlusPlus || tok == MinusMinus) && Proper(x) && LeftOk(OpOf(e), x)
    case Binary(l, tok, r) => IsInfix(tok) && Proper(l) && LeftOk(OpOf(e), l) && Proper(r) && RightOk(OpOf(e), r)
    case Ternary(l, c, r) => Proper(l) && LeftOk(OpOf(e), l) && Proper(c) && Proper(r) && RightOk(OpOf(e), r)
    case Call(x, args) => Proper(x) && LeftOk(OpOf(e), x) && (args.Some? ==> Proper(args.value))
    case Index(x, i) => Proper(x) && LeftOk(OpOf(e), x) && Proper(i)
  }

  /** The tokens that no bracket encloses: those that could end the expression early. */
  function TopTokens(e: Cst): set<Tok> {
    match e
    case Name(tok) => {tok}
    case Group(x) => {LParen}
    case Prefix(tok, x) => {tok} + TopTokens(x)
    case Postfix(x, tok) => TopTokens(x) + {tok}
    case Binary(l, tok, r) => TopTokens(l) + {tok} + TopTokens(r)
    case Ternary(l, c, r) => TopTokens(l) + {Question} + TopTokens(r)
    case Call(x, args) => TopTokens(x) + {LParen}
    case Index(x, i) => TopTokens(x) + {LBracket}
  }

  predicate Clear(e: Cst, ends: seq<Tok>) {
    forall tok :: tok in ends ==> tok !in TopTokens(e)
  }

  // ----- the right spine: operators still on the stack once an expression has been read -----

  datatype Entry = Entry(op: Op, left: Ast, center: Option<Ast>)

  /** The outermost operator with its left operand. */
  function Head(e: Cst): Entry
    requires !Atomic(e)
  {
    var t := TreeOf(e);
    Entry(t.op, t.left, t.center)
  }

  function Spine(e: Cst): seq<Entry> {
    match e
    case Name(_) => []
    case Group(_) => []
    case Prefix(_, x) => [Head(e)] + Spine(x)
    case Binary(_, _, r) => [Head(e)] + Spine(r)
    case Ternary(_, _, r) => [Head(e)] + Spine(r)
    case _ => [Head(e)]
  }

  function SpineEnd(e: Cst): Ast {
    match e
    case Name(_) => TreeOf(e)
    case Group(_) => TreeOf(e)
    case Prefix(_, x) => SpineEnd(x)
    case Binary(_, _, r) => SpineEnd(r)
    case Ternary(_, _, r) => SpineEnd(r)
    case _ => TreeOf(e).right
  }

  /** Folding a spine up from its end gives the tree back. */
  function Fold(spine: seq<Entry>, last: Ast): Ast
    decreases |spine|
  {
    if spine == [] then last
    else
      var e := spine[|spine| - 1];
      Fold(spine[..|spine| - 1], Node(e.op, e.left, e.center, last))
  }

  function Ops(spine: seq<Entry>): (r: seq<Op>)
    ensures |r| == |spine|
  {
    seq(|spine|, i requires 0 <= i < |spine| => spine[i].op)
  }

  function Lefts(spine: seq<Entry>): (r: seq<Ast>)
    ensures |r| == |spine|
  {
    seq(|spine|, i requires 0 <= i < |spine| => spine[i].left)
  }

  function Centers(spine: seq<Entry>): (r: seq<Option<Ast>>)
    ensures |r| == |spine|
  {
    seq(|spine|, i requires 0 <= i < |spine| => spine[i].center)
  }

  /** The stacks `st` with an expression read onto them but not yet reduced. */
  function Onto(st: State, spine: seq<Entry>, last: Ast): State {
    State(st.ops + Ops(spine), st.operands + Lefts(spine) + [last], st.centers + Centers(spine))
  }

  function Read(st: State, e: Cst): State {
    Onto(st, Spine(e), SpineEnd(e))
  }

  lemma {:induction false} FoldFront(e: Entry, spine: seq<Entry>, last: Ast)
    ensures Fold([e] + spine, last) == Node(e.op, e.left, e.center, Fold(spine, last))
    decreases |spine|
  {
    var s := [e] + spine;
    if spine == [] {
      assert s == [e] && s[..0] == [];
    } else {
      var f := spine[|spine| - 1];
      assert s[|s| - 1] == f && s[..|s| - 1] == [e] + spine[..|spine| - 1];
      FoldFront(e, spine[..|spine| - 1], Node(f.op, f.left, f.center, last));
    }
  }

  /** The last operand, when no bracket or placeholder closes the expression. */
  function Tail(e: Cst): Option<Cst> {
    match e
    case Prefix(_, x) => Some(x)
    case Binary(_, _, r) => Some(r)
    case Ternary(_, _, r) => Some(r)
    case _ => None
  }

  lemma {:induction false} FoldSpine(e: Cst)
    ensures Fold(Spine(e), SpineEnd(e)) == TreeOf(e)
  {
    if Tail(e).Some? {
      FoldSpine(Tail(e).value);
      FoldFront(Head(e), Spine(Tail(e).value), SpineEnd(Tail(e).value));
    } else if !Atomic(e) {
      assert Spine(e) == [Head(e)] + [];
      FoldFront(Head(e), [], SpineEnd(e));
    }
  }

  // ----- facts about the tables -----

  /** Operators of equal priority group the same way. */
  lemma LevelsAgree(a: Op, b: Op)
    requires Priority(a) == Priority(b) > 0
    ensures LeftToRight(a) == LeftToRight(b)
  {
  }

  lemma ProperHasPriority(e: Cst)
    requires Proper(e) && !Atomic(e)
    ensures 0 < Priority(OpOf(e)) < 100
  {
  }

  predicate CanReduce(op: Op, e: Entry) {
    Priority(e.op) > 0 && Reduces(op, e.op) && (e.op == Plain(Question) ==> e.center.Some?)
  }

  lemma HeadFacts(e: Cst)
    requires Proper(e) && !Atomic(e)
    ensures Head(e).op == OpOf(e) && (OpOf(e) == Plain(Question) ==> Head(e).center.Some?)
    ensures Tail(e).Some? ==> Proper(Tail(e).value) && RightOk(OpOf(e), Tail(e).value)
    ensures Spine(e) == [Head(e)] + (if Tail(e).Some? then Spine(Tail(e).value) else [])
  {
  }

  /** An operator that may take e as its left operand reduces everything on e's spine. */
  lemma {:induction false} SpineReduces(e: Cst, op: Op)
    requires Proper(e) && LeftOk(op, e)
    ensures forall k :: 0 <= k < |Spine(e)| ==> CanReduce(op, Spine(e)[k])
  {
    hide Proper, Spine, Priority, LeftToRight, Head, OpOf;
    if !Atomic(e) {
      ProperHasPriority(e);
      HeadFacts(e);
      if Tail(e).Some? {
        var r := Tail(e).value;
        if !Atomic(r) && Level(r) == Priority(op) {
          LevelsAgree(OpOf(e), op);
        }
        SpineReduces(r, op);
      }
    } else {
      assert Spine(e) == [] by { AtomicSpine(e); }
    }
  }

  lemma AtomicSpine(e: Cst)
    requires Atomic(e)
    ensures Spine(e) == [] && SpineEnd(e) == TreeOf(e)
  {
  }

  /** The spine is folded up before the new operator meets what lies below. */
  lemma {:induction false} RewindFolds(st: State, spine: seq<Entry>, last: Ast, op: Op, center: Option<Ast>)
    requires Balanced(st) && Priority(op) > 0
    requires forall k :: 0 <= k < |spine| ==> CanReduce(op, spine[k])
    ensures Balanced(Push(Onto(st, spine, last), op, center))
    ensures Rewind(Push(Onto(st, spine, last), op, center)) == Rewind(Push(PushOperand(st, Fold(spine, last)), op, center))
    decreases |spine|
  {
    var x := Push(Onto(st, spine, last), op, center);
    if spine == [] {
      assert x == Push(PushOperand(st, last), op, center);
    } else {
      var k := |spine| - 1;
      var e := spine[k];
      var node := Node(e.op, e.left, e.center, last);
      assert CanReduce(op, e);
      var y := Push(Onto(st, spine[..k], node), op, center);
      ReduceTop(st, spine, last, op, center);
      assert Rewind(x) == Rewind(y);
      RewindFolds(st, spine[..k], node, op, center);
    }
  }

  lemma ReduceTop(st: State, spine: seq<Entry>, last: Ast, op: Op, center: Option<Ast>)
    requires Balanced(st) && spine != []
    ensures var k := |spine| - 1;
            var e, x := spine[k], Push(Onto(st, spine, last), op, center);
            && Balanced(x) && |x.ops| >= 2
            && x.ops[|x.ops| - 1] == op && x.ops[|x.ops| - 2] == e.op && x.centers[|x.ops| - 2] == e.center
            && Reduce(x) == Push(Onto(st, spine[..k], Node(e.op, e.left, e.center, last)), op, center)
  {
    var k := |spine| - 1;
    var e, x := spine[k], Push(Onto(st, spine, last), op, center);
    var y := Push(Onto(st, spine[..k], Node(e.op, e.left, e.center, last)), op, center);
    var n := |x.ops|;
    assert x.ops[..n - 2] == st.ops + Ops(spine[..k]);
    assert x.centers[..n - 2] == st.centers + Centers(spine[..k]);
    assert x.operands[..n - 2] == st.operands + Lefts(spine[..k]);
    assert x.operands[n - 2] == e.left && x.operands[n - 1] == last;
  }

  /** e can be read onto `st` without disturbing what is there. */
  predicate Fits(st: State, e: Cst) {
    st.ops == [] || Atomic(e) || Stays(st, OpOf(e))
  }

  predicate Stays(st: State, op: Op) {
    st.ops == [] || (Priority(st.ops[|st.ops| - 1]) > 0 && !Reduces(op, st.ops[|st.ops| - 1]))
  }

  lemma FitsLeft(st: State, op: Op, l: Cst)
    requires Stays(st, op) && Proper(l) && LeftOk(op, l)
    ensures Fits(st, l)
  {
    hide OpOf, Proper;
    if st.ops != [] && !Atomic(l) {
      ProperHasPriority(l);
    }
  }

  lemma FitsRight(st: State, op: Op, center: Option<Ast>, r: Cst)
    requires Proper(r) && Priority(op) > 0 && RightOk(op, r)
    ensures Fits(Push(st, op, center), r)
  {
    hide OpOf, Proper;
    if !Atomic(r) {
      ProperHasPriority(r);
      if Level(r) == Priority(op) {
        LevelsAgree(OpOf(r), op);
      }
    }
  }

  // ----- tokens at a position -----

  predicate At(toks: seq<Tok>, pos: nat, s: seq<Tok>) {
    pos + |s| <= |toks| && toks[pos..pos + |s|] == s
  }

  lemma AtSplit(toks: seq<Tok>, pos: nat, a: seq<Tok>, b: seq<Tok>)
    requires At(toks, pos, a + b)
    ensures At(toks, pos, a) && At(toks, pos + |a|, b)
  {
    assert toks[pos..pos + |a|] == (a + b)[..|a|] == a;
    assert toks[pos + |a|..pos + |a| + |b|] == (a + b)[|a|..] == b;
  }

  lemma AtFirst(toks: seq<Tok>, pos: nat, tok: Tok, b: seq<Tok>)
    requires At(toks, pos, [tok] + b)
    ensures pos < |toks| && toks[pos] == tok && At(toks, pos + 1, b)
  {
    AtSplit(toks, pos, [tok], b);
    assert toks[pos] == toks[pos..pos + 1][0];
  }

  lemma AtThree(toks: seq<Tok>, pos: nat, first: seq<Tok>, tok: Tok, middle: seq<Tok>, last: seq<Tok>)
    requires At(toks, pos, first + ([tok] + (middle + last)))
    ensures At(toks, pos, first) && pos + |first| < |toks| && toks[pos + |first|] == tok
    ensures At(toks, pos + |first| + 1, middle) && At(toks, pos + |first| + 1 + |middle|, last)
    ensures |first + ([tok] + (middle + last))| == |first| + 1 + |middle| + |last|
  {
    AtSplit(toks, pos, first, [tok] + (middle + last));
    AtFirst(toks, pos + |first|, tok, middle + last);
    AtSplit(toks, pos + |first| + 1, middle, last);
  }

  predicate Delimiter(tok: Tok) {
    tok.RParen? || tok.RBracket? || tok.Colon? || tok.Space?
  }

  lemma {:induction false} NoDelimiterOnTop(e: Cst)
    requires Proper(e)
    ensures forall tok :: tok in TopTokens(e) ==> !Delimiter(tok)
  {
    hide Priority, LeftToRight, LeftOk, RightOk;
    match e
    case Name(_) =>
    case Group(_) =>
    case Prefix(_, x) => NoDelimiterOnTop(x);
    case Postfix(x, _) => NoDelimiterOnTop(x);
    case Binary(l, _, r) => NoDelimiterOnTop(l); NoDelimiterOnTop(r);
    case Ternary(l, _, r) => NoDelimiterOnTop(l); NoDelimiterOnTop(r);
    case Call(x, _) => NoDelimiterOnTop(x);
    case Index(x, _) => NoDelimiterOnTop(x);
  }

  lemma {:induction false} TokensStart(e: Cst)
    requires Proper(e)
    ensures Tokens(e) != [] && !Delimiter(Tokens(e)[0])
  {
    hide Priority, LeftToRight, LeftOk, RightOk;
    match e
    case Postfix(x, _) => TokensStart(x);
    case Binary(l, _, _) => TokensStart(l);
    case Ternary(l, _, _) => TokensStart(l);
    case Call(x, _) => TokensStart(x);
    case Index(x, _) => TokensStart(x);
    case _ =>
  }

  // One lemma per kind of token: what a turn of the loop does with it.

  lemma LoopTurns(toks: seq<Tok>, pos: nat, ends: seq<Tok>, st: State, want: bool, st': State, want': bool, pos': nat)
    requires pos < |toks| && toks[pos] !in ends && Shape(st, want)
    requires Step(toks, pos, st, want) == Some((st', want', pos'))
    ensures Loop(toks, pos, ends, st, want) == Loop(toks, pos', ends, st', want')
  {
  }

  lemma TurnWord(toks: seq<Tok>, pos: nat, st: State)
    requires pos < |toks| && toks[pos].Word? && Balanced(st)
    ensures Step(toks, pos, st, false) == Some((PushOperand(st, Leaf(toks[pos])), true, pos + 1))
  {
  }

  lemma TurnPrefix(toks: seq<Tok>, pos: nat, st: State)
    requires pos + 1 < |toks| && IsPrefix(toks[pos]) && Balanced(st)
    requires var st' := PushOperand(Push(st, Pre(toks[pos]), None), Placeholder); Rewind(st') == Some(st')
    ensures Step(toks, pos, st, false)
         == Some((PushOperand(Push(st, Pre(toks[pos]), None), Placeholder), false, pos + 1))
  {
  }

  lemma TurnGroup(toks: seq<Tok>, pos: nat, st: State, t: Ast, pos': nat)
    requires pos < |toks| && toks[pos] == LParen && Balanced(st)
    requires Enclosed(toks, pos + 1, RParen) == Some((t, pos'))
    ensures Step(toks, pos, st, false) == Some((PushOperand(st, t), true, pos'))
  {
  }

  lemma TurnPostfix(toks: seq<Tok>, pos: nat, st: State, st': State)
    requires pos < |toks| && toks[pos] in {PlusPlus, MinusMinus} && Shape(st, true)
    requires Rewind(Push(st, Post(toks[pos]), None)) == Some(st')
    ensures Step(toks, pos, st, true) == Some((PushOperand(st', Placeholder), true, pos + 1))
  {
  }

  lemma TurnCall(toks: seq<Tok>, pos: nat, st: State, st': State, args: Ast, pos': nat)
    requires pos + 1 < |toks| && toks[pos] == LParen && Shape(st, true)
    requires Rewind(Push(st, Plain(LParen), None)) == Some(st')
    requires if toks[pos + 1] == RParen then args == Placeholder && pos' == pos + 2
             else Enclosed(toks, pos + 1, RParen) == Some((args, pos'))
    ensures Step(toks, pos, st, true) == Some((PushOperand(st', args), true, pos'))
  {
    hide Rewind, Parse, Enclosed;
    assert Arguments(toks, pos + 1) == Some((args, pos'));
  }

  lemma TurnIndex(toks: seq<Tok>, pos: nat, st: State, st': State, index: Ast, pos': nat)
    requires pos < |toks| && toks[pos] == LBracket && Shape(st, true)
    requires Rewind(Push(st, Plain(LBracket), None)) == Some(st')
    requires Enclosed(toks, pos + 1, RBracket) == Some((index, pos'))
    ensures Step(toks, pos, st, true) == Some((PushOperand(st', index), true, pos'))
  {
  }

  lemma TurnInfix(toks: seq<Tok>, pos: nat, st: State, st': State)
    requires pos < |toks| && IsInfix(toks[pos]) && Shape(st, true)
    requires Rewind(Push(st, Plain(toks[pos]), None)) == Some(st') && Balanced(st') && Rewind(st') == Some(st')
    ensures Step(toks, pos, st, true) == Some((st', false, pos + 1))
  {
  }

  lemma TurnTernary(toks: seq<Tok>, pos: nat, st: State, st': State, c: Ast, pos': nat)
    requires pos < |toks| && toks[pos] == Question && Shape(st, true)
    requires Enclosed(toks, pos + 1, Colon) == Some((c, pos'))
    requires Rewind(Push(st, Plain(Question), Some(c))) == Some(st') && Balanced(st') && Rewind(st') == Some(st')
    ensures Step(toks, pos, st, true) == Some((st', false, pos'))
  {
  }

  // ----- what stays and what is reduced -----

  lemma NothingToRewind(st: State, op: Op, center: Option<Ast>, left: Ast)
    requires Balanced(st) && Priority(op) > 0 && Stays(st, op)
    ensures var x := Push(PushOperand(st, left), op, center); Balanced(x) && Rewind(x) == Some(x)
  {
    hide Priority, Reduces;
    var x := Push(PushOperand(st, left), op, center);
    if st.ops != [] {
      assert x.ops[|x.ops| - 2] == st.ops[|st.ops| - 1] && x.ops[|x.ops| - 1] == op;
    }
  }

  /** Pushing an operator after its left operand has been read leaves that operand whole. */
  lemma OperatorPushed(st: State, l: Cst, op: Op, center: Option<Ast>)
    requires Balanced(st) && Proper(l) && LeftOk(op, l) && Priority(op) > 0 && Stays(st, op)
    ensures var x := Push(Read(st, l), op, center);
            Shape(Read(st, l), true) && Balanced(x) && Rewind(x) == Some(Push(PushOperand(st, TreeOf(l)), op, center))
  {
    hide Priority, Reduces, LeftOk, Rewind, Proper, Spine, SpineEnd, TreeOf;
    NothingToRewind(st, op, center, TreeOf(l));
    SpineReduces(l, op);
    RewindFolds(st, Spine(l), SpineEnd(l), op, center);
    FoldSpine(l);
  }

  lemma OntoNothing(st: State, t: Ast)
    ensures Onto(st, [], t) == PushOperand(st, t)
  {
    assert st.ops + Ops([]) == st.ops && st.centers + Centers([]) == st.centers;
    assert st.operands + Lefts([]) + [t] == st.operands + [t];
  }

  lemma OntoFront(st: State, e: Entry, rest: seq<Entry>, last: Ast)
    ensures Onto(Push(PushOperand(st, e.left), e.op, e.center), rest, last) == Onto(st, [e] + rest, last)
  {
    SpineFront(e, rest);
    Assoc(st.ops, e.op, Ops(rest));
    Assoc(st.centers, e.center, Centers(rest));
    Assoc(st.operands, e.left, Lefts(rest));
  }

  lemma Assoc<X>(a: seq<X>, x: X, b: seq<X>)
    ensures (a + [x]) + b == a + ([x] + b)
  {
  }

  lemma SpineFront(e: Entry, rest: seq<Entry>)
    ensures Ops([e] + rest) == [e.op] + Ops(rest)
    ensures Lefts([e] + rest) == [e.left] + Lefts(rest)
    ensures Centers([e] + rest) == [e.center] + Centers(rest)
  {
  }

  /** Reading the tail of e after its operator has been pushed completes the reading of e. */
  lemma ReadTail(st: State, e: Cst)
    requires !Atomic(e) && Tail(e).Some?
    ensures Read(Push(PushOperand(st, Head(e).left), Head(e).op, Head(e).center), Tail(e).value) == Read(st, e)
  {
    var x := Tail(e).value;
    OntoFront(st, Head(e), Spine(x), SpineEnd(x));
  }

  lemma ReadClosed(st: State, e: Cst)
    requires !Atomic(e) && Tail(e).None?
    ensures PushOperand(Push(PushOperand(st, Head(e).left), Head(e).op, Head(e).center), TreeOf(e).right) == Read(st, e)
  {
    OntoNothing(Push(PushOperand(st, Head(e).left), Head(e).op, Head(e).center), TreeOf(e).right);
    assert Spine(e) == [Head(e)] + [];
    OntoFront(st, Head(e), [], TreeOf(e).right);
  }

  // ----- reading -----

  /** For every proper expression, wherever its tokens stand in the input and whatever comes next,
      ast_parsev reads exactly those tokens and returns exactly its tree. */
  lemma {:induction false} ParseReads(e: Cst, toks: seq<Tok>, pos: nat, ends: seq<Tok>)
    requires Proper(e) && At(toks, pos, Tokens(e)) && Clear(e, ends)
    requires pos + |Tokens(e)| == |toks| || toks[pos + |Tokens(e)|] in ends
    ensures Parse(toks, pos, ends) == Some((TreeOf(e), pos + |Tokens(e)|))
    decreases e, 3
  {
    hide Rewind, Enclosed, Tokens, TreeOf, Read, Clear, Proper, Step, Priority, LeftOk, Fits, Stays;
    BlankIsWeakest(e);
    OperatorPushed(EMPTY, e, Blank, None);
    Reads(e, toks, pos, ends, EMPTY);
    assert Push(PushOperand(EMPTY, TreeOf(e)), Blank, None) == State([Blank], [TreeOf(e)], [None]);
  }

  lemma BlankIsWeakest(e: Cst)
    requires Proper(e)
    ensures Priority(Blank) > 0 && LeftOk(Blank, e) && Fits(EMPTY, e) && Stays(EMPTY, Blank)
  {
    hide Proper, OpOf;
    if !Atomic(e) { ProperHasPriority(e); }
  }

  lemma {:induction false} ReadsEnclosed(e: Cst, toks: seq<Tok>, pos: nat, close: Tok)
    requires Proper(e) && At(toks, pos, Tokens(e) + [close]) && Delimiter(close)
    ensures Enclosed(toks, pos, close) == Some((TreeOf(e), pos + |Tokens(e)| + 1))
    decreases e, 4
  {
    hide Loop, Step, Rewind, Parse, Tokens, TreeOf, TopTokens, Proper;
    NoDelimiterOnTop(e);
    AtSplit(toks, pos, Tokens(e), [close]);
    AtFirst(toks, pos + |Tokens(e)|, close, []) by { assert [close] + [] == [close]; }
    ParseReads(e, toks, pos, [close]);
  }

  /** Reading an expression puts its right spine on the stacks. */
  lemma {:induction false} Reads(e: Cst, toks: seq<Tok>, pos: nat, ends: seq<Tok>, st: State)
    requires Proper(e) && Balanced(st) && Fits(st, e) && At(toks, pos, Tokens(e)) && Clear(e, ends)
    ensures Loop(toks, pos, ends, st, false) == Loop(toks, pos + |Tokens(e)|, ends, Read(st, e), true)
    decreases e, 2
  {
    hide Loop, Step, Rewind, Parse, Enclosed, Priority, LeftToRight, LeftOk, RightOk;
    match e
    case Name(tok) =>
      ReadsName(e, toks, pos, ends, st);
    case Group(x) =>
      AtFirst(toks, pos, LParen, Tokens(x) + [RParen]);
      ReadsEnclosed(x, toks, pos + 1, RParen);
      GroupTurns(e, toks, pos, ends, st);
    case Prefix(tok, x) =>
      ReadsPrefix(e, toks, pos, ends, st);
    case Postfix(x, tok) =>
      LeftParts(e, st, ends);
      AtSplit(toks, pos, Tokens(x), [tok]);
      Reads(x, toks, pos, ends, st);
      PostfixTurns(e, toks, pos + |Tokens(x)|, ends, st);
    case Binary(l, tok, r) =>
      ReadsBinary(e, toks, pos, ends, st);
    case Ternary(l, c, r) =>
      ReadsTernary(e, toks, pos, ends, st);
    case Call(x, args) =>
      ReadsCall(e, toks, pos, ends, st);
    case Index(x, i) =>
      ReadsIndex(e, toks, pos, ends, st);
  }

  lemma ReadsName(e: Cst, toks: seq<Tok>, pos: nat, ends: seq<Tok>, st: State)
    requires e.Name? && Proper(e) && Balanced(st) && At(toks, pos, Tokens(e)) && Clear(e, ends)
    ensures Loop(toks, pos, ends, st, false) == Loop(toks, pos + |Tokens(e)|, ends, Read(st, e), true)
  {
    hide Loop, Step, Rewind, Parse, Enclosed;
    AtFirst(toks, pos, e.tok, []) by { assert [e.tok] + [] == [e.tok]; }
    assert e.tok in TopTokens(e);
    TurnWord(toks, pos, st);
    LoopTurns(toks, pos, ends, st, false, PushOperand(st, TreeOf(e)), true, pos + 1);
    OntoNothing(st, TreeOf(e));
  }

  lemma GroupTurns(e: Cst, toks: seq<Tok>, pos: nat, ends: seq<Tok>, st: State)
    requires e.Group? && Balanced(st) && At(toks, pos, Tokens(e)) && Clear(e, ends)
    requires Enclosed(toks, pos + 1, RParen) == Some((TreeOf(e), pos + |Tokens(e)|))
    ensures Loop(toks, pos, ends, st, false) == Loop(toks, pos + |Tokens(e)|, ends, Read(st, e), true)
  {
    hide Loop, Step, Rewind, Parse, Enclosed;
    AtFirst(toks, pos, LParen, Tokens(e.body) + [RParen]);
    assert LParen in TopTokens(e);
    TurnGroup(toks, pos, st, TreeOf(e), pos + |Tokens(e)|);
    LoopTurns(toks, pos, ends, st, false, PushOperand(st, TreeOf(e)), true, pos + |Tokens(e)|);
    OntoNothing(st, TreeOf(e));
  }

  /** The left operand, if any. */
  function LeftOf(e: Cst): Cst
    requires !Atomic(e) && !e.Prefix?
  {
    match e
    case Postfix(x, _) => x
    case Binary(l, _, _) => l
    case Ternary(l, _, _) => l
    case Call(x, _) => x
    case Index(x, _) => x
  }

  function TokOf(e: Cst): Tok
    requires !Atomic(e)
  {
    match e
    case Prefix(tok, _) => tok
    case Postfix(_, tok) => tok
    case Binary(_, tok, _) => tok
    case Ternary(_, _, _) => Question
    case Call(_, _) => LParen
    case Index(_, _) => LBracket
  }

  /** All that reading the left operand and pushing the operator needs. */
  lemma LeftParts(e: Cst, st: State, ends: seq<Tok>)
    requires Proper(e) && !Atomic(e) && !e.Prefix? && Balanced(st) && Fits(st, e) && Clear(e, ends)
    ensures Proper(LeftOf(e)) && Fits(st, LeftOf(e)) && Clear(LeftOf(e), ends) && TokOf(e) !in ends
    ensures var x := Push(Read(st, LeftOf(e)), Head(e).op, Head(e).center);
            && Shape(Read(st, LeftOf(e)), true) && Balanced(x)
            && Rewind(x) == Some(Push(PushOperand(st, Head(e).left), Head(e).op, Head(e).center))
  {
    hide Priority, LeftToRight, LeftOk, RightOk, Rewind, Read, Reduces;
    assert TokOf(e) in TopTokens(e);
    ProperHasPriority(e);
    var l := LeftOf(e);
    assert Proper(l) && LeftOk(OpOf(e), l) && Clear(l, ends);
    FitsLeft(st, OpOf(e), l);
    assert Head(e).op == OpOf(e) && Head(e).left == TreeOf(l);
    OperatorPushed(st, l, OpOf(e), Head(e).center);
  }

  /** All that reading the tail needs. */
  lemma TailParts(e: Cst, st: State, ends: seq<Tok>)
    requires Proper(e) && !Atomic(e) && Tail(e).Some? && Balanced(st) && Fits(st, e) && Clear(e, ends)
    ensures Proper(Tail(e).value) && Clear(Tail(e).value, ends) && TokOf(e) !in ends
    ensures var x := Push(PushOperand(st, Head(e).left), Head(e).op, Head(e).center);
            Balanced(x) && Rewind(x) == Some(x) && Fits(x, Tail(e).value)
  {
    hide Priority, LeftToRight, LeftOk, RightOk, Rewind, Reduces;
    assert TokOf(e) in TopTokens(e);
    ProperHasPriority(e);
    HeadFacts(e);
    NothingToRewind(st, OpOf(e), Head(e).center, Head(e).left);
    FitsRight(PushOperand(st, Head(e).left), OpOf(e), Head(e).center, Tail(e).value);
  }

  lemma {:induction false} ReadsPrefix(e: Cst, toks: seq<Tok>, pos: nat, ends: seq<Tok>, st: State)
    requires e.Prefix? && Proper(e) && Balanced(st) && Fits(st, e) && At(toks, pos, Tokens(e)) && Clear(e, ends)
    ensures Loop(toks, pos, ends, st, false) == Loop(toks, pos + |Tokens(e)|, ends, Read(st, e), true)
    decreases e, 1
  {
    hide Loop, Step, Rewind, Parse, Enclosed, Read, Priority, LeftToRight, LeftOk, RightOk, Spine, SpineEnd, Fits, Clear;
    AtFirst(toks, pos, e.tok, Tokens(e.body));
    TailParts(e, st, ends);
    TokensStart(e.body);
    var st' := Push(PushOperand(st, Placeholder), Pre(e.tok), None);
    TurnPrefix(toks, pos, st);
    LoopTurns(toks, pos, ends, st, false, st', false, pos + 1);
    Reads(e.body, toks, pos + 1, ends, st');
    ReadTail(st, e);
  }

  lemma PostfixTurns(e: Cst, toks: seq<Tok>, pos: nat, ends: seq<Tok>, st: State)
    requires e.Postfix? && Proper(e) && Balanced(st) && Fits(st, e) && At(toks, pos, [e.tok]) && Clear(e, ends)
    requires Shape(Read(st, e.body), true)
    ensures Loop(toks, pos, ends, Read(st, e.body), true) == Loop(toks, pos + 1, ends, Read(st, e), true)
  {
    hide Loop, Step, Rewind, Parse, Enclosed, Read, Priority, LeftToRight, LeftOk, RightOk, Spine, SpineEnd, Fits, Clear;
    AtFirst(toks, pos, e.tok, []) by { assert [e.tok] + [] == [e.tok]; }
    LeftParts(e, st, ends);
    var st' := Push(PushOperand(st, TreeOf(e.body)), Post(e.tok), None);
    TurnPostfix(toks, pos, Read(st, e.body), st');
    LoopTurns(toks, pos, ends, Read(st, e.body), true, PushOperand(st', Placeholder), true, pos + 1);
    ReadClosed(st, e);
  }

  lemma {:induction false} ReadsBinary(e: Cst, toks: seq<Tok>, pos: nat, ends: seq<Tok>, st: State)
    requires e.Binary? && Proper(e) && Balanced(st) && Fits(st, e) && At(toks, pos, Tokens(e)) && Clear(e, ends)
    ensures Loop(toks, pos, ends, st, false) == Loop(toks, pos + |Tokens(e)|, ends, Read(st, e), true)
    decreases e, 1
  {
    hide Loop, Step, Rewind, Parse, Enclosed, Read, Priority, LeftToRight, LeftOk, RightOk, Spine, SpineEnd, Fits, Clear, IsInfix;
    var Binary(l, tok, r) := e;
    AtThree(toks, pos, Tokens(l), tok, [], Tokens(r));
    LeftParts(e, st, ends);
    TailParts(e, st, ends);
    Reads(l, toks, pos, ends, st);
    var pos' := pos + |Tokens(l)|;
    var st' := Push(PushOperand(st, TreeOf(l)), Plain(tok), None);
    TurnInfix(toks, pos', Read(st, l), st');
    LoopTurns(toks, pos', ends, Read(st, l), true, st', false, pos' + 1);
    Reads(r, toks, pos' + 1, ends, st');
    ReadTail(st, e);
  }

  lemma {:induction false} ReadsTernary(e: Cst, toks: seq<Tok>, pos: nat, ends: seq<Tok>, st: State)
    requires e.Ternary? && Proper(e) && Balanced(st) && Fits(st, e) && At(toks, pos, Tokens(e)) && Clear(e, ends)
    ensures Loop(toks, pos, ends, st, false) == Loop(toks, pos + |Tokens(e)|, ends, Read(st, e), true)
    decreases e, 1
  {
    hide Loop, Step, Rewind, Parse, Enclosed, Read, Priority, LeftToRight, LeftOk, RightOk, Spine, SpineEnd, Fits, Clear,
         Proper, At, Tokens;
    var l, c, r := e.left, e.center, e.right;
    var pos' := pos + |Tokens(l)|;
    TernaryAt(e, toks, pos);
    LeftParts(e, st, ends);
    TailParts(e, st, ends);
    Reads(l, toks, pos, ends, st);
    TernaryTurns(e, toks, pos', ends, st);
    Reads(r, toks, pos' + 1 + |Tokens(c) + [Colon]|, ends, Push(PushOperand(st, TreeOf(l)), Plain(Question), Some(TreeOf(c))));
    ReadTail(st, e);
  }

  lemma TernaryAt(e: Cst, toks: seq<Tok>, pos: nat)
    requires e.Ternary? && At(toks, pos, Tokens(e))
    ensures var mid := pos + |Tokens(e.left)|;
            && At(toks, pos, Tokens(e.left)) && mid < |toks| && toks[mid] == Question
            && At(toks, mid + 1, Tokens(e.center) + [Colon])
            && At(toks, mid + 1 + |Tokens(e.center) + [Colon]|, Tokens(e.right))
            && |Tokens(e)| == |Tokens(e.left)| + 1 + |Tokens(e.center) + [Colon]| + |Tokens(e.right)|
  {
    AtThree(toks, pos, Tokens(e.left), Question, Tokens(e.center) + [Colon], Tokens(e.right));
  }

  /** The question mark, the centre and the colon. */
  lemma {:induction false} TernaryTurns(e: Cst, toks: seq<Tok>, pos: nat, ends: seq<Tok>, st: State)
    requires e.Ternary? && Proper(e) && Balanced(st) && Fits(st, e) && Clear(e, ends)
    requires pos < |toks| && toks[pos] == Question && At(toks, pos + 1, Tokens(e.center) + [Colon])
    requires Shape(Read(st, e.left), true)
    ensures Balanced(Push(PushOperand(st, TreeOf(e.left)), Plain(Question), Some(TreeOf(e.center))))
    ensures Loop(toks, pos, ends, Read(st, e.left), true)
         == Loop(toks, pos + 1 + |Tokens(e.center) + [Colon]|, ends,
                 Push(PushOperand(st, TreeOf(e.left)), Plain(Question), Some(TreeOf(e.center))), false)
    decreases e, 0
  {
    hide Loop, Step, Rewind, Parse, Enclosed, Read, Priority, LeftToRight, LeftOk, RightOk, Spine, SpineEnd, Fits, Clear, At;
    LeftParts(e, st, ends);
    TailParts(e, st, ends);
    var pos' := pos + 1 + |Tokens(e.center) + [Colon]|;
    ReadsEnclosed(e.center, toks, pos + 1, Colon);
    var st' := Push(PushOperand(st, TreeOf(e.left)), Plain(Question), Some(TreeOf(e.center)));
    TurnTernary(toks, pos, Read(st, e.left), st', TreeOf(e.center), pos');
    LoopTurns(toks, pos, ends, Read(st, e.left), true, st', false, pos');
  }

  lemma {:induction false} ReadsCall(e: Cst, toks: seq<Tok>, pos: nat, ends: seq<Tok>, st: State)
    requires e.Call? && Proper(e) && Balanced(st) && Fits(st, e) && At(toks, pos, Tokens(e)) && Clear(e, ends)
    ensures Loop(toks, pos, ends, st, false) == Loop(toks, pos + |Tokens(e)|, ends, Read(st, e), true)
    decreases e, 1
  {
    hide Loop, Step, Rewind, Parse, Enclosed, Read, Priority, LeftToRight, LeftOk, RightOk, Spine, SpineEnd, Fits, Clear;
    var inner := if e.args.Some? then Tokens(e.args.value) else [];
    AtSplit(toks, pos, Tokens(e.body), [LParen] + (inner + [RParen]));
    LeftParts(e, st, ends);
    Reads(e.body, toks, pos, ends, st);
    CallTurns(e, inner, toks, pos + |Tokens(e.body)|, ends, st);
  }

  /** From the opening parenthesis of a call on. */
  lemma {:induction false} CallTurns(e: Cst, inner: seq<Tok>, toks: seq<Tok>, pos: nat, ends: seq<Tok>, st: State)
    requires e.Call? && Proper(e) && Balanced(st) && Fits(st, e) && Clear(e, ends)
    requires inner == if e.args.Some? then Tokens(e.args.value) else []
    requires At(toks, pos, [LParen] + (inner + [RParen])) && Shape(Read(st, e.body), true)
    ensures Loop(toks, pos, ends, Read(st, e.body), true) == Loop(toks, pos + |inner| + 2, ends, Read(st, e), true)
    decreases e, 0
  {
    hide Loop, Step, Rewind, Parse, Enclosed, Read, Priority, LeftToRight, LeftOk, RightOk, Spine, SpineEnd, Fits, Clear, At;
    LeftParts(e, st, ends);
    AtFirst(toks, pos, LParen, inner + [RParen]);
    if e.args.Some? {
      ReadsEnclosed(e.args.value, toks, pos + 1, RParen);
      TokensStart(e.args.value);
      AtHead(toks, pos + 1, inner, [RParen]);
    } else {
      AtHead(toks, pos + 1, [RParen], []) by { assert inner + [RParen] == [RParen] + []; }
    }
    var st' := Push(PushOperand(st, TreeOf(e.body)), Plain(LParen), None);
    TurnCall(toks, pos, Read(st, e.body), st', TreeOf(e).right, pos + |inner| + 2);
    LoopTurns(toks, pos, ends, Read(st, e.body), true, PushOperand(st', TreeOf(e).right), true, pos + |inner| + 2);
    ReadClosed(st, e);
  }

  lemma AtHead(toks: seq<Tok>, pos: nat, a: seq<Tok>, b: seq<Tok>)
    requires At(toks, pos, a + b) && a != []
    ensures pos < |toks| && toks[pos] == a[0]
  {
    AtSplit(toks, pos, a, b);
    assert toks[pos] == toks[pos..pos + |a|][0];
  }

  lemma {:induction false} ReadsIndex(e: Cst, toks: seq<Tok>, pos: nat, ends: seq<Tok>, st: State)
    requires e.Index? && Proper(e) && Balanced(st) && Fits(st, e) && At(toks, pos, Tokens(e)) && Clear(e, ends)
    ensures Loop(toks, pos, ends, st, false) == Loop(toks, pos + |Tokens(e)|, ends, Read(st, e), true)
    decreases e, 1
  {
    hide Loop, Step, Rewind, Parse, Enclosed, Read, Priority, LeftToRight, LeftOk, RightOk, Spine, SpineEnd, Fits, Clear;
    AtSplit(toks, pos, Tokens(e.body), [LBracket] + (Tokens(e.index) + [RBracket]));
    LeftParts(e, st, ends);
    Reads(e.body, toks, pos, ends, st);
    IndexTurns(e, toks, pos + |Tokens(e.body)|, ends, st);
  }

  lemma {:induction false} IndexTurns(e: Cst, toks: seq<Tok>, pos: nat, ends: seq<Tok>, st: State)
    requires e.Index? && Proper(e) && Balanced(st) && Fits(st, e) && Clear(e, ends)
    requires At(toks, pos, [LBracket] + (Tokens(e.index) + [RBracket])) && Shape(Read(st, e.body), true)
    ensures Loop(toks, pos, ends, Read(st, e.body), true) == Loop(toks, pos + |Tokens(e.index)| + 2, ends, Read(st, e), true)
    decreases e, 0
  {
    hide Loop, Step, Rewind, Parse, Enclosed, Read, Priority, LeftToRight, LeftOk, RightOk, Spine, SpineEnd, Fits, Clear, At;
    LeftParts(e, st, ends);
    AtFirst(toks, pos, LBracket, Tokens(e.index) + [RBracket]);
    ReadsEnclosed(e.index, toks, pos + 1, RBracket);
    var st' := Push(PushOperand(st, TreeOf(e.body)), Plain(LBracket), None);
    var pos' := pos + |Tokens(e.index)| + 2;
    TurnIndex(toks, pos, Read(st, e.body), st', TreeOf(e.index), pos');
    LoopTurns(toks, pos, ends, Read(st, e.body), true, PushOperand(st', TreeOf(e.index)), true, pos');
    ReadClosed(st, e);
  }
}
