/** The expression grammar of C (section 6.5 of ISO/IEC 9899:2011) without casts, compound literals
    and the generic selection, plus the `defined` of preprocessor conditions (section 6.10.1); and what
    ast_parsev does with every sentence of it. */
module CGrammar {
  import opened Options
  import opened CAst
  import opened CAstReading

  datatype NonTerminal =
    | PrimaryX | PostfixX | UnaryX | Multiplicative | Additive | ShiftX | Relational | Equality
    | AndX | ExclusiveOr | InclusiveOr | LogicalAnd | LogicalOr | Conditional | AssignmentX | ExpressionX

  /** The nonterminal that a unit production leads to. */
  function Next(n: NonTerminal): NonTerminal
    requires n != PrimaryX
  {
    match n
    case ExpressionX => AssignmentX
    case AssignmentX => Conditional
    case Conditional => LogicalOr
    case LogicalOr => LogicalAnd
    case LogicalAnd => InclusiveOr
    case InclusiveOr => ExclusiveOr
    case ExclusiveOr => AndX
    case AndX => Equality
    case Equality => Relational
    case Relational => ShiftX
    case ShiftX => Additive
    case Additive => Multiplicative
    case Multiplicative => UnaryX
    case UnaryX => PostfixX
    case PostfixX => PrimaryX
  }

  /** How many unit productions separate n from a primary expression. */
  function Height(n: NonTerminal): nat
    decreases n == ExpressionX, n == AssignmentX, n == Conditional, n == LogicalOr, n == LogicalAnd, n == InclusiveOr,
              n == ExclusiveOr, n == AndX, n == Equality, n == Relational, n == ShiftX, n == Additive,
              n == Multiplicative, n == UnaryX, n == PostfixX
  {
    if n == PrimaryX then 0 else 1 + Height(Next(n))
  }

  predicate AssignmentOperator(tok: Tok) {
    tok in {Assign, StarAssign, SlashAssign, PercentAssign, PlusAssign, MinusAssign,
            ShlAssign, ShrAssign, AmpAssign, CaretAssign, BarAssign}
  }

  /** e derives from n: by a production of n itself, or by its unit production. */
  predicate Derives(n: NonTerminal, e: Cst)
    decreases e, 1 + Height(n)
  {
    Own(n, e) || (n != PrimaryX && Derives(Next(n), e))
  }

  predicate Own(n: NonTerminal, e: Cst)
    decreases e, 0
  {
    match (n, e)
    case (PrimaryX, Name(tok)) => tok.Word?
    case (PrimaryX, Group(x)) => Derives(ExpressionX, x)
    case (PostfixX, Binary(l, tok, r)) => tok in {Dot, Arrow} && Derives(PostfixX, l) && r.Name? && r.tok.Word?
    case (PostfixX, Call(x, args)) => Derives(PostfixX, x) && (args.Some? ==> Derives(ExpressionX, args.value))
    case (PostfixX, Index(x, i)) => Derives(PostfixX, x) && Derives(ExpressionX, i)
    case (PostfixX, Postfix(x, tok)) => tok in {PlusPlus, MinusMinus} && Derives(PostfixX, x)
    case (UnaryX, Prefix(tok, x)) =>
      tok in {PlusPlus, MinusMinus, Amp, Star, Plus, Minus, Tilde, Not, Sizeof, Defined} && Derives(UnaryX, x)
    case (Multiplicative, Binary(l, tok, r)) => tok in {Star, Slash, Percent} && Derives(Multiplicative, l) && Derives(UnaryX, r)
    case (Additive, Binary(l, tok, r)) => tok in {Plus, Minus} && Derives(Additive, l) && Derives(Multiplicative, r)
    case (ShiftX, Binary(l, tok, r)) => tok in {Shl, Shr} && Derives(ShiftX, l) && Derives(Additive, r)
    case (Relational, Binary(l, tok, r)) =>
      tok in {Less, Greater, LessEq, GreaterEq} && Derives(Relational, l) && Derives(ShiftX, r)
    case (Equality, Binary(l, tok, r)) => tok in {EqualEqual, NotEqual} && Derives(Equality, l) && Derives(Relational, r)
    case (AndX, Binary(l, tok, r)) => tok == Amp && Derives(AndX, l) && Derives(Equality, r)
    case (ExclusiveOr, Binary(l, tok, r)) => tok == Caret && Derives(ExclusiveOr, l) && Derives(AndX, r)
    case (InclusiveOr, Binary(l, tok, r)) => tok == Bar && Derives(InclusiveOr, l) && Derives(ExclusiveOr, r)
    case (LogicalAnd, Binary(l, tok, r)) => tok == AndAnd && Derives(LogicalAnd, l) && Derives(InclusiveOr, r)
    case (LogicalOr, Binary(l, tok, r)) => tok == OrOr && Derives(LogicalOr, l) && Derives(LogicalAnd, r)
    case (Conditional, Ternary(l, c, r)) => Derives(LogicalOr, l) && Derives(ExpressionX, c) && Derives(Conditional, r)
    case (AssignmentX, Binary(l, tok, r)) => AssignmentOperator(tok) && Derives(UnaryX, l) && Derives(AssignmentX, r)
    case (ExpressionX, Binary(l, tok, r)) => tok == Comma && Derives(ExpressionX, l) && Derives(AssignmentX, r)
    case _ => false
  }

  // ----- precedence agrees with the grammar -----

  /** The weakest operator that a phrase of n may have outside parentheses. */
  function Weakest(n: NonTerminal): nat {
    match n
    case PrimaryX => 0
    case PostfixX => 1
    case UnaryX => 2
    case Multiplicative => 3
    case Additive => 4
    case ShiftX => 5
    case Relational => 6
    case Equality => 7
    case AndX => 8
    case ExclusiveOr => 9
    case InclusiveOr => 10
    case LogicalAnd => 11
    case LogicalOr => 12
    case Conditional => 13
    case AssignmentX => 14
    case ExpressionX => 15
  }

  lemma {:induction false} DerivesProper(n: NonTerminal, e: Cst)
    requires Derives(n, e)
    ensures Proper(e) && Level(e) <= Weakest(n)
    decreases e, 2 + Height(n)
  {
    hide Own, Proper, Level;
    if Own(n, e) {
      OwnProper(n, e);
    } else {
      DerivesProper(Next(n), e);
    }
  }

  /** The productions that are not of a binary operator. */
  lemma OtherOwn(n: NonTerminal, e: Cst)
    requires Own(n, e) && !e.Binary?
    ensures !Atomic(e) ==> Priority(OpOf(e)) == Weakest(n) && LeftToRight(OpOf(e)) == (n == PostfixX)
    ensures match e
            case Name(tok) => tok.Word?
            case Group(x) => Derives(ExpressionX, x)
            case Prefix(tok, x) => n == UnaryX && IsPrefix(tok) && Derives(UnaryX, x)
            case Postfix(x, tok) => n == PostfixX && tok in {PlusPlus, MinusMinus} && Derives(PostfixX, x)
            case Call(x, args) => n == PostfixX && Derives(PostfixX, x) && (args.Some? ==> Derives(ExpressionX, args.value))
            case Index(x, i) => n == PostfixX && Derives(PostfixX, x) && Derives(ExpressionX, i)
            case Ternary(l, c, r) => n == Conditional && Derives(LogicalOr, l) && Derives(ExpressionX, c) && Derives(Conditional, r)
  {
  }

  lemma {:induction false} OwnProper(n: NonTerminal, e: Cst)
    requires Own(n, e)
    ensures Proper(e) && Level(e) <= Weakest(n)
    decreases e, 1
  {
    hide Own, Derives, Priority, LeftToRight;
    if e.Binary? {
      BinaryProper(n, e);
    } else {
      OtherOwn(n, e);
      match e
      case Name(_) =>
      case Group(x) => DerivesProper(ExpressionX, x);
      case Prefix(_, x) => DerivesProper(UnaryX, x);
      case Postfix(x, _) => DerivesProper(PostfixX, x);
      case Index(x, i) => DerivesProper(PostfixX, x); DerivesProper(ExpressionX, i);
      case Call(x, args) =>
        DerivesProper(PostfixX, x);
        if args.Some? { DerivesProper(ExpressionX, args.value); }
      case Ternary(l, c, r) =>
        DerivesProper(LogicalOr, l); DerivesProper(ExpressionX, c); DerivesProper(Conditional, r);
    }
  }

  /** What the left and the right operand of n's own binary operators derive from. */
  function LeftNonTerminal(n: NonTerminal): NonTerminal {
    if n == AssignmentX then UnaryX else n
  }

  function RightNonTerminal(n: NonTerminal): NonTerminal
    requires n != PrimaryX
  {
    if n == AssignmentX then AssignmentX else if n == PostfixX then PrimaryX else Next(n)
  }

  lemma BinaryOwn(n: NonTerminal, e: Cst)
    requires e.Binary? && Own(n, e)
    ensures IsInfix(e.tok) && Priority(Plain(e.tok)) == Weakest(n) && LeftToRight(Plain(e.tok)) == (n != AssignmentX)
    ensures n != PrimaryX && Derives(LeftNonTerminal(n), e.left) && Derives(RightNonTerminal(n), e.right)
  {
  }

  lemma {:induction false} BinaryProper(n: NonTerminal, e: Cst)
    requires e.Binary? && Own(n, e)
    ensures Proper(e) && Level(e) <= Weakest(n)
    decreases e, 0
  {
    hide Own, Priority, LeftToRight, IsInfix;
    BinaryOwn(n, e);
    DerivesProper(LeftNonTerminal(n), e.left);
    DerivesProper(RightNonTerminal(n), e.right);
  }

  /** Every sentence of the grammar, followed by a token that ends the expression (or by nothing), is
      read to its end and gives the tree of its derivation: whatever parentheses it has. */
  lemma ParsesTheGrammar(e: Cst, toks: seq<Tok>, pos: nat, ends: seq<Tok>)
    requires Derives(ExpressionX, e) && At(toks, pos, Tokens(e)) && Clear(e, ends)
    requires pos + |Tokens(e)| == |toks| || toks[pos + |Tokens(e)|] in ends
    ensures Parse(toks, pos, ends) == Some((TreeOf(e), pos + |Tokens(e)|))
  {
    DerivesProper(ExpressionX, e);
    ParseReads(e, toks, pos, ends);
  }

  /** So the grammar assigns at most one tree to a token sequence. */
  lemma GrammarUnambiguous(e: Cst, e': Cst)
    requires Derives(ExpressionX, e) && Derives(ExpressionX, e') && Tokens(e) == Tokens(e')
    ensures TreeOf(e) == TreeOf(e')
  {
    var toks := Tokens(e);
    assert toks[0..0 + |toks|] == toks;
    ParsesTheGrammar(e, toks, 0, []);
    ParsesTheGrammar(e', toks, 0, []);
  }

  // ----- printing a tree with the fewest parentheses -----

  /** The trees that expressions have. */
  predicate WellFormed(t: Ast) {
    match t
    case Placeholder => false
    case Leaf(tok) => tok.Word?
    case Node(Pre(tok), l, c, r) => IsPrefix(tok) && l == Placeholder && c.None? && WellFormed(r)
    case Node(Post(tok), l, c, r) => tok in {PlusPlus, MinusMinus} && WellFormed(l) && c.None? && r == Placeholder
    case Node(Plain(tok), l, c, r) =>
      && WellFormed(l)
      && (match tok
          case Question => c.Some? && WellFormed(c.value) && WellFormed(r)
          case LParen => c.None? && (r == Placeholder || WellFormed(r))
          case LBracket => c.None? && WellFormed(r)
          case _ => IsInfix(tok) && c.None? && WellFormed(r))
    case Node(Blank, _, _, _) => false
  }

  function Shield(ok: bool, e: Cst): Cst {
    if ok then e else Group(e)
  }

  /** The expression for t, with parentheses only around operands that need them. */
  function Print(t: Ast): Cst
    requires WellFormed(t)
  {
    match t
    case Leaf(tok) => Name(tok)
    case Node(op, l, c, r) =>
      match op
      case Pre(tok) => Prefix(tok, Shield(RightOk(op, Print(r)), Print(r)))
      case Post(tok) => Postfix(Shield(LeftOk(op, Print(l)), Print(l)), tok)
      case Plain(tok) =>
        var left := Shield(LeftOk(op, Print(l)), Print(l));
        if tok == LParen then Call(left, if r == Placeholder then None else Some(Print(r)))
        else if tok == LBracket then Index(left, Print(r))
        else
          var right := Shield(RightOk(op, Print(r)), Print(r));
          if tok == Question then Ternary(left, Print(c.value), right) else Binary(left, tok, right)
  }

  lemma {:induction false} PrintProper(t: Ast)
    requires WellFormed(t)
    ensures Proper(Print(t)) && TreeOf(Print(t)) == t
    decreases t, 1
  {
    hide Priority, LeftToRight, IsInfix, LeftOk, RightOk, Shield;
    match t
    case Leaf(_) =>
    case Node(op, l, c, r) =>
      match op
      case Pre(_) => PrefixHasPriority(op); PrintProper(r); ShieldRight(op, r);
      case Post(_) => PrefixHasPriority(op); PrintProper(l); ShieldLeft(op, l);
      case Plain(tok) => PrintPlain(t);
  }

  lemma {:induction false} PrintPlain(t: Ast)
    requires WellFormed(t) && t.Node? && t.op.Plain?
    ensures Proper(Print(t)) && TreeOf(Print(t)) == t
    decreases t, 0
  {
    hide Priority, LeftToRight, IsInfix, IsPrefix, LeftOk, RightOk, Shield;
    var op, l, c, r := t.op, t.left, t.center, t.right;
    PrintOwn(t);
    PrintProper(l);
    ShieldLeft(op, l);
    if WellFormed(r) { PrintProper(r); ShieldRight(op, r); }
    if c.Some? { PrintProper(c.value); }
  }

  lemma PrintOwn(t: Ast)
    requires WellFormed(t) && t.Node? && t.op.Plain?
    ensures Priority(t.op) > 0 && WellFormed(t.left)
    ensures t.center.Some? <==> t.op.tok == Question
    ensures WellFormed(t.right) || (t.op.tok == LParen && t.right == Placeholder)
    ensures t.op.tok in {Question, LParen, LBracket} || IsInfix(t.op.tok)
  {
  }

  lemma PrefixHasPriority(op: Op)
    requires (op.Pre? && IsPrefix(op.tok)) || (op.Post? && op.tok in {PlusPlus, MinusMinus})
    ensures Priority(op) > 0
  {
  }

  lemma ShieldLeft(op: Op, l: Ast)
    requires WellFormed(l) && Proper(Print(l)) && Priority(op) > 0
    ensures var e := Shield(LeftOk(op, Print(l)), Print(l)); Proper(e) && TreeOf(e) == TreeOf(Print(l)) && LeftOk(op, e)
  {
    hide Priority, LeftToRight, Print, WellFormed;
  }

  lemma ShieldRight(op: Op, r: Ast)
    requires WellFormed(r) && Proper(Print(r)) && Priority(op) > 0
    ensures var e := Shield(RightOk(op, Print(r)), Print(r)); Proper(e) && TreeOf(e) == TreeOf(Print(r)) && RightOk(op, e)
  {
    hide Priority, LeftToRight, Print, WellFormed;
  }

  /** With the parentheses that it needs, an operand is no longer than it was written. */
  predicate Shorter(e: Cst) {
    && WellFormed(TreeOf(e)) && |Tokens(Print(TreeOf(e)))| + (if e.Group? then 2 else 0) <= |Tokens(e)|
    && (!e.Group? ==> Level(Print(TreeOf(e))) == Level(e))
  }

  lemma ShieldedLeft(op: Op, x: Cst)
    requires Shorter(x) && LeftOk(op, x)
    ensures |Tokens(Shield(LeftOk(op, Print(TreeOf(x))), Print(TreeOf(x))))| <= |Tokens(x)|
  {
    hide Priority, LeftToRight, Print, WellFormed, Level, TreeOf;
    GroupTokens(Print(TreeOf(x)));
  }

  lemma ShieldedRight(op: Op, x: Cst)
    requires Shorter(x) && RightOk(op, x)
    ensures |Tokens(Shield(RightOk(op, Print(TreeOf(x))), Print(TreeOf(x))))| <= |Tokens(x)|
  {
    hide Priority, LeftToRight, Print, WellFormed, Level, TreeOf;
    GroupTokens(Print(TreeOf(x)));
  }

  lemma GroupTokens(x: Cst)
    ensures |Tokens(Group(x))| == |Tokens(x)| + 2 && TreeOf(Group(x)) == TreeOf(x)
  {
  }

  /** No expression with the same tree has fewer parentheses than the printed one. */
  lemma {:induction false} PrintShortest(e: Cst)
    requires Proper(e)
    ensures Shorter(e)
    decreases e, 1
  {
    hide Priority, LeftToRight, LeftOk, RightOk, IsInfix, IsPrefix, Shorter, Shield, Print, WellFormed;
    match e
    case Name(_) => NameShortest(e);
    case Group(x) => PrintShortest(x); GroupShortest(x);
    case Prefix(tok, x) => PrintShortest(x); ShieldedRight(Pre(tok), x); PrefixShortest(e);
    case Postfix(x, tok) => PrintShortest(x); ShieldedLeft(Post(tok), x); PostfixShortest(e);
    case Binary(l, tok, r) =>
      PrintShortest(l); ShieldedLeft(Plain(tok), l);
      PrintShortest(r); ShieldedRight(Plain(tok), r);
      BinaryShortest(e);
    case Ternary(l, c, r) =>
      PrintShortest(l); ShieldedLeft(Plain(Question), l);
      PrintShortest(c);
      PrintShortest(r); ShieldedRight(Plain(Question), r);
      TernaryShortest(e);
    case Call(x, args) =>
      PrintShortest(x); ShieldedLeft(Plain(LParen), x);
      if args.Some? { PrintShortest(args.value); }
      CallShortest(e);
    case Index(x, i) =>
      PrintShortest(x); ShieldedLeft(Plain(LBracket), x);
      PrintShortest(i);
      IndexShortest(e);
  }

  lemma NameShortest(e: Cst)
    requires e.Name? && Proper(e)
    ensures Shorter(e)
  {
  }

  lemma GroupShortest(x: Cst)
    requires Shorter(x)
    ensures Shorter(Group(x))
  {
    hide Print, WellFormed, Level;
    GroupTokens(x);
  }

  lemma PrefixShortest(e: Cst)
    requires e.Prefix? && Proper(e) && Shorter(e.body)
    requires |Tokens(Shield(RightOk(Pre(e.tok), Print(TreeOf(e.body))), Print(TreeOf(e.body))))| <= |Tokens(e.body)|
    ensures Shorter(e)
  {
    hide Priority, LeftToRight, LeftOk, RightOk, IsPrefix, Shield;
  }

  lemma PostfixShortest(e: Cst)
    requires e.Postfix? && Proper(e) && Shorter(e.body)
    requires |Tokens(Shield(LeftOk(Post(e.tok), Print(TreeOf(e.body))), Print(TreeOf(e.body))))| <= |Tokens(e.body)|
    ensures Shorter(e)
  {
    hide Priority, LeftToRight, LeftOk, RightOk, Shield;
  }

  lemma BinaryShortest(e: Cst)
    requires e.Binary? && Proper(e) && Shorter(e.left) && Shorter(e.right)
    requires |Tokens(Shield(LeftOk(Plain(e.tok), Print(TreeOf(e.left))), Print(TreeOf(e.left))))| <= |Tokens(e.left)|
    requires |Tokens(Shield(RightOk(Plain(e.tok), Print(TreeOf(e.right))), Print(TreeOf(e.right))))| <= |Tokens(e.right)|
    ensures Shorter(e)
  {
    hide Priority, LeftToRight, LeftOk, RightOk, Shield;
  }

  lemma TernaryShortest(e: Cst)
    requires e.Ternary? && Proper(e) && Shorter(e.left) && Shorter(e.center) && Shorter(e.right)
    requires |Tokens(Shield(LeftOk(Plain(Question), Print(TreeOf(e.left))), Print(TreeOf(e.left))))| <= |Tokens(e.left)|
    requires |Tokens(Shield(RightOk(Plain(Question), Print(TreeOf(e.right))), Print(TreeOf(e.right))))| <= |Tokens(e.right)|
    ensures Shorter(e)
  {
    hide Priority, LeftToRight, LeftOk, RightOk, Shield, IsInfix;
  }

  lemma CallShortest(e: Cst)
    requires e.Call? && Proper(e) && Shorter(e.body) && (e.args.Some? ==> Shorter(e.args.value))
    requires |Tokens(Shield(LeftOk(Plain(LParen), Print(TreeOf(e.body))), Print(TreeOf(e.body))))| <= |Tokens(e.body)|
    ensures Shorter(e)
  {
    hide Priority, LeftToRight, LeftOk, RightOk, Shield, IsInfix;
  }

  lemma IndexShortest(e: Cst)
    requires e.Index? && Proper(e) && Shorter(e.body) && Shorter(e.index)
    requires |Tokens(Shield(LeftOk(Plain(LBracket), Print(TreeOf(e.body))), Print(TreeOf(e.body))))| <= |Tokens(e.body)|
    ensures Shorter(e)
  {
    hide Priority, LeftToRight, LeftOk, RightOk, Shield, IsInfix;
  }

  /** Print, then parse: every well-formed tree comes back. */
  lemma RoundTrip(t: Ast, toks: seq<Tok>, pos: nat, ends: seq<Tok>)
    requires WellFormed(t) && At(toks, pos, Tokens(Print(t))) && Clear(Print(t), ends)
    requires pos + |Tokens(Print(t))| == |toks| || toks[pos + |Tokens(Print(t))|] in ends
    ensures Parse(toks, pos, ends) == Some((t, pos + |Tokens(Print(t))|))
  {
    hide Print, Proper, Tokens, WellFormed, Parse, Clear;
    PrintProper(t);
    ParseReads(Print(t), toks, pos, ends);
  }
}
