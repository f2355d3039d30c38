/** Which of the inputs that ast_parsev accepts are expressions of C: the parser does not look at operands,
    and its tables know only how tightly operators bind. */
module CSentences {
  import opened Options
  import opened CAst
  import opened CAstReading
  import opened CGrammar
  import opened CBlanks
  import opened CAccepted

  /** What the grammar asks for and the tables do not: operands are words, what is assigned to is a unary
      expression, and what follows `.` or `->` is a name. */
  predicate Strict(e: Cst) {
    match e
    case Name(tok) => tok.Word?
    case Group(x) => Strict(x)
    case Prefix(_, x) => Strict(x)
    case Postfix(x, _) => Strict(x)
    case Binary(l, tok, r) =>
      Strict(l) && Strict(r) && (AssignmentOperator(tok) ==> Level(l) <= 2) && (tok in {Dot, Arrow} ==> r.Name?)
    case Ternary(l, c, r) => Strict(l) && Strict(c) && Strict(r)
    case Call(x, args) => Strict(x) && (args.Some? ==> Strict(args.value))
    case Index(x, i) => Strict(x) && Strict(i)
  }

  /** The nonterminal whose phrases may have operators of priority k, and none weaker. */
  function AtLevel(k: nat): (n: NonTerminal)
    requires k <= 15
    ensures Weakest(n) == k
  {
    match k
    case 0 => PrimaryX
    case 1 => PostfixX
    case 2 => UnaryX
    case 3 => Multiplicative
    case 4 => Additive
    case 5 => ShiftX
    case 6 => Relational
    case 7 => Equality
    case 8 => AndX
    case 9 => ExclusiveOr
    case 10 => InclusiveOr
    case 11 => LogicalAnd
    case 12 => LogicalOr
    case 13 => Conditional
    case 14 => AssignmentX
    case 15 => ExpressionX
  }

  lemma SameWeakest(m: NonTerminal, n: NonTerminal)
    requires Weakest(m) == Weakest(n)
    ensures m == n
  {
  }

  lemma NextWeakest(n: NonTerminal)
    requires n != PrimaryX
    ensures Weakest(Next(n)) == Weakest(n) - 1
  {
  }

  /** A phrase is one of every nonterminal that admits weaker operators. */
  lemma {:induction false} DerivesUp(m: NonTerminal, n: NonTerminal, e: Cst)
    requires Derives(m, e) && Weakest(m) <= Weakest(n)
    ensures Derives(n, e)
    decreases Weakest(n)
  {
    hide Own;
    if Weakest(m) == Weakest(n) {
      SameWeakest(m, n);
    } else {
      NextWeakest(n);
      DerivesUp(m, Next(n), e);
    }
  }

  /** e is a phrase of the nonterminal of its weakest operator. */
  predicate Placed(e: Cst) {
    Level(e) <= 15 && Derives(AtLevel(Level(e)), e)
  }

  lemma PlacedUp(n: NonTerminal, e: Cst)
    requires Placed(e) && Level(e) <= Weakest(n)
    ensures Derives(n, e)
  {
    hide Derives, Level;
    DerivesUp(AtLevel(Level(e)), n, e);
  }

  lemma PriorityBound(op: Op)
    ensures !op.Blank? ==> Priority(op) <= 15
  {
  }

  lemma {:induction false} StrictPlaced(e: Cst)
    requires Loose(e) && Strict(e)
    ensures Placed(e)
  {
    hide Placed, LeftOk, RightOk, IsInfix, IsPrefix, Level;
    match e
    case Name(_) => NamePlaced(e);
    case Group(x) => StrictPlaced(x); OnePlaced(e);
    case Prefix(_, x) => StrictPlaced(x); OnePlaced(e);
    case Postfix(x, _) => StrictPlaced(x); OnePlaced(e);
    case Binary(l, _, r) => StrictPlaced(l); StrictPlaced(r); BinaryPlaced(e);
    case Ternary(l, c, r) => StrictPlaced(l); StrictPlaced(c); StrictPlaced(r); TernaryPlaced(e);
    case Call(x, args) =>
      StrictPlaced(x);
      if args.Some? { StrictPlaced(args.value); }
      SuffixPlaced(e);
    case Index(x, i) => StrictPlaced(x); StrictPlaced(i); SuffixPlaced(e);
  }

  lemma NamePlaced(e: Cst)
    requires e.Name? && e.tok.Word?
    ensures Placed(e)
  {
    assert Own(PrimaryX, e);
  }

  lemma OnePlaced(e: Cst)
    requires (e.Group? || e.Prefix? || e.Postfix?) && Loose(e) && Placed(e.body)
    ensures Placed(e)
  {
    hide Derives, Placed;
    var n := if e.Group? then ExpressionX else if e.Prefix? then UnaryX else PostfixX;
    assert Level(e.body) <= Weakest(n) by { BodyLevel(e); PlacedLevel(e.body); }
    PlacedUp(n, e.body);
    OwnPlaced(if e.Group? then PrimaryX else n, e);
  }

  lemma BodyLevel(e: Cst)
    requires (e.Prefix? || e.Postfix? || e.Group?) && Loose(e)
    ensures e.Prefix? ==> Level(e.body) <= 2
    ensures e.Postfix? ==> Level(e.body) <= 1
  {
  }

  lemma PlacedLevel(e: Cst)
    requires Placed(e)
    ensures Level(e) <= 15
  {
  }

  /** A production of the nonterminal of its level. */
  lemma OwnPlaced(n: NonTerminal, e: Cst)
    requires Own(n, e) && Weakest(n) == Level(e)
    ensures Placed(e)
  {
    hide Own, Level;
    SameWeakest(n, AtLevel(Level(e)));
  }

  lemma TernaryPlaced(e: Cst)
    requires e.Ternary? && Loose(e) && Placed(e.left) && Placed(e.center) && Placed(e.right)
    ensures Placed(e)
  {
    hide Derives, Placed, Level;
    TernaryLevel(e);
    PlacedLevel(e.center);
    PlacedUp(LogicalOr, e.left);
    PlacedUp(ExpressionX, e.center);
    PlacedUp(Conditional, e.right);
    OwnPlaced(Conditional, e);
  }

  lemma TernaryLevel(e: Cst)
    requires e.Ternary? && Loose(e)
    ensures Level(e) == 13 && Level(e.left) <= 12 && Level(e.right) <= 13
  {
  }

  lemma SuffixPlaced(e: Cst)
    requires (e.Call? || e.Index?) && Loose(e) && Placed(e.body)
    requires e.Call? && e.args.Some? ==> Placed(e.args.value)
    requires e.Index? ==> Placed(e.index)
    ensures Placed(e)
  {
    hide Derives, Placed, Level;
    SuffixLevel(e);
    PlacedUp(PostfixX, e.body);
    if e.Index? {
      PlacedLevel(e.index);
      PlacedUp(ExpressionX, e.index);
    } else if e.args.Some? {
      PlacedLevel(e.args.value);
      PlacedUp(ExpressionX, e.args.value);
    }
    OwnPlaced(PostfixX, e);
  }

  lemma SuffixLevel(e: Cst)
    requires (e.Call? || e.Index?) && Loose(e)
    ensures Level(e) == 1 && Level(e.body) <= 1
  {
  }

  lemma BinaryPlaced(e: Cst)
    requires e.Binary? && Loose(e) && Strict(e) && Placed(e.left) && Placed(e.right)
    ensures Placed(e)
  {
    hide Derives, Placed, Own, Loose, Strict;
    var n := BinaryLevel(e);
    PlacedUp(LeftNonTerminal(n), e.left);
    if e.tok !in {Dot, Arrow} {
      PlacedUp(RightNonTerminal(n), e.right);
    }
    BinaryOwned(n, e);
    OwnPlaced(n, e);
  }

  /** The nonterminal of a binary operator, and what its operands may be. */
  lemma BinaryLevel(e: Cst) returns (n: NonTerminal)
    requires e.Binary? && Loose(e) && Strict(e)
    ensures n != PrimaryX && Weakest(n) == Level(e) && Level(e) == Priority(Plain(e.tok)) && IsInfix(e.tok)
    ensures Level(e.left) <= Weakest(LeftNonTerminal(n))
    ensures if e.tok in {Dot, Arrow} then e.right.Name? && e.right.tok.Word? else Level(e.right) <= Weakest(RightNonTerminal(n))
  {
    n := AtLevel(Priority(Plain(e.tok)));
  }

  lemma BinaryOwned(n: NonTerminal, e: Cst)
    requires e.Binary? && n != PrimaryX && Weakest(n) == Priority(Plain(e.tok)) && IsInfix(e.tok)
    requires Derives(LeftNonTerminal(n), e.left)
    requires if e.tok in {Dot, Arrow} then e.right.Name? && e.right.tok.Word? else Derives(RightNonTerminal(n), e.right)
    ensures Own(n, e)
  {
    hide Derives;
  }

  // ----- the other way round -----

  lemma {:induction false} ProperLoose(e: Cst)
    requires Proper(e)
    ensures Loose(e)
  {
    hide LeftOk, RightOk, IsInfix, IsPrefix;
    match e
    case Name(_) =>
    case Group(x) => ProperLoose(x);
    case Prefix(_, x) => ProperLoose(x);
    case Postfix(x, _) => ProperLoose(x);
    case Binary(l, _, r) => ProperLoose(l); ProperLoose(r);
    case Ternary(l, c, r) => ProperLoose(l); ProperLoose(c); ProperLoose(r);
    case Call(x, args) =>
      ProperLoose(x);
      if args.Some? { ProperLoose(args.value); }
    case Index(x, i) => ProperLoose(x); ProperLoose(i);
  }

  lemma {:induction false} DerivesStrict(n: NonTerminal, e: Cst)
    requires Derives(n, e)
    ensures Strict(e)
    decreases e, 1 + Height(n)
  {
    hide Own, Strict, Level;
    if Own(n, e) {
      OwnStrict(n, e);
    } else {
      DerivesStrict(Next(n), e);
    }
  }

  lemma {:induction false} OwnStrict(n: NonTerminal, e: Cst)
    requires Own(n, e)
    ensures Strict(e)
    decreases e, 0
  {
    hide Derives, Own, Level;
    if e.Binary? {
      BinaryOwn(n, e);
      AssignsToUnary(n, e);
      DerivesProper(LeftNonTerminal(n), e.left);
      DerivesStrict(LeftNonTerminal(n), e.left);
      DerivesStrict(RightNonTerminal(n), e.right);
    } else {
      OtherOwn(n, e);
      match e
      case Name(_) =>
      case Group(x) => DerivesStrict(ExpressionX, x);
      case Prefix(_, x) => DerivesStrict(UnaryX, x);
      case Postfix(x, _) => DerivesStrict(PostfixX, x);
      case Index(x, i) => DerivesStrict(PostfixX, x); DerivesStrict(ExpressionX, i);
      case Call(x, args) =>
        DerivesStrict(PostfixX, x);
        if args.Some? { DerivesStrict(ExpressionX, args.value); }
      case Ternary(l, c, r) =>
        DerivesStrict(LogicalOr, l); DerivesStrict(ExpressionX, c); DerivesStrict(Conditional, r);
    }
  }

  lemma AssignsToUnary(n: NonTerminal, e: Cst)
    requires e.Binary? && Own(n, e)
    ensures AssignmentOperator(e.tok) ==> LeftNonTerminal(n) == UnaryX
    ensures e.tok in {Dot, Arrow} ==> e.right.Name?
  {
    hide Derives;
  }

  // ----- the result -----

  /** The text is a sentence of the grammar. */
  ghost predicate IsSentence(toks: seq<Tok>) {
    exists e :: Derives(ExpressionX, e) && Tokens(e) == toks
  }

  /** It has a reading that is strict. */
  ghost predicate HasStrictReading(toks: seq<Tok>, ast: Ast) {
    exists e :: Reading(e, toks, ast) && Strict(e)
  }

  /** A reading of what is accepted derives from the grammar exactly if it is strict. */
  lemma ReadingDerives(e: Cst)
    requires Loose(e)
    ensures Derives(ExpressionX, e) <==> Strict(e)
  {
    hide Derives, Loose, Strict;
    if Strict(e) {
      StrictPlaced(e);
      PlacedLevel(e);
      PlacedUp(ExpressionX, e);
    }
    if Derives(ExpressionX, e) {
      DerivesStrict(ExpressionX, e);
    }
  }

  /** What the parser accepts, blanks left aside, is an expression of C exactly if it can be read with words
      for operands, a unary expression before every assignment operator and a name behind every dot. */
  lemma SentenceIff(toks: seq<Tok>)
    requires Parse(toks, 0, []).Some?
    ensures IsSentence(Dense(toks)) <==> HasStrictReading(Dense(toks), Parse(toks, 0, []).value.0)
  {
    hide Parse, Loose, Tokens, TreeOf, Strict, Derives;
    var d, ast := Dense(toks), Parse(toks, 0, []).value.0;
    if e :| Derives(ExpressionX, e) && Tokens(e) == d {
      BlanksIff(toks);
      assert d[0..0 + |d|] == d;
      ParsesTheGrammar(e, d, 0, []);
      DerivesProper(ExpressionX, e);
      ProperLoose(e);
      ReadingDerives(e);
      assert Reading(e, d, ast);
    }
    if e :| Reading(e, d, ast) && Strict(e) {
      ReadingDerives(e);
    }
  }

  /** The smallest inputs that are accepted and are none: a bracket or a colon where an operand should be. */
  lemma StrayOperand(a: string, tok: Tok)
    requires tok in {RParen, LBracket, RBracket, Colon}
    ensures var toks, tree := [Word(a), Plus, tok], Node(Plain(Plus), Leaf(Word(a)), None, Leaf(tok));
            Parse(toks, 0, []) == Some((tree, 3)) && !IsSentence(toks)
  {
    hide Loop, Step, Finish, Rewind, Parse, Derives, Tokens, Proper, Shorter;
    var toks, tree := [Word(a), Plus, tok], Node(Plain(Plus), Leaf(Word(a)), None, Leaf(tok));
    StrayParsed(a, tok);
    if e :| Derives(ExpressionX, e) && Tokens(e) == toks {
      assert toks[0..0 + |toks|] == toks;
      ParsesTheGrammar(e, toks, 0, []);
      DerivesProper(ExpressionX, e);
      PrintShortest(e);
      ShorterWellFormed(e);
    }
  }

  lemma ShorterWellFormed(e: Cst)
    requires Shorter(e)
    ensures WellFormed(TreeOf(e))
  {
  }

  lemma StrayParsed(a: string, tok: Tok)
    requires tok in {RParen, LBracket, RBracket, Colon}
    ensures Parse([Word(a), Plus, tok], 0, []) == Some((Node(Plain(Plus), Leaf(Word(a)), None, Leaf(tok)), 3))
  {
    hide Loop, Step, Finish, Rewind;
    var toks := [Word(a), Plus, tok];
    var s1, s2 := State([], [Leaf(Word(a))], []), State([Plain(Plus)], [Leaf(Word(a))], [None]);
    var s3 := State([Plain(Plus)], [Leaf(Word(a)), Leaf(tok)], [None]);
    assert PushOperand(EMPTY, Leaf(Word(a))) == s1 && Push(s1, Plain(Plus), None) == s2 && PushOperand(s2, Leaf(tok)) == s3;
    TurnWord(toks, 0, EMPTY);
    LoopTurns(toks, 0, [], EMPTY, false, s1, true, 1);
    OneOperator(s2);
    TurnInfix(toks, 1, s1, s2);
    LoopTurns(toks, 1, [], s1, true, s2, false, 2);
    TurnStray(toks, 2, s2);
    LoopTurns(toks, 2, [], s2, false, s3, true, 3);
    EndsAt(toks, s3);
    SumFinished(Leaf(Word(a)), Leaf(tok));
    NotWhole(toks, 0, []);
  }

  lemma TurnStray(toks: seq<Tok>, pos: nat, st: State)
    requires pos < |toks| && toks[pos] in {RParen, LBracket, RBracket, Colon} && Balanced(st)
    ensures Step(toks, pos, st, false) == Some((PushOperand(st, Leaf(toks[pos])), true, pos + 1))
  {
  }

  lemma SumFinished(l: Ast, r: Ast)
    ensures Finish(State([Plain(Plus)], [l, r], [None]), true) == Some(Node(Plain(Plus), l, None, r))
  {
    hide Rewind;
    TwoOperators(Plain(Plus), Blank, l, r);
    assert Push(State([Plain(Plus)], [l, r], [None]), Blank, None) == State([Plain(Plus), Blank], [l, r], [None, None]);
  }
}
