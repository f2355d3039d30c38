/** The trees that are read from tokens are those that the tokens spell: nothing is lost, added or moved, and
    whatever spells a program is read (attic/gstaging.c). */
module GSpelling {
  import opened Options
  import opened GSyntax

  // ----- the tokens of a tree -----

  function SpellPush(p: Push): Token {
    match p
    case Num(value, addr) => NumToken(value, addr)
    case Ref(name, addr) => NameToken(name, addr)
    case Str(bytes, _, _) => StringToken(bytes)
  }

  function SpellPushes(ps: Pushes): seq<Token> {
    match ps
    case NoPush => []
    case Then(p, rest) => [SpellPush(p)] + SpellPushes(rest)
  }

  function SpellItem(item: Item): (t: seq<Token>)
    ensures t != [] && t[0] != ElseWord && t[0] != CloseBrace
    decreases item, 0
  {
    match item
    case Expr(p) => [SpellPush(p)]
    case Semi => [Semicolon]
    case Ret => [RetWord]
    case Local(name) => [DollarName(name)]
    case Indirect(operand) => [Backslash(operand)]
    case If(guard, _, thn, els) => [IfWord] + (SpellPushes(guard) + (SpellBlock(thn) + SpellElse(els)))
    case While(_, _, guard, body) => [WhileWord] + (SpellPushes(guard) + SpellBlock(body))
  }

  function SpellElse(els: Else): seq<Token>
    decreases els, 0
  {
    match els
    case NoElse => []
    case ElseBlock(_, block) => [ElseWord] + SpellBlock(block)
  }

  function SpellBlock(b: Block): (t: seq<Token>)
    ensures t != [] && t[0] == OpenBrace
    decreases b, 1
  {
    [OpenBrace] + SpellItems(b)
  }

  /** The statements of a block, and its closing brace. */
  function SpellItems(b: Block): (t: seq<Token>)
    ensures t != [] && t[0] != ElseWord
    decreases b, 0
  {
    match b
    case Nil => [CloseBrace]
    case Cons(item, rest) => SpellItem(item) + SpellItems(rest)
  }

  function SpellDecl(d: Decl): (t: seq<Token>)
    ensures t != []
  {
    match d
    case Fun(name, arity, body) => [FunHead(name, arity)] + SpellBlock(body)
    case Ifun(name, arity) => [IfunHead(name, arity)]
    case Const(name, operand) => [ConstHead(name, operand)]
    case Global(name) => [DollarName(name)]
    case Array(name, operand) => [PercentName(name, operand)]
  }

  function SpellProgram(p: Program): seq<Token> {
    match p
    case End => []
    case Decls(d, rest) => SpellDecl(d) + SpellProgram(rest)
  }

  // ----- what is read is what is spelled -----

  lemma Cut(toks: seq<Token>, i: nat, j: nat, k: nat)
    requires i <= j <= k <= |toks|
    ensures toks[i..j] + toks[j..k] == toks[i..k]
  {
  }

  lemma CutOne(toks: seq<Token>, i: nat, k: nat)
    requires i < k <= |toks|
    ensures [toks[i]] + toks[i + 1..k] == toks[i..k]
  {
  }

  lemma {:induction false} GuardSpelled(toks: seq<Token>, pos: nat, lab: nat)
    requires pos <= |toks| && ParseGuard(toks, pos, lab).Some?
    ensures var (ps, p, _) := ParseGuard(toks, pos, lab).value; toks[pos..p] == SpellPushes(ps)
    decreases |toks| - pos
  {
    if toks[pos] != OpenBrace {
      GuardSpelled(toks, pos + 1, lab + LabelsOf(toks[pos]));
      CutOne(toks, pos, ParseGuard(toks, pos, lab).value.1);
    }
  }

  lemma {:induction false} BlockSpelled(toks: seq<Token>, pos: nat, lab: nat)
    requires pos <= |toks| && ParseBlock(toks, pos, lab).Some?
    ensures var (b, p, _) := ParseBlock(toks, pos, lab).value; toks[pos..p] == SpellBlock(b)
    decreases |toks| - pos, 0
  {
    hide ParseItems, SpellItems;
    ItemsSpelled(toks, pos + 1, lab);
    CutOne(toks, pos, ParseBlock(toks, pos, lab).value.1);
  }

  lemma {:induction false} ItemsSpelled(toks: seq<Token>, pos: nat, lab: nat)
    requires pos <= |toks| && ParseItems(toks, pos, lab).Some?
    ensures var (b, p, _) := ParseItems(toks, pos, lab).value; toks[pos..p] == SpellItems(b)
    decreases |toks| - pos, 2
  {
    hide ParseItem, SpellItem;
    if toks[pos] != CloseBrace {
      var (item, p, l) := ParseItem(toks, pos, lab).value;
      ItemSpelled(toks, pos, lab);
      ItemsSpelled(toks, p, l);
      Cut(toks, pos, p, ParseItems(toks, p, l).value.1);
    }
  }

  lemma {:induction false} ItemSpelled(toks: seq<Token>, pos: nat, lab: nat)
    requires pos < |toks| && ParseItem(toks, pos, lab).Some?
    ensures var (item, p, _) := ParseItem(toks, pos, lab).value; toks[pos..p] == SpellItem(item)
    decreases |toks| - pos, 1
  {
    hide ParseGuard, ParseBlock, ParseElse, SpellPushes, SpellBlock, SpellElse;
    match toks[pos]
    case IfWord =>
      var (guard, p, elseLab) := ParseGuard(toks, pos + 1, lab).value;
      var (thn, p', l') := ParseBlock(toks, p, elseLab + 1).value;
      var (els, p'', l'') := ParseElse(toks, p', l').value;
      GuardSpelled(toks, pos + 1, lab);
      BlockSpelled(toks, p, elseLab + 1);
      ElseSpelled(toks, p', l');
      Cut(toks, p, p', p'');
      Cut(toks, pos + 1, p, p'');
      CutOne(toks, pos, p'');
    case WhileWord =>
      var (guard, p, l) := ParseGuard(toks, pos + 1, lab + 2).value;
      var (body, p', l') := ParseBlock(toks, p, l).value;
      GuardSpelled(toks, pos + 1, lab + 2);
      BlockSpelled(toks, p, l);
      Cut(toks, pos + 1, p, p');
      CutOne(toks, pos, p');
    case _ =>
  }

  lemma {:induction false} ElseSpelled(toks: seq<Token>, pos: nat, lab: nat)
    requires pos <= |toks| && ParseElse(toks, pos, lab).Some?
    ensures var (els, p, _) := ParseElse(toks, pos, lab).value; toks[pos..p] == SpellElse(els)
    decreases |toks| - pos, 3
  {
    hide ParseBlock, SpellBlock;
    if pos < |toks| && toks[pos] == ElseWord {
      BlockSpelled(toks, pos + 1, lab + 1);
      CutOne(toks, pos, ParseElse(toks, pos, lab).value.1);
    }
  }

  lemma DeclSpelled(toks: seq<Token>, pos: nat, lab: nat)
    requires pos < |toks| && ParseDecl(toks, pos, lab).Some?
    ensures var (d, p, _) := ParseDecl(toks, pos, lab).value; toks[pos..p] == SpellDecl(d)
  {
    hide ParseBlock, SpellBlock;
    if toks[pos].FunHead? {
      BlockSpelled(toks, pos + 1, lab);
      CutOne(toks, pos, ParseDecl(toks, pos, lab).value.1);
    }
  }

  lemma {:induction false} ProgramSpelled(toks: seq<Token>, pos: nat, lab: nat)
    requires pos <= |toks| && ParseProgram(toks, pos, lab).Some?
    ensures toks[pos..] == SpellProgram(ParseProgram(toks, pos, lab).value.0)
    decreases |toks| - pos
  {
    hide ParseDecl, SpellDecl;
    if pos < |toks| {
      var (d, p, l) := ParseDecl(toks, pos, lab).value;
      DeclSpelled(toks, pos, lab);
      ProgramSpelled(toks, p, l);
      Cut(toks, pos, p, |toks|);
    }
  }

  // ----- what is spelled is read -----

  // A tree without the numbers of its labels.

  function BarePush(p: Push): Push {
    if p.Str? then Str(p.bytes, 0, 0) else p
  }

  function BarePushes(ps: Pushes): Pushes {
    if ps.NoPush? then NoPush else Then(BarePush(ps.head), BarePushes(ps.tail))
  }

  function BareItem(item: Item): Item
    decreases item, 0
  {
    match item
    case Expr(p) => Expr(BarePush(p))
    case If(guard, _, thn, els) => If(BarePushes(guard), 0, BareBlock(thn), BareElse(els))
    case While(_, _, guard, body) => While(0, 0, BarePushes(guard), BareBlock(body))
    case _ => item
  }

  function BareElse(els: Else): Else
    decreases els, 0
  {
    if els.NoElse? then NoElse else ElseBlock(0, BareBlock(els.block))
  }

  function BareBlock(b: Block): Block
    decreases b, 0
  {
    if b.Nil? then Nil else Cons(BareItem(b.head), BareBlock(b.tail))
  }

  function BareProgram(p: Program): Program {
    if p.End? then End
    else Decls(if p.head.Fun? then p.head.(body := BareBlock(p.head.body)) else p.head, BareProgram(p.tail))
  }

  predicate Stands(toks: seq<Token>, pos: nat, part: seq<Token>) {
    pos + |part| <= |toks| && toks[pos..pos + |part|] == part
  }

  lemma StandsParts(toks: seq<Token>, pos: nat, a: seq<Token>, b: seq<Token>)
    requires Stands(toks, pos, a + b)
    ensures Stands(toks, pos, a) && Stands(toks, pos + |a|, b)
  {
    var s := toks[pos..pos + |a + b|];
    assert s[..|a|] == a && s[|a|..] == b;
    assert toks[pos..pos + |a|] == s[..|a|] && toks[pos + |a|..pos + |a| + |b|] == s[|a|..];
  }

  lemma StandsFirst(toks: seq<Token>, pos: nat, part: seq<Token>)
    requires Stands(toks, pos, part) && part != []
    ensures pos < |toks| && toks[pos] == part[0]
  {
    assert toks[pos..pos + |part|][0] == part[0];
  }

  lemma {:induction false} GuardRead(toks: seq<Token>, pos: nat, lab: nat, ps: Pushes)
    requires Stands(toks, pos, SpellPushes(ps)) && pos + |SpellPushes(ps)| < |toks| && toks[pos + |SpellPushes(ps)|] == OpenBrace
    ensures var r := ParseGuard(toks, pos, lab);
            r.Some? && BarePushes(r.value.0) == BarePushes(ps) && r.value.1 == pos + |SpellPushes(ps)|
    decreases ps
  {
    if ps.Then? {
      StandsParts(toks, pos, [SpellPush(ps.head)], SpellPushes(ps.tail));
      StandsFirst(toks, pos, [SpellPush(ps.head)]);
      GuardRead(toks, pos + 1, lab + LabelsOf(toks[pos]), ps.tail);
    }
  }

  lemma {:induction false} BlockRead(toks: seq<Token>, pos: nat, lab: nat, b: Block)
    requires Stands(toks, pos, SpellBlock(b))
    ensures var r := ParseBlock(toks, pos, lab);
            r.Some? && BareBlock(r.value.0) == BareBlock(b) && r.value.1 == pos + |SpellBlock(b)|
    decreases b, 1
  {
    hide ParseItems, SpellItems, BareBlock;
    StandsParts(toks, pos, [OpenBrace], SpellItems(b));
    StandsFirst(toks, pos, [OpenBrace]);
    ItemsRead(toks, pos + 1, lab, b);
  }

  lemma {:induction false} ItemsRead(toks: seq<Token>, pos: nat, lab: nat, b: Block)
    requires Stands(toks, pos, SpellItems(b))
    ensures var r := ParseItems(toks, pos, lab);
            r.Some? && BareBlock(r.value.0) == BareBlock(b) && r.value.1 == pos + |SpellItems(b)|
    decreases b, 0
  {
    hide ParseItem, SpellItem, BareItem, Stands;
    StandsFirst(toks, pos, SpellItems(b));
    if b.Cons? {
      StandsParts(toks, pos, SpellItem(b.head), SpellItems(b.tail));
      var p := pos + |SpellItem(b.head)|;
      StandsFirst(toks, p, SpellItems(b.tail));
      StandsFirst(toks, pos, SpellItem(b.head));
      ItemRead(toks, pos, lab, b.head);
      ItemsRead(toks, p, ParseItem(toks, pos, lab).value.2, b.tail);
    }
  }

  /** An item, with something other than `else` behind it. */
  lemma {:induction false} ItemRead(toks: seq<Token>, pos: nat, lab: nat, item: Item)
    requires pos < |toks| && Stands(toks, pos, SpellItem(item))
    requires pos + |SpellItem(item)| < |toks| && toks[pos + |SpellItem(item)|] != ElseWord
    ensures var r := ParseItem(toks, pos, lab);
            r.Some? && BareItem(r.value.0) == BareItem(item) && r.value.1 == pos + |SpellItem(item)|
    decreases item, 1
  {
    hide ParseGuard, ParseBlock, ParseElse, SpellPushes, SpellBlock, SpellElse, BareBlock, BareElse, BarePushes, Stands;
    StandsFirst(toks, pos, SpellItem(item));
    match item
    case If(_, _, _, _) => IfRead(toks, pos, lab, item);
    case While(_, _, guard, body) =>
      StandsParts(toks, pos, [WhileWord], SpellPushes(guard) + SpellBlock(body));
      StandsParts(toks, pos + 1, SpellPushes(guard), SpellBlock(body));
      var p := pos + 1 + |SpellPushes(guard)|;
      StandsFirst(toks, p, SpellBlock(body));
      GuardRead(toks, pos + 1, lab + 2, guard);
      BlockRead(toks, p, ParseGuard(toks, pos + 1, lab + 2).value.2, body);
    case _ =>
  }

  lemma {:induction false} IfRead(toks: seq<Token>, pos: nat, lab: nat, item: Item)
    requires item.If? && pos < |toks| && Stands(toks, pos, SpellItem(item))
    requires pos + |SpellItem(item)| < |toks| && toks[pos + |SpellItem(item)|] != ElseWord
    ensures var r := ParseItem(toks, pos, lab);
            r.Some? && BareItem(r.value.0) == BareItem(item) && r.value.1 == pos + |SpellItem(item)|
    decreases item, 0
  {
    hide ParseGuard, ParseBlock, ParseElse, SpellPushes, SpellBlock, SpellElse, BareBlock, BareElse, BarePushes, Stands;
    var If(guard, _, thn, els) := item;
    StandsFirst(toks, pos, SpellItem(item));
    StandsParts(toks, pos, [IfWord], SpellPushes(guard) + (SpellBlock(thn) + SpellElse(els)));
    StandsParts(toks, pos + 1, SpellPushes(guard), SpellBlock(thn) + SpellElse(els));
    var p := pos + 1 + |SpellPushes(guard)|;
    StandsParts(toks, p, SpellBlock(thn), SpellElse(els));
    StandsFirst(toks, p, SpellBlock(thn));
    GuardRead(toks, pos + 1, lab, guard);
    var elseLab := ParseGuard(toks, pos + 1, lab).value.2;
    BlockRead(toks, p, elseLab + 1, thn);
    ElseRead(toks, p + |SpellBlock(thn)|, ParseBlock(toks, p, elseLab + 1).value.2, els);
  }

  lemma {:induction false} ElseRead(toks: seq<Token>, pos: nat, lab: nat, els: Else)
    requires Stands(toks, pos, SpellElse(els))
    requires pos + |SpellElse(els)| < |toks| && toks[pos + |SpellElse(els)|] != ElseWord
    ensures var r := ParseElse(toks, pos, lab);
            r.Some? && BareElse(r.value.0) == BareElse(els) && r.value.1 == pos + |SpellElse(els)|
    decreases els, 2
  {
    hide ParseBlock, SpellBlock, BareBlock;
    if els.ElseBlock? {
      StandsParts(toks, pos, [ElseWord], SpellBlock(els.block));
      StandsFirst(toks, pos, [ElseWord]);
      BlockRead(toks, pos + 1, lab + 1, els.block);
    }
  }

  lemma {:induction false} ProgramRead(toks: seq<Token>, pos: nat, lab: nat, p: Program)
    requires pos <= |toks| && toks[pos..] == SpellProgram(p)
    ensures var r := ParseProgram(toks, pos, lab); r.Some? && BareProgram(r.value.0) == BareProgram(p)
    decreases p
  {
    hide ParseBlock, SpellBlock, BareBlock;
    if p.Decls? {
      var part := SpellDecl(p.head);
      assert toks[pos..pos + |part + SpellProgram(p.tail)|] == part + SpellProgram(p.tail);
      StandsParts(toks, pos, part, SpellProgram(p.tail));
      StandsFirst(toks, pos, part);
      if p.head.Fun? {
        StandsParts(toks, pos, [FunHead(p.head.name, p.head.arity)], SpellBlock(p.head.body));
        BlockRead(toks, pos + 1, lab, p.head.body);
      }
      var (_, next, l) := ParseDecl(toks, pos, lab).value;
      assert next == pos + |part|;
      ProgramRead(toks, next, l, p.tail);
    }
  }

  /** The compiler reads exactly the inputs that spell a program, and what it reads is that program, with labels
      of its own numbering. */
  lemma ReadsIff(toks: seq<Token>)
    ensures ParseProgram(toks, 0, 0).Some? <==> exists p :: SpellProgram(p) == toks
    ensures forall p :: SpellProgram(p) == toks ==> BareProgram(ParseProgram(toks, 0, 0).value.0) == BareProgram(p)
  {
    hide ParseProgram, SpellProgram, BareProgram;
    assert toks[0..] == toks;
    if ParseProgram(toks, 0, 0).Some? {
      ProgramSpelled(toks, 0, 0);
    }
    forall p | SpellProgram(p) == toks
      ensures ParseProgram(toks, 0, 0).Some? && BareProgram(ParseProgram(toks, 0, 0).value.0) == BareProgram(p)
    {
      ProgramRead(toks, 0, 0, p);
    }
  }
}
