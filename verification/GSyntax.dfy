/** The G language as the compiler of attic/gstaging.c sees it: tokens, and the trees they spell.
    Where the compiler draws a fresh label while it reads a construct, the tree records its number. */
module GSyntax {
  import opened Options

  /** The argument of a backslash, a constant or an array: a literal or the name of a symbol. */
  datatype Operand = Literal(value: int) | SymbolOf(name: string)

  /** A token, classified by its first characters.  The tokens that follow `fun`, `ifun`, `const` and
      `%name` are kept with them.  `addr` tells whether an `@` precedes the name or the number. */
  datatype Token =
    | OpenBrace | CloseBrace | Semicolon | RetWord | IfWord | ElseWord | WhileWord
    | DollarName(name: string) | Backslash(operand: Operand)
    | StringToken(bytes: seq<int>) | NumToken(value: int, addr: bool) | NameToken(name: string, addr: bool)
    | FunHead(name: string, arity: nat) | IfunHead(name: string, arity: nat)
    | ConstHead(name: string, operand: Operand) | PercentName(name: string, operand: Operand)

  datatype Push =
    | Num(value: int, addr: bool)
    | Ref(name: string, addr: bool)
    | Str(bytes: seq<int>, strLab: nat, jmpLab: nat)

  datatype Pushes = NoPush | Then(head: Push, tail: Pushes)

  datatype Item =
    | Expr(push: Push)
    | Semi
    | Ret
    | Local(name: string)
    | Indirect(operand: Operand)
    | If(guard: Pushes, elseLab: nat, thn: Block, els: Else)
    | While(restartLab: nat, endLab: nat, guard: Pushes, body: Block)

  datatype Else = NoElse | ElseBlock(fiLab: nat, block: Block)

  datatype Block = Nil | Cons(head: Item, tail: Block)

  datatype Decl =
    | Fun(name: string, arity: nat, body: Block)
    | Ifun(name: string, arity: nat)
    | Const(name: string, operand: Operand)
    | Global(name: string)
    | Array(name: string, operand: Operand)

  datatype Program = End | Decls(head: Decl, tail: Program)

  // ----- reading trees: each function gives the tree, the next position and the next label -----

  predicate IsPush(tok: Token) {
    tok.StringToken? || tok.NumToken? || tok.NameToken?
  }

  function PushOf(tok: Token, lab: nat): Push
    requires IsPush(tok)
  {
    match tok
    case StringToken(bytes) => Str(bytes, lab, lab + 1)
    case NumToken(value, addr) => Num(value, addr)
    case NameToken(name, addr) => Ref(name, addr)
  }

  function LabelsOf(tok: Token): nat {
    if tok.StringToken? then 2 else 0
  }

  /** push_expr_until_brace: the brace itself is given back. */
  function ParseGuard(toks: seq<Token>, pos: nat, lab: nat): (r: Option<(Pushes, nat, nat)>)
    requires pos <= |toks|
    ensures r.Some? ==> pos <= r.value.1 < |toks| && toks[r.value.1] == OpenBrace
    decreases |toks| - pos
  {
    if pos == |toks| then None
    else if toks[pos] == OpenBrace then Some((NoPush, pos, lab))
    else if !IsPush(toks[pos]) then None
    else
      match ParseGuard(toks, pos + 1, lab + LabelsOf(toks[pos]))
      case None => None
      case Some((ps, p, l)) => Some((Then(PushOf(toks[pos], lab), ps), p, l))
  }

  /** parse_block, from its opening brace. */
  function ParseBlock(toks: seq<Token>, pos: nat, lab: nat): (r: Option<(Block, nat, nat)>)
    requires pos <= |toks|
    ensures r.Some? ==> pos < r.value.1 <= |toks|
    decreases |toks| - pos, 0
  {
    if pos == |toks| || toks[pos] != OpenBrace then None else ParseItems(toks, pos + 1, lab)
  }

  /** The loop of parse_block, from any of its turns. */
  function ParseItems(toks: seq<Token>, pos: nat, lab: nat): (r: Option<(Block, nat, nat)>)
    requires pos <= |toks|
    ensures r.Some? ==> pos < r.value.1 <= |toks|
    decreases |toks| - pos, 2
  {
    if pos == |toks| then None
    else if toks[pos] == CloseBrace then Some((Nil, pos + 1, lab))
    else
      match ParseItem(toks, pos, lab)
      case None => None
      case Some((item, p, l)) =>
        match ParseItems(toks, p, l)
        case None => None
        case Some((rest, p', l')) => Some((Cons(item, rest), p', l'))
  }

  /** One turn of the loop. */
  function ParseItem(toks: seq<Token>, pos: nat, lab: nat): (r: Option<(Item, nat, nat)>)
    requires pos < |toks|
    ensures r.Some? ==> pos < r.value.1 <= |toks|
    decreases |toks| - pos, 1
  {
    match toks[pos]
    case Semicolon => Some((Semi, pos + 1, lab))
    case RetWord => Some((Ret, pos + 1, lab))
    case DollarName(name) => Some((Local(name), pos + 1, lab))
    case Backslash(operand) => Some((Indirect(operand), pos + 1, lab))
    case IfWord =>
      (match ParseGuard(toks, pos + 1, lab)
       case None => None
       case Some((guard, p, elseLab)) =>
         match ParseBlock(toks, p, elseLab + 1)
         case None => None
         case Some((thn, p', l')) =>
           match ParseElse(toks, p', l')
           case None => None
           case Some((els, p'', l'')) => Some((If(guard, elseLab, thn, els), p'', l'')))
    case WhileWord =>
      (match ParseGuard(toks, pos + 1, lab + 2)
       case None => None
       case Some((guard, p, l)) =>
         match ParseBlock(toks, p, l)
         case None => None
         case Some((body, p', l')) => Some((While(lab, lab + 1, guard, body), p', l')))
    case StringToken(bytes) => Some((Expr(Str(bytes, lab, lab + 1)), pos + 1, lab + 2))
    case NumToken(value, addr) => Some((Expr(Num(value, addr)), pos + 1, lab))
    case NameToken(name, addr) => Some((Expr(Ref(name, addr)), pos + 1, lab))
    case _ => None
  }

  /** A token that is not `else` is given back. */
  function ParseElse(toks: seq<Token>, pos: nat, lab: nat): (r: Option<(Else, nat, nat)>)
    requires pos <= |toks|
    ensures r.Some? ==> pos <= r.value.1 <= |toks|
    decreases |toks| - pos, 3
  {
    if pos == |toks| || toks[pos] != ElseWord then Some((NoElse, pos, lab))
    else
      match ParseBlock(toks, pos + 1, lab + 1)
      case None => None
      case Some((block, p, l)) => Some((ElseBlock(lab, block), p, l))
  }

  /** parse, to the end of the input. */
  function ParseProgram(toks: seq<Token>, pos: nat, lab: nat): (r: Option<(Program, nat)>)
    requires pos <= |toks|
    decreases |toks| - pos
  {
    if pos == |toks| then Some((End, lab))
    else
      match ParseDecl(toks, pos, lab)
      case None => None
      case Some((decl, p, l)) =>
        match ParseProgram(toks, p, l)
        case None => None
        case Some((rest, l')) => Some((Decls(decl, rest), l'))
  }

  function ParseDecl(toks: seq<Token>, pos: nat, lab: nat): (r: Option<(Decl, nat, nat)>)
    requires pos < |toks|
    ensures r.Some? ==> pos < r.value.1 <= |toks|
  {
    match toks[pos]
    case FunHead(name, arity) =>
      (match ParseBlock(toks, pos + 1, lab)
       case None => None
       case Some((body, p, l)) => Some((Fun(name, arity, body), p, l)))
    case IfunHead(name, arity) => Some((Ifun(name, arity), pos + 1, lab))
    case ConstHead(name, operand) => Some((Const(name, operand), pos + 1, lab))
    case DollarName(name) => Some((Global(name), pos + 1, lab))
    case PercentName(name, operand) => Some((Array(name, operand), pos + 1, lab))
    case _ => None
  }
}
