/** The operator-precedence parser of asmg/c_ast.g, over the token vector of the preprocessor
    (asmg/c_preproc.g:54-98), whose type parser always answers "not a type".

    A token is a string in the source; here each string the parser compares with has a constructor of
    its own, and `Word` stands for every other string. */
module CAst {
  import opened Options

  datatype Tok =
    | PlusPlus | MinusMinus | Dot | Arrow | Defined | Plus | Minus | Not | Tilde | Star | Amp | Sizeof
    | Slash | Percent | Shl | Shr | Less | LessEq | Greater | GreaterEq | EqualEqual | NotEqual
    | Caret | Bar | AndAnd | OrOr | Question
    | Assign | PlusAssign | MinusAssign | StarAssign | SlashAssign | PercentAssign
    | ShlAssign | ShrAssign | AmpAssign | CaretAssign | BarAssign | Comma
    | LParen | RParen | LBracket | RBracket | Colon | Space
    | Word(text: string)

  predicate IsOperator(tok: Tok) {
    !tok.LParen? && !tok.RParen? && !tok.LBracket? && !tok.RBracket? && !tok.Colon? && !tok.Space? && !tok.Word?
  }

  /** What the operator stack holds: the token itself ("(" for a call, "[" for an index), the token
      mangled with "_PRE" or "_POST", or the single blank that ends an expression. */
  datatype Op = Plain(tok: Tok) | Pre(tok: Tok) | Post(tok: Tok) | Blank

  /** ast_get_priority; 0 stands for its failed assertion "Not an operator". */
  function Priority(op: Op): nat {
    match op
    case Post(tok) => if tok.PlusPlus? || tok.MinusMinus? then 1 else 0
    case Pre(tok) => if IsPrefix(tok) then 2 else 0
    case Blank => 100
    case Plain(tok) =>
      match tok
      case LParen | LBracket | Dot | Arrow => 1
      case Star | Slash | Percent => 3
      case Plus | Minus => 4
      case Shl | Shr => 5
      case Less | LessEq | Greater | GreaterEq => 6
      case EqualEqual | NotEqual => 7
      case Amp => 8
      case Caret => 9
      case Bar => 10
      case AndAnd => 11
      case OrOr => 12
      case Question => 13
      case Assign | PlusAssign | MinusAssign | StarAssign | SlashAssign | PercentAssign => 14
      case ShlAssign | ShrAssign | AmpAssign | CaretAssign | BarAssign => 14
      case Comma => 15
      case _ => 0
  }

  predicate IsPrefix(tok: Tok) {
    match tok
    case Defined | PlusPlus | MinusMinus | Plus | Minus | Not | Tilde | Star | Amp | Sizeof => true
    case _ => false
  }

  /** ast_get_ass_direction, for operators that have a priority. */
  predicate LeftToRight(op: Op) {
    match op
    case Post(_) => true
    case Pre(_) => false
    case Blank => false
    case Plain(tok) => Priority(op) != 13 && Priority(op) != 14
  }

  /** An AST node; a placeholder is a node that ast_init returns and nothing fills in. */
  datatype Ast = Placeholder | Leaf(tok: Tok) | Node(op: Op, left: Ast, center: Option<Ast>, right: Ast)

  // ----- the three stacks -----

  datatype State = State(ops: seq<Op>, operands: seq<Ast>, centers: seq<Option<Ast>>)

  const EMPTY := State([], [], [])

  /** Does `op`, on top, make ast_rewind_stack reduce the operator below it? */
  predicate Reduces(op: Op, below: Op) {
    Priority(op) > Priority(below) || (Priority(op) == Priority(below) && LeftToRight(op))
  }

  predicate Balanced(st: State) {
    |st.ops| == |st.operands| == |st.centers|
  }

  /** The sizes of the stacks while an operator is wanted (one more operand) or an operand is. */
  predicate Shape(st: State, want: bool) {
    |st.centers| == |st.ops| && |st.operands| == |st.ops| + if want then 1 else 0
  }

  /** The stacks after one reduction of the operator below the top. */
  function Reduce(st: State): State
    requires Balanced(st) && |st.ops| >= 2
  {
    var n := |st.ops|;
    var node := Node(st.ops[n - 2], st.operands[n - 2], st.centers[n - 2], st.operands[n - 1]);
    State(st.ops[..n - 2] + [st.ops[n - 1]], st.operands[..n - 2] + [node], st.centers[..n - 2] + [st.centers[n - 1]])
  }

  /** ast_rewind_stack; None when one of its assertions fails. */
  function Rewind(st: State): (r: Option<State>)
    requires Balanced(st)
    ensures r.Some? ==> Balanced(r.value) && (st.ops != [] ==> |r.value.ops| >= 1)
    decreases |st.ops|
  {
    var n := |st.ops|;
    if n < 2 then Some(st)
    else if Priority(st.ops[n - 1]) == 0 || Priority(st.ops[n - 2]) == 0 then None
    else if !Reduces(st.ops[n - 1], st.ops[n - 2]) then Some(st)
    else if st.ops[n - 2] == Plain(Question) && st.centers[n - 2].None? then None
    else Rewind(Reduce(st))
  }

  function Push(st: State, op: Op, center: Option<Ast>): State {
    st.(ops := st.ops + [op], centers := st.centers + [center])
  }

  function PushOperand(st: State, ast: Ast): State {
    st.(operands := st.operands + [ast])
  }

  // ----- parsing, as a function -----

  /** What ast_parsev does from a point of its loop on: the stacks, whether an operator is expected
      and the position where it stops. */
  function Loop(toks: seq<Tok>, pos: nat, ends: seq<Tok>, st: State, want: bool): (r: Option<(State, bool, nat)>)
    requires pos <= |toks|
    requires Shape(st, want)
    ensures r.Some? ==> pos <= r.value.2 <= |toks|
    ensures r.Some? ==> Shape(r.value.0, r.value.1)
    decreases |toks| - pos, 2
  {
    if pos == |toks| || toks[pos] in ends then Some((st, want, pos))
    else
      match Step(toks, pos, st, want)
      case None => None
      case Some((st', want', pos')) => Loop(toks, pos', ends, st', want')
  }

  /** One turn of the loop, on a token that does not end the expression. */
  function Step(toks: seq<Tok>, pos: nat, st: State, want: bool): (r: Option<(State, bool, nat)>)
    requires pos < |toks|
    requires Shape(st, want)
    ensures r.Some? ==> pos < r.value.2 <= |toks|
    ensures r.Some? ==> Shape(r.value.0, r.value.1)
    decreases |toks| - pos, 1
  {
    var tok := toks[pos];
    if tok == Space then Some((st, want, pos + 1))
    else if want then StepOperator(toks, pos, st)
    else StepOperand(toks, pos, st)
  }

  /** An operator, a call or an index. */
  function StepOperator(toks: seq<Tok>, pos: nat, st: State): (r: Option<(State, bool, nat)>)
    requires pos < |toks|
    requires Shape(st, true)
    ensures r.Some? ==> pos < r.value.2 <= |toks|
    ensures r.Some? ==> Shape(r.value.0, r.value.1)
    decreases |toks| - pos, 0
  {
    var tok := toks[pos];
    if tok == PlusPlus || tok == MinusMinus then
      match Rewind(Push(st, Post(tok), None))
      case None => None
      case Some(st') => Some((PushOperand(st', Placeholder), true, pos + 1))
    else if tok == Question then
      match Enclosed(toks, pos + 1, Colon)
      case None => None
      case Some((center, pos')) => Infix(st, tok, Some(center), pos')
    else if IsOperator(tok) then
      Infix(st, tok, None, pos + 1)
    else if tok == LParen then
      match Arguments(toks, pos + 1)
      case None => None
      case Some((args, pos')) => Suffix(st, tok, args, pos')
    else if tok == LBracket then
      match Enclosed(toks, pos + 1, RBracket)
      case None => None
      case Some((index, pos')) => Suffix(st, tok, index, pos')
    else None
  }

  /** An infix operator is rewound when pushed and again at the end of the turn. */
  function Infix(st: State, tok: Tok, center: Option<Ast>, pos: nat): (r: Option<(State, bool, nat)>)
    requires Shape(st, true)
    ensures r.Some? ==> Balanced(r.value.0) && !r.value.1 && r.value.2 == pos
  {
    match Rewind(Push(st, Plain(tok), center))
    case None => None
    case Some(st') =>
      match Rewind(st')
      case None => None
      case Some(st'') => Some((st'', false, pos))
  }

  function Suffix(st: State, tok: Tok, operand: Ast, pos: nat): (r: Option<(State, bool, nat)>)
    requires Shape(st, true)
    ensures r.Some? ==> r.value.1 && r.value.2 == pos
    ensures r.Some? ==> Shape(r.value.0, true)
  {
    match Rewind(Push(st, Plain(tok), None))
    case None => None
    case Some(st') => Some((PushOperand(st', operand), true, pos))
  }

  /** A prefix operator, a parenthesis or an operand. */
  function StepOperand(toks: seq<Tok>, pos: nat, st: State): (r: Option<(State, bool, nat)>)
    requires pos < |toks| && Balanced(st)
    ensures r.Some? ==> pos < r.value.2 <= |toks|
    ensures r.Some? ==> Shape(r.value.0, r.value.1)
    decreases |toks| - pos, 0
  {
    var tok := toks[pos];
    if IsOperator(tok) then
      if (tok == Sizeof && pos + 1 == |toks|) || !IsPrefix(tok) then None
      else
        (match Rewind(PushOperand(Push(st, Pre(tok), None), Placeholder))
         case None => None
         case Some(st') => Some((st', false, pos + 1)))
    else if tok == LParen then
      match Enclosed(toks, pos + 1, RParen)
      case None => None
      case Some((ast, pos')) => Some((PushOperand(st, ast), true, pos'))
    else
      Some((PushOperand(st, Leaf(tok)), true, pos + 1))
  }

  /** What stands in the parentheses of a call; nothing gives a placeholder. */
  function Arguments(toks: seq<Tok>, pos: nat): (r: Option<(Ast, nat)>)
    requires pos <= |toks|
    ensures r.Some? ==> pos < r.value.1 <= |toks|
    decreases |toks| - pos, 5
  {
    if pos == |toks| then None
    else if toks[pos] == RParen then Some((Placeholder, pos + 1))
    else Enclosed(toks, pos, RParen)
  }

  /** ast_parse1 followed by the check that the closing token is there. */
  function Enclosed(toks: seq<Tok>, pos: nat, close: Tok): (r: Option<(Ast, nat)>)
    requires pos <= |toks|
    ensures r.Some? ==> pos < r.value.1 <= |toks|
    decreases |toks| - pos, 4
  {
    match Parse(toks, pos, [close])
    case None => None
    case Some((ast, pos')) =>
      if pos' < |toks| && toks[pos'] == close then Some((ast, pos' + 1)) else None
  }

  /** ast_parsev. */
  function Parse(toks: seq<Tok>, pos: nat, ends: seq<Tok>): (r: Option<(Ast, nat)>)
    requires pos <= |toks|
    ensures r.Some? ==> pos <= r.value.1 <= |toks|
    decreases |toks| - pos, 3
  {
    match Loop(toks, pos, ends, EMPTY, false)
    case None => None
    case Some((st, want, pos')) =>
      match Finish(st, want)
      case None => None
      case Some(ast) => Some((ast, pos'))
  }

  /** The final placeholder operator with the weakest priority, and the checks after it. */
  function Finish(st: State, want: bool): Option<Ast>
    requires Shape(st, want)
  {
    if !want then None
    else
      match Rewind(Push(st, Blank, None))
      case None => None
      case Some(st') =>
        if |st'.ops| == 1 && st'.ops[0] == Blank && st'.centers[0].None? then Some(st'.operands[0]) else None
  }
}
