/** What one pass of the G compiler does (attic/gstaging.c, symbol table in attic/staging.c), written
    as functions on the state that the pass keeps.  None stands for a failed assertion. */
module GCompile {
  import opened Options
  import opened GSyntax

  // ----- instructions, with the bytes they take -----

  datatype Instr =
    | PushImm(value: int)      // 68 imm32
    | LeaEax(offset: int)      // 8d 84 24 imm32
    | PushEax                  // 50
    | PushStack(offset: int)   // ff b4 24 imm32
    | MovEax(value: int)       // b8 imm32
    | PushAtEax                // ff 30
    | Call(rel: int)           // e8 rel32
    | AddEsp(amount: int)      // 81 c4 imm32
    | PopEax                   // 58
    | CallEax                  // ff d0
    | CmpEax0                  // 83 f8 00
    | Je(rel: int)             // 0f 84 rel32
    | Jmp(rel: int)            // e9 rel32
    | SubEsp4                  // 83 ec 04
    | PushEbp                  // 55
    | MovEbpEsp                // 89 e5
    | PopEbp                   // 5d
    | Return                   // c3
    | Byte(value: int)         // data

  function Size(i: Instr): nat {
    match i
    case PushImm(_) | MovEax(_) | Call(_) | Jmp(_) => 5
    case LeaEax(_) | PushStack(_) => 7
    case AddEsp(_) | Je(_) => 6
    case CmpEax0 | SubEsp4 => 3
    case PushAtEax | CallEax | MovEbpEsp => 2
    case PushEax | PopEax | PushEbp | PopEbp | Return | Byte(_) => 1
  }

  function Sizes(code: seq<Instr>): nat {
    if code == [] then 0 else Size(code[0]) + Sizes(code[1..])
  }

  lemma {:induction false} SizesConcat(a: seq<Instr>, b: seq<Instr>)
    ensures Sizes(a + b) == Sizes(a) + Sizes(b)
  {
    if a == [] {
      assert a + b == b;
    } else {
      SizesConcat(a[1..], b);
      assert (a + b)[1..] == a[1..] + b && (a + b)[0] == a[0];
    }
  }

  lemma SizesOne(i: Instr)
    ensures Sizes([i]) == Size(i)
  {
  }

  lemma SizesTwo(a: Instr, b: Instr)
    ensures Sizes([a, b]) == Size(a) + Size(b)
  {
    assert [a, b][1..] == [b];
    SizesOne(b);
  }

  lemma SizesThree(a: Instr, b: Instr, c: Instr)
    ensures Sizes([a, b, c]) == Size(a) + Size(b) + Size(c)
  {
    SizesConcat([a], [b, c]);
    SizesConcat([b], [c]);
    assert [a] + [b, c] == [a, b, c] && [b] + [c] == [b, c];
    SizesOne(a);
    SizesOne(b);
    SizesOne(c);
  }

  lemma SizesConcat3(a: seq<Instr>, b: seq<Instr>, c: seq<Instr>)
    ensures Sizes(a + b + c) == Sizes(a) + Sizes(b) + Sizes(c)
  {
    SizesConcat(a + b, c);
    SizesConcat(a, b);
  }

  function DataBytes(bytes: seq<int>): seq<Instr> {
    seq(|bytes|, i requires 0 <= i < |bytes| => Byte(bytes[i]))
  }

  function Zeros(n: int): seq<Instr> {
    seq(if n < 0 then 0 else n, _ => Byte(0))
  }

  // ----- symbols -----

  /** A symbol is a name of the program or a numbered label (".N" in the source). */
  datatype Sym = Named(name: string) | Label(id: nat)

  datatype Entry = Entry(loc: int, arity: int)

  type Table = map<Sym, Entry>

  const VARIABLE := -1
  const CONSTANT := -2
  const UNDEFINED := -1            // 0xffffffff, the location of a function declared but not yet defined
  const TEMP := "__temp"
  const STACK_LEN := 1024
  const SYMBOL_TABLE_LEN := 1024
  const MAX_NAME_LEN := 128

  /** The state of a pass.  `stack` is stack_vars up to stack_depth.  `clean` is not in the source: it
      records that the program has kept to the rules that the compiler relies on without checking. */
  datatype S = S(stage: nat, stack: seq<string>, temps: nat, loc: nat, table: Table, clean: bool)

  datatype Out = Out(s: S, code: seq<Instr>)

  predicate NameFits(name: string) {
    0 < |name| < MAX_NAME_LEN
  }

  predicate SymFits(sym: Sym) {
    sym.Named? ==> NameFits(sym.name)
  }

  function AddSymbol(s: S, sym: Sym, loc: int, arity: int): Option<S> {
    if SymFits(sym) && sym !in s.table && |s.table| < SYMBOL_TABLE_LEN
    then Some(s.(table := s.table[sym := Entry(loc, arity)])) else None
  }

  /** add_symbol_wrapper: define in the first pass, check in the second. */
  function Define(s: S, sym: Sym, loc: int, arity: int): Option<S> {
    if s.stage == 0 then AddSymbol(s, sym, loc, arity)
    else if sym in s.table && s.table[sym] == Entry(loc, arity) then Some(s) else None
  }

  /** add_symbol_placeholder */
  function Declare(s: S, name: string, arity: int): Option<S> {
    var sym := Named(name);
    if sym !in s.table then (if s.stage != 0 then None else AddSymbol(s, sym, UNDEFINED, arity))
    else if arity == s.table[sym].arity then Some(s) else None
  }

  /** fix_symbol_placeholder */
  function Fix(s: S, name: string, loc: int, arity: int): Option<S> {
    var sym := Named(name);
    if sym !in s.table then (if s.stage != 0 then None else AddSymbol(s, sym, loc, arity))
    else
      var old_ := s.table[sym];
      if arity == old_.arity && (loc == old_.loc || (s.stage == 0 && old_.loc == UNDEFINED))
      then Some(s.(table := s.table[sym := Entry(loc, arity)])) else None
  }

  /** get_symbol for a label: in the first pass it is not even looked up. */
  function LabelLoc(s: S, id: nat): Option<int> {
    if s.stage != 1 then Some(0)
    else if Label(id) in s.table then Some(s.table[Label(id)].loc) else None
  }

  /** A function declared but not defined has no location yet. */
  predicate Pending(e: Entry) {
    e.arity >= 0 && e.loc == UNDEFINED
  }

  /** decode_number_or_symbol */
  function Decode(s: S, operand: Operand): Option<int> {
    match operand
    case Literal(v) => Some(v)
    case SymbolOf(name) => if Named(name) in s.table then Some(s.table[Named(name)].loc) else None
  }

  /** Reading the location of a pending function gives a different number in the second pass. */
  function NoteOperand(s: S, operand: Operand): S {
    s.(clean := s.clean && !(operand.SymbolOf? && Named(operand.name) in s.table && Pending(s.table[Named(operand.name)])))
  }

  /** A negative number of arguments would be taken off the stack by the code and not by the compiler. */
  function NoteArity(s: S, n: int): S {
    s.(clean := s.clean && n >= 0)
  }

  // ----- the symbolic stack -----

  /** find_in_stack: distance from the top of the innermost variable of that name, or -1. */
  function Find(stack: seq<string>, name: string): (r: int)
    ensures -1 <= r < |stack|
  {
    if stack == [] then -1
    else if stack[|stack| - 1] == name then 0
    else
      var r := Find(stack[..|stack| - 1], name);
      if r == -1 then -1 else r + 1
  }

  function PushTemp(s: S): Option<S> {
    if |s.stack| < STACK_LEN then Some(s.(stack := s.stack + [TEMP], temps := s.temps + 1)) else None
  }

  function PushLocal(s: S, name: string): Option<S> {
    if NameFits(name) && |s.stack| < STACK_LEN && s.temps == 0
    then Some(s.(stack := s.stack + [name], clean := s.clean && name != TEMP)) else None
  }

  function PopTemp(s: S): Option<S> {
    if |s.stack| > 0 && s.temps > 0 then Some(s.(stack := s.stack[..|s.stack| - 1], temps := s.temps - 1)) else None
  }

  function PopTemps(s: S, n: int): Option<S>
    decreases if n < 0 then 0 else n
  {
    if n <= 0 then Some(s)
    else
      match PopTemp(s)
      case None => None
      case Some(s') => PopTemps(s', n - 1)
  }

  function Emit(s: S, code: seq<Instr>): S {
    s.(loc := s.loc + Sizes(code))
  }

  /** Push a temporary and emit the code that does it. */
  function EmitPush(s: S, code: seq<Instr>): Option<Out> {
    match PushTemp(s)
    case None => None
    case Some(s') => Some(Out(Emit(s', code), code))
  }

  // ----- expressions -----

  function RunPush(p: Push, s: S): Option<Out> {
    match p
    case Num(value, addr) => if addr then None else EmitPush(s, [PushImm(value)])
    case Ref(name, addr) => RunRef(name, addr, s.(clean := s.clean && name != TEMP))
    case Str(bytes, strLab, jmpLab) => RunString(bytes, strLab, jmpLab, s)
  }

  function RunRef(name: string, addr: bool, s: S): Option<Out> {
    var pos := Find(s.stack, name);
    if pos != -1 then EmitPush(s, if addr then [LeaEax(4 * pos), PushEax] else [PushStack(4 * pos)])
    else if Named(name) !in s.table then None
    else
      var e := s.table[Named(name)];
      if e.arity == CONSTANT && addr then None
      else if addr || e.arity == CONSTANT then EmitPush(s, [PushImm(e.loc)])
      else if e.arity == VARIABLE then EmitPush(s, [MovEax(e.loc), PushAtEax])
      else
        match PopTemps(NoteArity(s, e.arity), e.arity)
        case None => None
        case Some(s') => EmitPush(s', CallCode(s.loc, e))
  }

  /** call rel; add esp, 4 * arity; push eax */
  function CallCode(loc: int, e: Entry): seq<Instr> {
    [Call(e.loc - (loc + 5)), AddEsp(4 * e.arity), PushEax]
  }

  /** A string is laid out in the code and jumped over. */
  function RunString(bytes: seq<int>, strLab: nat, jmpLab: nat, s: S): Option<Out> {
    match LabelLoc(s, jmpLab)
    case None => None
    case Some(jmpLoc) =>
      var jump := [Jmp(jmpLoc - (s.loc + 5))];
      match RunData(bytes, strLab, jmpLab, Emit(s, jump))
      case None => None
      case Some(d) =>
        match LabelLoc(d.s, strLab)
        case None => None
        case Some(strLoc) =>
          match EmitPush(d.s, [PushImm(strLoc)])
          case None => None
          case Some(o) => Some(Out(o.s, jump + d.code + o.code))
  }

  /** The bytes of a string and the zero after them, between their two labels. */
  function RunData(bytes: seq<int>, strLab: nat, jmpLab: nat, s: S): Option<Out> {
    match Define(s, Label(strLab), s.loc, VARIABLE)
    case None => None
    case Some(s1) =>
      var data := DataBytes(bytes + [0]);
      var s2 := Emit(s1, data);
      match Define(s2, Label(jmpLab), s2.loc, VARIABLE)
      case None => None
      case Some(s3) => Some(Out(s3, data))
  }

  function RunPushes(ps: Pushes, s: S): Option<Out> {
    match ps
    case NoPush => Some(Out(s, []))
    case Then(p, rest) =>
      match RunPush(p, s)
      case None => None
      case Some(o) =>
        match RunPushes(rest, o.s)
        case None => None
        case Some(o') => Some(Out(o'.s, o.code + o'.code))
  }

  /** pop_var, and the jump on zero that an `if` or a `while` puts after its guard. */
  function RunBranch(target: nat, s: S): Option<Out> {
    match PopTemp(s)
    case None => None
    case Some(s') =>
      match LabelLoc(s', target)
      case None => None
      case Some(loc) => var code := [PopEax, CmpEax0, Je(loc - (s'.loc + 10))]; Some(Out(Emit(s', code), code))
  }

  function RunGuard(guard: Pushes, target: nat, s: S): Option<Out> {
    match RunPushes(guard, s)
    case None => None
    case Some(o) =>
      match RunBranch(target, o.s)
      case None => None
      case Some(b) => Some(Out(b.s, o.code + b.code))
  }

  // ----- statements -----

  function RunItem(item: Item, s: S): Option<Out>
    decreases item, 0
  {
    match item
    case Expr(p) => RunPush(p, s)
    case Semi =>
      (match PopTemps(s, s.temps)
       case None => None
       case Some(s') => var code := [AddEsp(4 * s.temps)]; Some(Out(Emit(s', code), code)))
    case Ret => RunRet(s)
    case Local(name) =>
      (match PushLocal(s, name)
       case None => None
       case Some(s') => Some(Out(Emit(s', [SubEsp4]), [SubEsp4])))
    case Indirect(operand) => RunIndirect(operand, s)
    case If(guard, elseLab, thn, els) =>
      (match RunGuard(guard, elseLab, s)
       case None => None
       case Some(g) =>
         match RunBlock(thn, g.s)
         case None => None
         case Some(t) =>
           match RunElse(elseLab, els, t.s)
           case None => None
           case Some(e) => Some(Out(e.s, g.code + t.code + e.code)))
    case While(restartLab, endLab, guard, body) =>
      match Define(s, Label(restartLab), s.loc, VARIABLE)
      case None => None
      case Some(s1) =>
        match RunGuard(guard, endLab, s1)
        case None => None
        case Some(g) =>
          match RunBlock(body, NoteLoop(s, g.s))
          case None => None
          case Some(b) =>
            match LabelLoc(b.s, restartLab)
            case None => None
            case Some(loc) =>
              var jump := [Jmp(loc - (b.s.loc + 5))];
              var s2 := Emit(b.s, jump);
              match Define(s2, Label(endLab), s2.loc, VARIABLE)
              case None => None
              case Some(s3) => Some(Out(s3, g.code + b.code + jump))
  }

  /** The guard of a loop must leave the stack as deep as it was before it, once its value is popped. */
  function NoteLoop(before: S, after: S): S {
    after.(clean := after.clean && after.temps == before.temps && |after.stack| == |before.stack|)
  }

  /** pop eax, if there is a temporary; add esp, 4 * stack_depth; pop ebp; ret */
  function RunRet(s: S): Option<Out> {
    if s.temps > 0 then
      match PopTemp(s)
      case None => None
      case Some(s') => var code := [PopEax, AddEsp(4 * |s'.stack|), PopEbp, Return]; Some(Out(Emit(s', code), code))
    else
      var code := [AddEsp(4 * |s.stack|), PopEbp, Return]; Some(Out(Emit(s, code), code))
  }

  function RunIndirect(operand: Operand, s: S): Option<Out> {
    match Decode(s, operand)
    case None => None
    case Some(arity) =>
      match PopTemp(NoteArity(NoteOperand(s, operand), arity))
      case None => None
      case Some(s1) =>
        match PopTemps(s1, arity)
        case None => None
        case Some(s2) => EmitPush(s2, [PopEax, CallEax, AddEsp(4 * arity), PushEax])
  }

  /** What follows the first block of an `if`. */
  function RunElse(elseLab: nat, els: Else, s: S): Option<Out>
    decreases els, 2
  {
    match els
    case NoElse =>
      (match Define(s, Label(elseLab), s.loc, VARIABLE)
       case None => None
       case Some(s') => Some(Out(s', [])))
    case ElseBlock(fiLab, block) =>
      match LabelLoc(s, fiLab)
      case None => None
      case Some(loc) =>
        var jump := [Jmp(loc - (s.loc + 5))];
        var s1 := Emit(s, jump);
        match Define(s1, Label(elseLab), s1.loc, VARIABLE)
        case None => None
        case Some(s2) =>
          match RunBlock(block, s2)
          case None => None
          case Some(b) =>
            match Define(b.s, Label(fiLab), b.s.loc, VARIABLE)
            case None => None
            case Some(s3) => Some(Out(s3, jump + b.code))
  }

  /** A block between its braces. */
  function RunBlock(b: Block, s: S): Option<Out>
    decreases b, 1
  {
    match RunItems(b, s)
    case None => None
    case Some(o) => CloseBlock(s, o)
  }

  /** The closing brace: unwind to the depth at the opening one.  Only stack_depth is restored, so the
      number of temporaries must be what it was, and below them nothing new may stand. */
  function CloseBlock(s: S, o: Out): Option<Out> {
    if |o.s.stack| < |s.stack| then None
    else
      var code := [AddEsp(4 * (|o.s.stack| - |s.stack|))];
      var ok := o.s.temps == s.temps && (s.temps == 0 || |o.s.stack| == |s.stack|);
      Some(Out(Emit(o.s.(stack := o.s.stack[..|s.stack|], clean := o.s.clean && ok), code), o.code + code))
  }

  function RunItems(b: Block, s: S): Option<Out>
    decreases b, 0
  {
    match b
    case Nil => Some(Out(s, []))
    case Cons(item, rest) =>
      match RunItem(item, s)
      case None => None
      case Some(o) =>
        match RunItems(rest, o.s)
        case None => None
        case Some(o') => Some(Out(o'.s, o.code + o'.code))
  }

  // ----- declarations -----

  function RunDecl(d: Decl, s: S): Option<Out> {
    match d
    case Fun(name, arity, body) =>
      (match Fix(s, name, s.loc, arity)
       case None => None
       case Some(s1) =>
         match RunBlock(body, Emit(s1, [PushEbp, MovEbpEsp]))
         case None => None
         case Some(b) =>
           Some(Out(Emit(b.s, [PopEbp, Return]), [PushEbp, MovEbpEsp] + b.code + [PopEbp, Return])))
    case Ifun(name, arity) =>
      (match Declare(s, name, arity)
       case None => None
       case Some(s') => Some(Out(s', [])))
    case Const(name, operand) =>
      (match Decode(s, operand)
       case None => None
       case Some(v) =>
         match Define(NoteOperand(s, operand), Named(name), v, CONSTANT)
         case None => None
         case Some(s') => Some(Out(s', [])))
    case Global(name) =>
      (match Define(s, Named(name), s.loc, VARIABLE)
       case None => None
       case Some(s') => if name == "" then None else Some(Out(Emit(s', Zeros(4)), Zeros(4))))
    case Array(name, operand) =>
      match Define(s, Named(name), s.loc, CONSTANT)
      case None => None
      case Some(s') =>
        match Decode(s', operand)
        case None => None
        case Some(len) => if name == "" then None else Some(Out(Emit(NoteOperand(s', operand), Zeros(len)), Zeros(len)))
  }

  function RunProgram(p: Program, s: S): Option<Out> {
    match p
    case End => Some(Out(s, []))
    case Decls(d, rest) =>
      match RunDecl(d, s)
      case None => None
      case Some(o) =>
        match RunProgram(rest, o.s)
        case None => None
        case Some(o') => Some(Out(o'.s, o.code + o'.code))
  }

  /** One pass over the program, and the checks after it. */
  function RunPass(p: Program, stage: nat, start: nat, table: Table): Option<Out> {
    match RunProgram(p, S(stage, [], 0, start, table, true))
    case None => None
    case Some(o) => if |o.s.stack| == 0 && o.s.temps == 0 then Some(o) else None
  }
}
