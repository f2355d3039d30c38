/** What G programs mean (README.md:521-673): a big-step interpreter over a stack of values, named
    locals with addresses, and memory.  `fuel` bounds calls and loop turns; a program that runs out of
    it, does something undefined or overflows the stack is Stuck, and nothing is claimed about it. */
module GSemantics {
  import opened Options
  import opened GSyntax
  import opened GCompile
  import opened GMachine

  /** A value; Undef is what an uninitialised local holds, or a function returns that returns nothing. */
  datatype Val = Undef | Word(value: int)

  /** The memory that a program may touch: globals, whatever the library handed out, live locals. */
  type Store = map<int, Val>

  /** A defined function. */
  datatype FunDef = FunDef(arity: nat, body: Block)

  /** What a program runs in: the symbols of the second pass, the functions by address, the library
      routines and what each does, the address of `param`, and the bounds of the stack. */
  datatype World = World(
    table: Table,
    funs: map<int, FunDef>,
    routines: map<int, Routine>,
    library: (string, seq<Val>, Store) -> Option<(Val, Store)>,
    paramLoc: int,
    limit: int,
    top: int)

  /** An activation: the address its locals descend from, its arguments, the locals in scope
      (innermost last) and the values on its stack. */
  datatype Frame = Frame(bp: int, args: seq<Val>, names: seq<string>, temps: seq<Val>)

  datatype Res = Stuck | Next(fr: Frame, mem: Store) | Done(val: Val, mem: Store)

  function Depth(fr: Frame): nat {
    |fr.names| + |fr.temps|
  }

  /** The address of the k-th cell of the frame, counted from its bottom. */
  function Cell(fr: Frame, k: int): int {
    fr.bp - 4 * (k + 1)
  }

  /** n more words fit on the stack. */
  predicate Room(w: World, fr: Frame, n: nat) {
    fr.bp - 4 * (Depth(fr) + n) >= w.limit
  }

  /** Locals whose cells lie in [lo, hi) go out of existence. */
  function Forget(mem: Store, lo: int, hi: int): Store {
    map a | a in mem && !(lo <= a < hi) :: mem[a]
  }

  /** Index of the innermost local of that name, or -1. */
  function IndexOf(names: seq<string>, name: string): int {
    if names == [] then -1
    else if names[|names| - 1] == name then |names| - 1
    else IndexOf(names[..|names| - 1], name)
  }

  function PushVal(w: World, fr: Frame, mem: Store, v: Val): Res {
    if Room(w, fr, 1) then Next(fr.(temps := fr.temps + [v]), mem) else Stuck
  }

  function EvalPush(w: World, p: Push, fr: Frame, mem: Store, fuel: nat): (r: Res)
    ensures r.Next? ==> r.fr.bp == fr.bp && r.fr.args == fr.args
    ensures !r.Done?
    decreases fuel, 0, 1
  {
    match p
    case Num(value, addr) => if addr then Stuck else PushVal(w, fr, mem, Word(value))
    case Str(_, strLab, _) =>
      if Label(strLab) in w.table then PushVal(w, fr, mem, Word(w.table[Label(strLab)].loc)) else Stuck
    case Ref(name, addr) =>
      var k := IndexOf(fr.names, name);
      if k != -1 then
        if addr then PushVal(w, fr, mem, Word(Cell(fr, k)))
        else if Cell(fr, k) in mem then PushVal(w, fr, mem, mem[Cell(fr, k)])
        else Stuck
      else if Named(name) !in w.table then Stuck
      else
        var e := w.table[Named(name)];
        if e.arity == CONSTANT && addr then Stuck
        else if addr || e.arity == CONSTANT then PushVal(w, fr, mem, Word(e.loc))
        else if e.arity == VARIABLE then (if e.loc in mem then PushVal(w, fr, mem, mem[e.loc]) else Stuck)
        else EvalCall(w, e.loc, e.arity, fr, mem, fuel)
  }

  /** Call what is at `addr` with the top n values; its result takes their place. */
  function EvalCall(w: World, addr: int, n: int, fr: Frame, mem: Store, fuel: nat): (r: Res)
    ensures r.Next? ==> r.fr.bp == fr.bp && r.fr.args == fr.args
    ensures !r.Done?
    decreases fuel, 0, 0
  {
    if n < 0 || n > |fr.temps| || !Room(w, fr, 2) then Stuck
    else
      var args := fr.temps[|fr.temps| - n..];
      var fr' := fr.(temps := fr.temps[..|fr.temps| - n]);
      if addr in w.funs then
        if fuel == 0 then Stuck
        else
          match EvalBlock(w, w.funs[addr].body, Frame(fr.bp - 4 * Depth(fr) - 8, args, [], []), mem, fuel - 1)
          case Stuck => Stuck
          case Next(_, mem') => PushVal(w, fr', mem', Undef)
          case Done(v, mem') => PushVal(w, fr', mem', v)
      else if addr == w.paramLoc then
        // the i-th argument of the current function, counted from the last
        if n == 1 && args[0].Word? && 0 <= args[0].value < |fr.args|
        then PushVal(w, fr', mem, fr.args[|fr.args| - 1 - args[0].value]) else Stuck
      else if addr in w.routines && w.routines[addr].arity == n then
        match w.library(w.routines[addr].name, args, mem)
        case None => Stuck
        case Some((v, mem')) => PushVal(w, fr', mem', v)
      else Stuck
  }

  function EvalPushes(w: World, ps: Pushes, fr: Frame, mem: Store, fuel: nat): (r: Res)
    ensures r.Next? ==> r.fr.bp == fr.bp && r.fr.args == fr.args
    ensures !r.Done?
    decreases fuel, 0, 2, ps
  {
    match ps
    case NoPush => Next(fr, mem)
    case Then(p, rest) =>
      var r := EvalPush(w, p, fr, mem, fuel);
      if r.Next? then EvalPushes(w, rest, r.fr, r.mem, fuel) else Stuck
  }

  function EvalItem(w: World, item: Item, fr: Frame, mem: Store, fuel: nat): (r: Res)
    ensures r.Next? ==> r.fr.bp == fr.bp && r.fr.args == fr.args
    decreases fuel, 1, item, 0
  {
    match item
    case Expr(p) => EvalPush(w, p, fr, mem, fuel)
    case Semi => Next(fr.(temps := []), mem)
    case Ret =>
      Done(if fr.temps == [] then Undef else fr.temps[|fr.temps| - 1], Forget(mem, Cell(fr, |fr.names| - 1), fr.bp))
    case Local(name) =>
      if fr.temps == [] && Room(w, fr, 1)
      then Next(fr.(names := fr.names + [name]), mem[Cell(fr, |fr.names|) := Undef]) else Stuck
    case Indirect(operand) =>
      if fr.temps == [] || fr.temps[|fr.temps| - 1].Undef? then Stuck
      else
        (match OperandValue(w, operand)
         case None => Stuck
         case Some(n) =>
           EvalCall(w, fr.temps[|fr.temps| - 1].value, n, fr.(temps := fr.temps[..|fr.temps| - 1]), mem, fuel))
    case If(guard, _, thn, els) =>
      var r := EvalPushes(w, guard, fr, mem, fuel);
      if !Decided(r) then Stuck
      else if Taken(r) then EvalBlock(w, thn, Rest(r.fr), r.mem, fuel)
      else
        (match els
         case NoElse => Next(Rest(r.fr), r.mem)
         case ElseBlock(_, block) => EvalBlock(w, block, Rest(r.fr), r.mem, fuel))
    case While(_, _, guard, body) =>
      var r := EvalPushes(w, guard, fr, mem, fuel);
      if !Decided(r) then Stuck
      else if !Taken(r) then Next(Rest(r.fr), r.mem)
      else
        match EvalBlock(w, body, Rest(r.fr), r.mem, fuel)
        case Next(fr', mem') => if fuel == 0 then Stuck else EvalItem(w, item, fr', mem', fuel - 1)
        case r' => r'
  }

  /** A guard has left a value to decide on. */
  predicate Decided(r: Res) {
    r.Next? && r.fr.temps != [] && r.fr.temps[|r.fr.temps| - 1].Word?
  }

  predicate Taken(r: Res)
    requires Decided(r)
  {
    r.fr.temps[|r.fr.temps| - 1].value != 0
  }

  /** The frame without its top value. */
  function Rest(fr: Frame): Frame
    requires fr.temps != []
  {
    fr.(temps := fr.temps[..|fr.temps| - 1])
  }

  function OperandValue(w: World, operand: Operand): Option<int> {
    match operand
    case Literal(v) => Some(v)
    case SymbolOf(name) => if Named(name) in w.table then Some(w.table[Named(name)].loc) else None
  }

  /** A block: the locals it declares end with it. */
  function EvalBlock(w: World, b: Block, fr: Frame, mem: Store, fuel: nat): (r: Res)
    ensures r.Next? ==> r.fr.bp == fr.bp && r.fr.args == fr.args
    decreases fuel, 1, b, 1
  {
    match EvalItems(w, b, fr, mem, fuel)
    case Next(fr', mem') =>
      if |fr'.names| < |fr.names| then Stuck
      else
        Next(fr'.(names := fr'.names[..|fr.names|]), Forget(mem', Cell(fr, |fr'.names| - 1), Cell(fr, |fr.names| - 1)))
    case r => r
  }

  function EvalItems(w: World, b: Block, fr: Frame, mem: Store, fuel: nat): (r: Res)
    ensures r.Next? ==> r.fr.bp == fr.bp && r.fr.args == fr.args
    decreases fuel, 1, b, 0
  {
    match b
    case Nil => Next(fr, mem)
    case Cons(item, rest) =>
      match EvalItem(w, item, fr, mem, fuel)
      case Next(fr', mem') => EvalItems(w, rest, fr', mem', fuel)
      case r => r
  }
}
