/** The routines of the run-time library that G programs use as operators (asmg/kernel-asmg.asm:239-495):
    their instructions, executed. */
module GRoutines {
  import opened Words
  import opened Powers
  import opened Options
  import opened GMachine

  const WORD := 0x1_0000_0000

  datatype Reg = EAX | ECX | EDX

  /** A constant, a register, or the dword at [esp+offset]. */
  datatype Src = Imm(value: int) | R(reg: Reg) | Arg(offset: nat)

  datatype Cond = E | NE | L | LE | G | GE

  datatype Logical = And | Or | Xor

  datatype Op =
    | Mov(dst: Reg, src: Src)
    | Fetch(dst: Reg, addr: Reg)   // mov dst, [addr]
    | Put(addr: Reg, from: Reg)    // mov [addr], from
    | Add(dst: Reg, src: Src)
    | Sub(dst: Reg, src: Src)
    | Imul(src: Src)
    | Div(src: Src)
    | Idiv(src: Src)
    | Logic(how: Logical, dst: Reg, src: Src)   // and, or, xor
    | FetchLow(dst: Reg, addr: Reg)  // mov dst's low byte, [addr]
    | PutLow(addr: Reg, from: Reg)   // mov [addr], from's low byte
    | Neg(dst: Reg)
    | Not(dst: Reg)
    | ShlCl(dst: Reg)
    | ShrCl(dst: Reg)
    | Cmp(a: Src, b: Src)

  /** The text of a routine: the only jumps are to a `ret`. */
  datatype Text = Leave | LeaveIf(cond: Cond, rest: Text) | Do(op: Op, rest: Text)

  /** Registers, what was compared last, and memory. */
  datatype Cpu = Cpu(eax: int, ecx: int, edx: int, left: int, right: int, mem: Mem)

  function Get(c: Cpu, r: Reg): int {
    match r
    case EAX => c.eax
    case ECX => c.ecx
    case EDX => c.edx
  }

  function SetReg(c: Cpu, r: Reg, x: int): Cpu {
    match r
    case EAX => c.(eax := x)
    case ECX => c.(ecx := x)
    case EDX => c.(edx := x)
  }

  /** The arguments lie above the return address, the last one lowest; above them is the caller's stack. */
  function Value(c: Cpu, src: Src, xs: seq<int>, sp: int): int {
    match src
    case Imm(x) => x
    case R(r) => Get(c, r)
    case Arg(offset) => if 4 <= offset <= 4 * |xs| then xs[|xs| - offset / 4] else Load(c.mem, sp + offset)
  }

  predicate Holds(cond: Cond, a: int, b: int) {
    match cond
    case E => (a - b) % WORD == 0
    case NE => (a - b) % WORD != 0
    case L => Signed32(a) < Signed32(b)
    case LE => Signed32(a) <= Signed32(b)
    case G => Signed32(a) > Signed32(b)
    case GE => Signed32(a) >= Signed32(b)
  }

  predicate Joins(how: Logical, a: bool, b: bool) {
    match how
    case And => a && b
    case Or => a || b
    case Xor => a != b
  }

  /** The n low bits of x and y, joined bit by bit. */
  function Bitwise(how: Logical, x: int, y: int, n: nat): nat
    decreases n
  {
    if n == 0 then 0
    else (if Joins(how, x % 2 == 1, y % 2 == 1) then 1 else 0) + 2 * Bitwise(how, x / 2, y / 2, n - 1)
  }

  /** The word x with the low byte of y. */
  function WithLow(x: int, y: int): int {
    x - x % 256 + y % 256
  }

  /** div: edx:eax by x; None is the processor's fault on zero or on a quotient that does not fit. */
  function Divide(c: Cpu, x: int): Option<Cpu> {
    var n, d := (c.edx % WORD) * WORD + c.eax % WORD, x % WORD;
    if d == 0 || n / d >= WORD then None else Some(c.(eax := n / d, edx := n % d))
  }

  /** idiv: the same for signed numbers. */
  function DivideSigned(c: Cpu, x: int): Option<Cpu> {
    var n, d := Signed32(c.edx) * WORD + c.eax % WORD, Signed32(x);
    if d == 0 then None
    else
      var q := TruncDiv(n, d);
      if -0x8000_0000 <= q < 0x8000_0000 then Some(c.(eax := q % WORD, edx := (n - q * d) % WORD)) else None
  }

  function Perform(op: Op, c: Cpu, xs: seq<int>, sp: int): Option<Cpu> {
    match op
    case Mov(dst, src) => Some(SetReg(c, dst, Value(c, src, xs, sp)))
    case Fetch(dst, addr) => Some(SetReg(c, dst, Load(c.mem, Get(c, addr))))
    case Put(addr, from) => Some(c.(mem := c.mem[Get(c, addr) := Get(c, from)]))
    case Add(dst, src) => Some(SetReg(c, dst, (Get(c, dst) + Value(c, src, xs, sp)) % WORD))
    case Sub(dst, src) => Some(SetReg(c, dst, (Get(c, dst) - Value(c, src, xs, sp)) % WORD))
    case Imul(src) =>
      var product := Signed32(c.eax) * Signed32(Value(c, src, xs, sp));
      Some(c.(eax := product % WORD, edx := (product / WORD) % WORD))
    case Div(src) => Divide(c, Value(c, src, xs, sp))
    case Idiv(src) => DivideSigned(c, Value(c, src, xs, sp))
    case Logic(how, dst, src) => Some(SetReg(c, dst, Bitwise(how, Get(c, dst), Value(c, src, xs, sp), 32)))
    case FetchLow(dst, addr) => Some(SetReg(c, dst, WithLow(Get(c, dst), Load(c.mem, Get(c, addr)))))
    case PutLow(addr, from) => Some(c.(mem := c.mem[Get(c, addr) := WithLow(Load(c.mem, Get(c, addr)), Get(c, from))]))
    case Neg(dst) => Some(SetReg(c, dst, (-Get(c, dst)) % WORD))
    case Not(dst) => Some(SetReg(c, dst, (-1 - Get(c, dst)) % WORD))
    case ShlCl(dst) => Some(SetReg(c, dst, (Get(c, dst) * Pow2(c.ecx % 32)) % WORD))
    case ShrCl(dst) => Some(SetReg(c, dst, (Get(c, dst) % WORD) / Pow2(c.ecx % 32)))
    case Cmp(a, b) => Some(c.(left := Value(c, a, xs, sp), right := Value(c, b, xs, sp)))
  }

  function Run(text: Text, c: Cpu, xs: seq<int>, sp: int): Option<Cpu> {
    match text
    case Leave => Some(c)
    case LeaveIf(cond, rest) => if Holds(cond, c.left, c.right) then Some(c) else Run(rest, c, xs, sp)
    case Do(op, rest) =>
      match Perform(op, c, xs, sp)
      case None => None
      case Some(c') => Run(rest, c', xs, sp)
  }

  // ----- the routines -----

  function Binary(op: Op): Text {
    Do(Mov(EAX, Arg(8)), Do(op, Leave))
  }

  function Division(op: Op, result: Reg): Text {
    Do(Mov(EDX, Imm(0)), Do(Mov(EAX, Arg(8)), Do(op, if result == EAX then Leave else Do(Mov(EAX, R(result)), Leave))))
  }

  function Comparison(cond: Cond): Text {
    Do(Mov(EAX, Imm(1)), Do(Mov(ECX, Arg(8)), Do(Cmp(R(ECX), Arg(4)), LeaveIf(cond, Do(Mov(EAX, Imm(0)), Leave)))))
  }

  /** && and ||: `same` is the answer if one of the operands meets the condition. */
  function Connective(cond: Cond, same: int): Text {
    Do(Mov(EAX, Imm(same)), Do(Cmp(Arg(8), Imm(0)), LeaveIf(cond, Do(Cmp(Arg(4), Imm(0)), LeaveIf(cond, Do(Mov(EAX, Imm(1 - same)), Leave))))))
  }

  function Shift(op: Op): Text {
    Do(Mov(ECX, Arg(4)), Do(Mov(EAX, Arg(8)), Do(op, Leave)))
  }

  /** The routines of two arguments. */
  function Text2(name: string): Text {
    if name == "/" then Division(Idiv(Arg(4)), EAX)
    else if name == "%" then Division(Idiv(Arg(4)), EDX)
    else if name == "/u" then Division(Div(Arg(4)), EAX)
    else if name == "%u" then Division(Div(Arg(4)), EDX)
    else if name == "=" then Do(Mov(EAX, Arg(4)), Do(Mov(ECX, Arg(8)), Do(Put(ECX, EAX), Leave)))
    else if name == "+" then Binary(Add(EAX, Arg(4)))
    else if name == "-" then Binary(Sub(EAX, Arg(4)))
    else if name == "*" then Binary(Imul(Arg(4)))
    else if name == "==" then Comparison(E)
    else if name == "!=" then Comparison(NE)
    else if name == "<" then Comparison(L)
    else if name == "<=" then Comparison(LE)
    else if name == ">" then Comparison(G)
    else if name == ">=" then Comparison(GE)
    else if name == "<<" then Shift(ShlCl(EAX))
    else if name == ">>" then Shift(ShrCl(EAX))
    else if name == "&&" then Connective(E, 0)
    else if name == "||" then Connective(NE, 1)
    else if name == "&" then Binary(Logic(And, EAX, Arg(4)))
    else if name == "|" then Binary(Logic(Or, EAX, Arg(4)))
    else if name == "^" then Binary(Logic(Xor, EAX, Arg(4)))
    else if name == "=c" then Do(Mov(EAX, Arg(4)), Do(Mov(ECX, Arg(8)), Do(PutLow(ECX, EAX), Leave)))
    else Leave
  }

  /** The routines of one argument. */
  function Text1(name: string): Text {
    if name == "--" then Do(Mov(EAX, Arg(8)), Do(Neg(EAX), Leave))
    else if name == "**" then Do(Mov(EAX, Arg(4)), Do(Fetch(EAX, EAX), Leave))
    else if name == "**c" then Do(Mov(EDX, Arg(4)), Do(Mov(EAX, Imm(0)), Do(FetchLow(EAX, EDX), Leave)))
    else if name == "~" then Do(Mov(EAX, Arg(4)), Do(Not(EAX), Leave))
    else if name == "!" then Do(Mov(EAX, Imm(0)), Do(Cmp(Arg(4), Imm(0)), LeaveIf(NE, Do(Mov(EAX, Imm(1)), Leave))))
    else Leave
  }

  /** A call, with what the registers happen to hold. */
  function Called(name: string, xs: seq<int>, mem: Mem, sp: int): Option<Cpu> {
    Run(if |xs| == 2 then Text2(name) else Text1(name), Cpu(0, 0, 0, 0, 0, mem), xs, sp)
  }

  /** eax and memory after the routine; a fault has no such state, and no program means one. */
  function Effect(name: string, xs: seq<int>, mem: Mem, sp: int): (int, Mem) {
    match Called(name, xs, mem, sp)
    case None => (0, mem)
    case Some(c) => (c.eax, c.mem)
  }
}
