/** The bytes of the emitted instructions (attic/gstaging.c), and what the processor makes of them: the
    formats of the Intel 64 and IA-32 manual, volume 2, as far as this code needs them, with 32-bit operands
    and addresses. */
module GEncoding {
  import opened Options
  import opened Words
  import opened GCompile
  import opened GMachine

  type Octet = b: int | 0 <= b < 256

  // ----- what is emitted -----

  /** emit32 */
  function Word32(x: int): (w: seq<Octet>)
    ensures |w| == 4
  {
    [x % 0x100, x / 0x100 % 0x100, x / 0x1_0000 % 0x100, x / 0x100_0000 % 0x100]
  }

  function Bytes(i: Instr): (b: seq<Octet>)
    ensures |b| == Size(i)
  {
    match i
    case PushImm(value) => [0x68] + Word32(value)
    case LeaEax(offset) => [0x8d, 0x84, 0x24] + Word32(offset)
    case PushEax => [0x50]
    case PushStack(offset) => [0xff, 0xb4, 0x24] + Word32(offset)
    case MovEax(value) => [0xb8] + Word32(value)
    case PushAtEax => [0xff, 0x30]
    case Call(rel) => [0xe8] + Word32(rel)
    case AddEsp(amount) => [0x81, 0xc4] + Word32(amount)
    case PopEax => [0x58]
    case CallEax => [0xff, 0xd0]
    case CmpEax0 => [0x83, 0xf8, 0x00]
    case Je(rel) => [0x0f, 0x84] + Word32(rel)
    case Jmp(rel) => [0xe9] + Word32(rel)
    case SubEsp4 => [0x83, 0xec, 0x04]
    case PushEbp => [0x55]
    case MovEbpEsp => [0x89, 0xe5]
    case PopEbp => [0x5d]
    case Return => [0xc3]
    case Byte(value) => [value % 0x100]
  }

  function Encoded(code: seq<Instr>): (b: seq<Octet>)
    ensures |b| == Sizes(code)
  {
    if code == [] then [] else Bytes(code[0]) + Encoded(code[1..])
  }

  // ----- what the processor reads -----

  /** The registers, in the order of their numbers. */
  datatype Reg = Eax | Ecx | Edx | Ebx | Esp | Ebp | Esi | Edi

  function RegOf(n: int): Reg
    requires 0 <= n < 8
  {
    [Eax, Ecx, Edx, Ebx, Esp, Ebp, Esi, Edi][n]
  }

  datatype Place = InReg(reg: Reg) | InMem(base: Reg, disp: int)

  datatype Op =
    | PushConst(value: int) | Push(from: Place) | Pop(to: Reg)
    | MovConst(to: Reg, value: int) | Mov(place: Place, src: Reg) | Lea(to: Reg, base: Reg, disp: int)
    | AddConst(place: Place, value: int) | SubConst(place: Place, value: int) | CmpConst(place: Place, value: int)
    | CallRel(rel: int) | CallAt(place: Place) | JmpRel(rel: int) | JzRel(rel: int) | Ret

  /** The byte at p; what lies behind the end does not matter. */
  function At(b: seq<Octet>, p: nat): Octet {
    if p < |b| then b[p] else 0
  }

  /** A 32-bit number, the lowest byte first, in two's complement. */
  function Imm32(b: seq<Octet>, p: nat): int {
    Signed32(At(b, p) + 0x100 * At(b, p + 1) + 0x1_0000 * At(b, p + 2) + 0x100_0000 * At(b, p + 3))
  }

  function Imm8(b: seq<Octet>, p: nat): int {
    if At(b, p) < 0x80 then At(b, p) else At(b, p) - 0x100
  }

  /** A ModR/M byte with what belongs to it: its middle field, the place that it names and how long it is.
      Section 2.1.5 of the manual: a SIB byte stands where the lowest field is that of esp; its index is
      that of esp where there is none. */
  function ModRm(b: seq<Octet>, p: nat): Option<(nat, Place, nat)> {
    var mod, reg, rm := At(b, p) / 0x40, At(b, p) / 8 % 8, At(b, p) % 8;
    if mod == 3 then Some((reg, InReg(RegOf(rm)), 1))
    else if mod == 0 && rm != 4 && rm != 5 then Some((reg, InMem(RegOf(rm), 0), 1))
    else if mod == 2 && rm != 4 then Some((reg, InMem(RegOf(rm), Imm32(b, p + 1)), 5))
    else if mod == 2 && At(b, p + 1) / 8 % 8 == 4 then Some((reg, InMem(RegOf(At(b, p + 1) % 8), Imm32(b, p + 2)), 6))
    else None
  }

  /** The instruction at p, and its length. */
  function Decode(b: seq<Octet>, p: nat): Option<(Op, nat)> {
    var o := At(b, p);
    if 0x50 <= o < 0x58 then Some((Push(InReg(RegOf(o - 0x50))), 1))
    else if 0x58 <= o < 0x60 then Some((Pop(RegOf(o - 0x58)), 1))
    else if o == 0x68 then Some((PushConst(Imm32(b, p + 1)), 5))
    else if 0xb8 <= o < 0xc0 then Some((MovConst(RegOf(o - 0xb8), Imm32(b, p + 1)), 5))
    else if o == 0xc3 then Some((Ret, 1))
    else if o == 0xe8 then Some((CallRel(Imm32(b, p + 1)), 5))
    else if o == 0xe9 then Some((JmpRel(Imm32(b, p + 1)), 5))
    else if o == 0x0f && At(b, p + 1) == 0x84 then Some((JzRel(Imm32(b, p + 2)), 6))
    else if o == 0x81 || o == 0x83 || o == 0x89 || o == 0x8d || o == 0xff then
      match ModRm(b, p + 1)
      case None => None
      case Some((reg, place, n)) => WithPlace(o, reg, place, b, p + 1 + n, 1 + n)
    else None
  }

  /** An instruction with a ModR/M byte; an immediate operand is at q. */
  function WithPlace(o: Octet, reg: nat, place: Place, b: seq<Octet>, q: nat, n: nat): Option<(Op, nat)>
    requires reg < 8
  {
    if o == 0x89 then Some((Mov(place, RegOf(reg)), n))
    else if o == 0x8d && place.InMem? then Some((Lea(RegOf(reg), place.base, place.disp), n))
    else if o == 0xff && reg == 2 then Some((CallAt(place), n))
    else if o == 0xff && reg == 6 then Some((Push(place), n))
    else if o == 0x81 || o == 0x83 then
      var v, k := if o == 0x81 then Imm32(b, q) else Imm8(b, q), n + if o == 0x81 then 4 else 1;
      if reg == 0 then Some((AddConst(place, v), k))
      else if reg == 5 then Some((SubConst(place, v), k))
      else if reg == 7 then Some((CmpConst(place, v), k))
      else None
    else None
  }

  // ----- what it does -----

  /** The registers that the machine of this model has. */
  predicate Has(r: Reg) {
    r == Eax || r == Esp || r == Ebp
  }

  function Get(m: M, r: Reg): int
    requires Has(r)
  {
    match r
    case Eax => m.eax
    case Esp => m.esp
    case Ebp => m.ebp
  }

  function Set(m: M, r: Reg, x: int): M
    requires Has(r)
  {
    match r
    case Eax => m.(eax := x)
    case Esp => m.(esp := x)
    case Ebp => m.(ebp := x)
  }

  predicate HasPlace(p: Place) {
    match p
    case InReg(r) => Has(r)
    case InMem(base, _) => Has(base)
  }

  function Fetch(m: M, p: Place): int
    requires HasPlace(p)
  {
    match p
    case InReg(r) => Get(m, r)
    case InMem(base, disp) => Load(m.mem, Get(m, base) + disp)
  }

  function Store(m: M, p: Place, x: int): M
    requires HasPlace(p)
  {
    match p
    case InReg(r) => Set(m, r, x)
    case InMem(base, disp) => m.(mem := m.mem[Get(m, base) + disp := x])
  }

  predicate Knows(op: Op) {
    match op
    case Push(p) => HasPlace(p)
    case CallAt(p) => HasPlace(p)
    case Pop(r) => Has(r)
    case MovConst(r, _) => Has(r)
    case Mov(p, r) => HasPlace(p) && Has(r)
    case Lea(r, base, _) => Has(r) && Has(base)
    case AddConst(p, _) => HasPlace(p)
    case SubConst(p, _) => HasPlace(p)
    case CmpConst(p, _) => HasPlace(p)
    case _ => true
  }

  /** An instruction of n bytes. */
  function Run(op: Op, n: nat, m: M): M
    requires Knows(op)
  {
    var m := m.(pc := m.pc + n);
    match op
    case PushConst(v) => PushWord(m, v)
    case Push(p) => PushWord(m, Fetch(m, p))
    case Pop(r) => Set(m.(esp := m.esp + 4), r, Load(m.mem, m.esp))
    case MovConst(r, v) => Set(m, r, v)
    case Mov(p, r) => Store(m, p, Get(m, r))
    case Lea(r, base, disp) => Set(m, r, Get(m, base) + disp)
    case AddConst(p, v) => Store(m, p, Fetch(m, p) + v)
    case SubConst(p, v) => Store(m, p, Fetch(m, p) - v)
    case CmpConst(p, v) => m.(zf := Fetch(m, p) == v)
    case CallRel(rel) => PushWord(m, m.pc).(pc := m.pc + rel)
    case CallAt(p) => PushWord(m, m.pc).(pc := Fetch(m, p))
    case JmpRel(rel) => m.(pc := m.pc + rel)
    case JzRel(rel) => m.(pc := if m.zf then m.pc + rel else m.pc)
    case Ret => m.(pc := Load(m.mem, m.esp), esp := m.esp + 4)
  }

  // ----- the two agree -----

  /** The instruction with its operand cut to 32 bits. */
  function Narrowed(i: Instr): (r: Instr)
    ensures Size(r) == Size(i)
  {
    match i
    case PushImm(value) => PushImm(Signed32(value))
    case LeaEax(offset) => LeaEax(Signed32(offset))
    case PushStack(offset) => PushStack(Signed32(offset))
    case MovEax(value) => MovEax(Signed32(value))
    case Call(rel) => Call(Signed32(rel))
    case AddEsp(amount) => AddEsp(Signed32(amount))
    case Je(rel) => Je(Signed32(rel))
    case Jmp(rel) => Jmp(Signed32(rel))
    case _ => i
  }

  predicate Narrow(i: Instr) {
    Narrowed(i) == i
  }

  /** An operand that is a signed 32-bit number is not cut. */
  lemma NarrowOperand(x: int)
    ensures Signed32(x) == x <==> -0x8000_0000 <= x < 0x8000_0000
  {
  }

  /** These bytes lie at p. */
  predicate Lies(b: seq<Octet>, p: nat, w: seq<Octet>) {
    p + |w| <= |b| && forall k :: 0 <= k < |w| ==> At(b, p + k) == w[k]
  }

  lemma WordValue(x: int)
    ensures x % 0x100 + 0x100 * (x / 0x100 % 0x100) + 0x1_0000 * (x / 0x1_0000 % 0x100) + 0x100_0000 * (x / 0x100_0000 % 0x100)
         == x % 0x1_0000_0000
  {
    Digits(x, x / 0x100);
    Digits(x / 0x100, x / 0x1_0000);
    Digits(x / 0x1_0000, x / 0x100_0000);
    Digits(x / 0x100_0000, x / 0x100_0000 / 0x100);
  }

  lemma Digits(x: int, q: int)
    requires q == x / 0x100
    ensures x == x % 0x100 + 0x100 * q
  {
  }

  /** What emit32 writes is read back, cut to 32 bits. */
  lemma WordRead(b: seq<Octet>, p: nat, q: nat, w: seq<Octet>, x: int)
    requires Lies(b, p, w) && q >= p && q + 4 == p + |w| && w[q - p..] == Word32(x)
    ensures Imm32(b, q) == Signed32(x)
  {
    hide Signed32;
    WordValue(x);
    var k := q - p;
    assert w[k..][0] == w[k] && w[k..][1] == w[k + 1] && w[k..][2] == w[k + 2] && w[k..][3] == w[k + 3];
    assert At(b, p + k) == w[k] && At(b, p + (k + 1)) == w[k + 1] && At(b, p + (k + 2)) == w[k + 2] && At(b, p + (k + 3)) == w[k + 3];
    SameWord(x % 0x1_0000_0000, x);
  }

  lemma SameWord(x: int, y: int)
    requires x == y % 0x1_0000_0000
    ensures Signed32(x) == Signed32(y)
  {
  }

  /** At p stands an instruction of n bytes that does what the machine takes i to do. */
  ghost predicate Does(b: seq<Octet>, p: nat, i: Instr) {
    var d := Decode(b, p);
    d.Some? && d.value.1 == Size(i) && Knows(d.value.0) && forall m: M :: Exec(i, m) == Some(Run(d.value.0, d.value.1, m))
  }

  lemma OneByteRead(b: seq<Octet>, p: nat, i: Instr)
    requires i.PushEax? || i.PopEax? || i.PushEbp? || i.PopEbp? || i.Return?
    requires Lies(b, p, Bytes(i))
    ensures Does(b, p, i)
  {
    assert At(b, p + 0) == Bytes(i)[0];
  }

  lemma TwoBytesRead(b: seq<Octet>, p: nat, i: Instr)
    requires i.PushAtEax? || i.CallEax? || i.MovEbpEsp?
    requires Lies(b, p, Bytes(i))
    ensures Does(b, p, i)
  {
    var w := Bytes(i);
    assert At(b, p + 0) == w[0] && At(b, p + 1) == w[1];
  }

  lemma ByteOperandRead(b: seq<Octet>, p: nat, i: Instr)
    requires (i.CmpEax0? || i.SubEsp4?) && Lies(b, p, Bytes(i))
    ensures Does(b, p, i)
  {
    var w := Bytes(i);
    assert At(b, p + 0) == w[0] && At(b, p + 1) == w[1] && At(b, p + 2) == w[2];
  }

  lemma ShortRead(b: seq<Octet>, p: nat, i: Instr, x: int)
    requires i == PushImm(x) || i == MovEax(x) || i == Call(x) || i == Jmp(x)
    requires Lies(b, p, Bytes(i))
    ensures Does(b, p, Narrowed(i))
  {
    hide Signed32, Imm32;
    var w := Bytes(i);
    assert At(b, p + 0) == w[0];
    WordRead(b, p, p + 1, w, x);
  }

  lemma StackRead(b: seq<Octet>, p: nat, i: Instr, x: int)
    requires i == LeaEax(x) || i == PushStack(x)
    requires Lies(b, p, Bytes(i))
    ensures Does(b, p, Narrowed(i))
  {
    hide Signed32, Imm32;
    var w := Bytes(i);
    assert At(b, p + 0) == w[0] && At(b, p + 1) == w[1] && At(b, p + 2) == w[2];
    WordRead(b, p, p + (|w| - 4), w, x);
  }

  lemma LongRead(b: seq<Octet>, p: nat, i: Instr, x: int)
    requires i == AddEsp(x) || i == Je(x)
    requires Lies(b, p, Bytes(i))
    ensures Does(b, p, Narrowed(i))
  {
    hide Signed32, Imm32;
    var w := Bytes(i);
    assert At(b, p + 0) == w[0] && At(b, p + 1) == w[1] && At(b, p + 2) == w[2];
    WordRead(b, p, p + (|w| - 4), w, x);
  }

  /** Wherever the bytes of an instruction lie, the processor reads the instruction that the machine carries
      out, its operand cut to 32 bits, and goes on behind them. */
  lemma InstrRead(b: seq<Octet>, p: nat, i: Instr)
    requires !i.Byte? && Lies(b, p, Bytes(i))
    ensures Does(b, p, Narrowed(i))
  {
    hide Does, Lies, Bytes;
    match i
    case PushImm(x) => ShortRead(b, p, i, x);
    case MovEax(x) => ShortRead(b, p, i, x);
    case Call(x) => ShortRead(b, p, i, x);
    case Jmp(x) => ShortRead(b, p, i, x);
    case LeaEax(x) => StackRead(b, p, i, x);
    case PushStack(x) => StackRead(b, p, i, x);
    case AddEsp(x) => LongRead(b, p, i, x);
    case Je(x) => LongRead(b, p, i, x);
    case CmpEax0 => ByteOperandRead(b, p, i);
    case SubEsp4 => ByteOperandRead(b, p, i);
    case PushAtEax => TwoBytesRead(b, p, i);
    case CallEax => TwoBytesRead(b, p, i);
    case MovEbpEsp => TwoBytesRead(b, p, i);
    case _ => OneByteRead(b, p, i);
  }

  lemma {:induction false} EncodedConcat(a: seq<Instr>, b: seq<Instr>)
    ensures Encoded(a + b) == Encoded(a) + Encoded(b)
    decreases |a|
  {
    hide Bytes, Sizes;
    if a == [] {
      assert a + b == b;
    } else {
      assert (a + b)[0] == a[0] && (a + b)[1..] == a[1..] + b;
      EncodedConcat(a[1..], b);
      assert Bytes(a[0]) + (Encoded(a[1..]) + Encoded(b)) == Bytes(a[0]) + Encoded(a[1..]) + Encoded(b);
    }
  }

  lemma LiesBetween(x: seq<Octet>, w: seq<Octet>, y: seq<Octet>)
    ensures Lies(x + w + y, |x|, w)
  {
    forall k | 0 <= k < |w| ensures At(x + w + y, |x| + k) == w[k] {
    }
  }

  lemma EncodedAt(code: seq<Instr>, k: nat)
    requires k < |code|
    ensures Lies(Encoded(code), Sizes(code[..k]), Bytes(code[k]))
  {
    hide Bytes, Encoded, Sizes, Lies;
    var a, i, c := code[..k], code[k], code[k + 1..];
    assert code == a + [i] + c;
    EncodedConcat(a + [i], c);
    EncodedConcat(a, [i]);
    EncodedOne(i);
    LiesBetween(Encoded(a), Bytes(i), Encoded(c));
  }

  lemma EncodedOne(i: Instr)
    ensures Encoded([i]) == Bytes(i)
  {
    hide Bytes;
    assert [i][1..] == [];
    assert Encoded([i]) == Bytes(i) + [];
  }

  /** Main result: the bytes of the whole code, read from the place of any instruction in it, are that
      instruction; and where data stands, they are the data. */
  lemma CodeRead(code: seq<Instr>, k: nat)
    requires k < |code|
    ensures !code[k].Byte? ==> Does(Encoded(code), Sizes(code[..k]), Narrowed(code[k]))
    ensures code[k].Byte? ==> At(Encoded(code), Sizes(code[..k])) == code[k].value % 0x100
    ensures Sizes(code[..k]) + Size(code[k]) <= |Encoded(code)|
  {
    hide Does, Encoded, Sizes;
    EncodedAt(code, k);
    if code[k].Byte? {
      assert At(Encoded(code), Sizes(code[..k]) + 0) == Bytes(code[k])[0];
    } else {
      InstrRead(Encoded(code), Sizes(code[..k]), code[k]);
    }
  }
}
