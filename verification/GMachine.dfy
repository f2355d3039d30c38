/** The processor, as far as the emitted code uses it.  Memory is a map from addresses to words, a
    cell that was never written reads as zero, and words and addresses are integers. */
module GMachine {
  import opened Options
  import opened GSyntax
  import opened GCompile

  type Mem = map<int, int>

  function Load(mem: Mem, a: int): int {
    if a in mem then mem[a] else 0
  }

  datatype M = M(pc: int, eax: int, esp: int, ebp: int, zf: bool, mem: Mem)

  /** A routine of the run-time library: its name and how many arguments it takes. */
  datatype Routine = Routine(name: string, arity: nat)

  /** What is loaded besides the data: code, library routines (given by what they do to memory), and
      the routine `param`, which reads an argument of its caller's frame. */
  datatype Image = Image(
    code: map<int, Instr>,
    routines: map<int, Routine>,
    effect: (string, seq<int>, Mem, int) -> (int, Mem),
    paramLoc: int)

  function PushWord(m: M, x: int): M {
    m.(esp := m.esp - 4, mem := m.mem[m.esp - 4 := x])
  }

  function Exec(i: Instr, m: M): Option<M> {
    var next := m.pc + Size(i);
    match i
    case PushImm(v) => Some(PushWord(m, v).(pc := next))
    case LeaEax(off) => Some(m.(eax := m.esp + off, pc := next))
    case PushEax => Some(PushWord(m, m.eax).(pc := next))
    case PushStack(off) => Some(PushWord(m, Load(m.mem, m.esp + off)).(pc := next))
    case MovEax(v) => Some(m.(eax := v, pc := next))
    case PushAtEax => Some(PushWord(m, Load(m.mem, m.eax)).(pc := next))
    case Call(rel) => Some(PushWord(m, next).(pc := next + rel))
    case AddEsp(n) => Some(m.(esp := m.esp + n, pc := next))
    case PopEax => Some(m.(eax := Load(m.mem, m.esp), esp := m.esp + 4, pc := next))
    case CallEax => Some(PushWord(m, next).(pc := m.eax))
    case CmpEax0 => Some(m.(zf := m.eax == 0, pc := next))
    case Je(rel) => Some(m.(pc := if m.zf then next + rel else next))
    case Jmp(rel) => Some(m.(pc := next + rel))
    case SubEsp4 => Some(m.(esp := m.esp - 4, pc := next))
    case PushEbp => Some(PushWord(m, m.ebp).(pc := next))
    case MovEbpEsp => Some(m.(ebp := m.esp, pc := next))
    case PopEbp => Some(m.(ebp := Load(m.mem, m.esp), esp := m.esp + 4, pc := next))
    case Return => Some(m.(pc := Load(m.mem, m.esp), esp := m.esp + 4))
    case Byte(_) => None
  }

  /** The arguments above the return address, the first one pushed first. */
  function StackArgs(m: M, arity: nat): seq<int> {
    seq(arity, i requires 0 <= i < arity => Load(m.mem, m.esp + 4 * (arity - i)))
  }

  function Step(img: Image, m: M): Option<M> {
    if m.pc in img.code then Exec(img.code[m.pc], m)
    else if m.pc == img.paramLoc then
      // mov eax, [esp+4]; mov eax, [ebp+eax*4+8]; ret
      Some(m.(eax := Load(m.mem, m.ebp + 4 * Load(m.mem, m.esp + 4) + 8), pc := Load(m.mem, m.esp), esp := m.esp + 4))
    else if m.pc in img.routines then
      var r := img.routines[m.pc];
      var (x, mem') := img.effect(r.name, StackArgs(m, r.arity), m.mem, m.esp);
      Some(m.(eax := x, mem := mem', pc := Load(mem', m.esp), esp := m.esp + 4))
    else None
  }

  function Steps(img: Image, m: M, n: nat): Option<M>
    decreases n
  {
    if n == 0 then Some(m)
    else
      match Step(img, m)
      case None => None
      case Some(m') => Steps(img, m', n - 1)
  }

  ghost predicate Reaches(img: Image, m: M, m': M) {
    exists n: nat :: Steps(img, m, n) == Some(m')
  }

  lemma {:induction false} StepsAdd(img: Image, m: M, m': M, k: nat, n: nat)
    requires Steps(img, m, k) == Some(m')
    ensures Steps(img, m, k + n) == Steps(img, m', n)
    decreases k
  {
    if k > 0 {
      StepsAdd(img, Step(img, m).value, m', k - 1, n);
    }
  }

  lemma ReachesSelf(img: Image, m: M)
    ensures Reaches(img, m, m)
  {
    assert Steps(img, m, 0) == Some(m);
  }

  lemma ReachesTrans(img: Image, a: M, b: M, c: M)
    requires Reaches(img, a, b) && Reaches(img, b, c)
    ensures Reaches(img, a, c)
  {
    var k: nat :| Steps(img, a, k) == Some(b);
    var n: nat :| Steps(img, b, n) == Some(c);
    StepsAdd(img, a, b, k, n);
  }

  lemma ReachesStep(img: Image, a: M, b: M, c: M)
    requires Step(img, a) == Some(b) && Reaches(img, b, c)
    ensures Reaches(img, a, c)
  {
    var n: nat :| Steps(img, b, n) == Some(c);
    assert Steps(img, a, n + 1) == Some(c);
  }

  lemma ReachesOne(img: Image, a: M, b: M)
    requires Step(img, a) == Some(b)
    ensures Reaches(img, a, b)
  {
    ReachesSelf(img, b);
    ReachesStep(img, a, b, b);
  }

  // ----- code in memory -----

  ghost predicate CodeAt(img: Image, loc: int, code: seq<Instr>)
    decreases |code|
  {
    code == [] || (loc in img.code && img.code[loc] == code[0] && CodeAt(img, loc + Size(code[0]), code[1..]))
  }

  lemma {:induction false} CodeAtSplit(img: Image, loc: int, a: seq<Instr>, b: seq<Instr>)
    requires CodeAt(img, loc, a + b)
    ensures CodeAt(img, loc, a) && CodeAt(img, loc + Sizes(a), b)
    decreases |a|
  {
    if a == [] {
      assert a + b == b;
    } else {
      assert (a + b)[0] == a[0] && (a + b)[1..] == a[1..] + b;
      CodeAtSplit(img, loc + Size(a[0]), a[1..], b);
    }
  }

  lemma CodeAtSplit3(img: Image, loc: int, a: seq<Instr>, b: seq<Instr>, c: seq<Instr>)
    requires CodeAt(img, loc, a + b + c)
    ensures CodeAt(img, loc, a) && CodeAt(img, loc + Sizes(a), b) && CodeAt(img, loc + Sizes(a) + Sizes(b), c)
  {
    CodeAtSplit(img, loc, a + b, c);
    CodeAtSplit(img, loc, a, b);
    SizesConcat(a, b);
  }

  /** One instruction of a sequence. */
  lemma CodeFirst(img: Image, loc: int, code: seq<Instr>)
    requires CodeAt(img, loc, code) && code != []
    ensures loc in img.code && img.code[loc] == code[0] && CodeAt(img, loc + Size(code[0]), code[1..])
  {
  }
}
