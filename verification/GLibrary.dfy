/** What the operators of G mean, and the proof that the routines behind them do that: the library that
    the compiler's correctness asks for exists. */
module GLibrary {
  import opened Words
  import opened Powers
  import opened Options
  import opened GSyntax
  import opened GCompile
  import opened GMachine
  import opened GSemantics
  import opened GFrame
  import opened GCorrect
  import Cpu = GRoutines

  const WORD := Cpu.WORD

  function Truth(b: bool): int {
    if b then 1 else 0
  }

  predicate Zero(x: int) {
    x % WORD == 0
  }

  /** Operators on two numbers, as C has them on words; None where C leaves it open, and for a negative
      dividend, where the routines do not do what C does. */
  function Meaning2(name: string, x: int, y: int): Option<int> {
    if name == "/" then (if Signed32(x) >= 0 && !Zero(y) then Some(TruncDiv(Signed32(x), Signed32(y)) % WORD) else None)
    else if name == "%" then (if Signed32(x) >= 0 && !Zero(y) then Some((Signed32(x) - TruncDiv(Signed32(x), Signed32(y)) * Signed32(y)) % WORD) else None)
    else if name == "/u" then (if !Zero(y) then Some((x % WORD) / (y % WORD)) else None)
    else if name == "%u" then (if !Zero(y) then Some((x % WORD) % (y % WORD)) else None)
    else if name == "=" || name == "=c" then None
    else if name == "+" then Some((x + y) % WORD)
    else if name == "-" then Some((x - y) % WORD)
    else if name == "*" then Some((x * y) % WORD)
    else if name == "==" then Some(Truth(x % WORD == y % WORD))
    else if name == "!=" then Some(Truth(x % WORD != y % WORD))
    else if name == "<" then Some(Truth(Signed32(x) < Signed32(y)))
    else if name == "<=" then Some(Truth(Signed32(x) <= Signed32(y)))
    else if name == ">" then Some(Truth(Signed32(x) > Signed32(y)))
    else if name == ">=" then Some(Truth(Signed32(x) >= Signed32(y)))
    else if name == "<<" then (if 0 <= y < 32 then Some((x * Pow2(y)) % WORD) else None)
    else if name == ">>" then (if 0 <= y < 32 then Some((x % WORD) / Pow2(y)) else None)
    else if name == "&&" then Some(Truth(!Zero(x) && !Zero(y)))
    else if name == "||" then Some(Truth(!Zero(x) || !Zero(y)))
    else if name == "&" then Some(Cpu.Bitwise(Cpu.And, x, y, 32))
    else if name == "|" then Some(Cpu.Bitwise(Cpu.Or, x, y, 32))
    else if name == "^" then Some(Cpu.Bitwise(Cpu.Xor, x, y, 32))
    else None
  }

  function Meaning1(name: string, x: int): Option<int> {
    if name == "--" || name == "**" || name == "**c" then None
    else if name == "~" then Some((-1 - x) % WORD)
    else if name == "!" then Some(Truth(Zero(x)))
    else None
  }

  function Just(x: Option<int>, st: Store): Option<(Val, Store)> {
    match x
    case None => None
    case Some(v) => Some((Word(v), st))
  }

  /** What the routines mean: a store or a load must go to memory that the program has.  Memory is by words,
      lowest byte first, so a byte is loaded or stored where a word starts. */
  function Meaning(name: string, vs: seq<Val>, st: Store): Option<(Val, Store)> {
    if |vs| == 2 then
      if name == "=" then (if vs[0].Word? && vs[0].value in st then Some((vs[1], st[vs[0].value := vs[1]])) else None)
      else if vs[0].Undef? || vs[1].Undef? then None
      else if name == "=c" then
        if vs[0].value in st && st[vs[0].value].Word?
        then Some((vs[1], st[vs[0].value := Word(Cpu.WithLow(st[vs[0].value].value, vs[1].value))])) else None
      else Just(Meaning2(name, vs[0].value, vs[1].value), st)
    else if |vs| == 1 && vs[0].Word? then
      if name == "**" then (if vs[0].value in st then Some((st[vs[0].value], st)) else None)
      else if name == "**c" then
        if vs[0].value in st && st[vs[0].value].Word? then Some((Word(st[vs[0].value].value % 256), st)) else None
      else Just(Meaning1(name, vs[0].value), st)
    else None
  }

  // ----- the routines, run -----

  lemma BinaryRuns(op: Cpu.Op, x: int, y: int, mem: Mem, sp: int, c: Cpu.Cpu)
    requires Cpu.Perform(op, Cpu.Cpu(x, 0, 0, 0, 0, mem), [x, y], sp) == Some(c)
    ensures Cpu.Run(Cpu.Binary(op), START(mem), [x, y], sp) == Some(c)
  {
    assert Cpu.Run(Cpu.Do(op, Cpu.Leave), Cpu.Cpu(x, 0, 0, 0, 0, mem), [x, y], sp) == Cpu.Run(Cpu.Leave, c, [x, y], sp);
  }

  function START(mem: Mem): Cpu.Cpu {
    Cpu.Cpu(0, 0, 0, 0, 0, mem)
  }

  function Moved(r: Option<Cpu.Cpu>, result: Cpu.Reg): Option<Cpu.Cpu> {
    match r
    case None => None
    case Some(c) => Some(if result == Cpu.EAX then c else c.(eax := Cpu.Get(c, result)))
  }

  lemma DivisionRuns(op: Cpu.Op, result: Cpu.Reg, x: int, y: int, mem: Mem, sp: int)
    ensures var r := Cpu.Perform(op, Cpu.Cpu(x, 0, 0, 0, 0, mem), [x, y], sp);
            Cpu.Run(Cpu.Division(op, result), START(mem), [x, y], sp) == Moved(r, result)
  {
    var c2 := Cpu.Cpu(x, 0, 0, 0, 0, mem);
    var tail := if result == Cpu.EAX then Cpu.Leave else Cpu.Do(Cpu.Mov(Cpu.EAX, Cpu.R(result)), Cpu.Leave);
    assert Cpu.Run(Cpu.Division(op, result), START(mem), [x, y], sp)
        == Cpu.Run(Cpu.Do(Cpu.Mov(Cpu.EAX, Cpu.Arg(8)), Cpu.Do(op, tail)), START(mem), [x, y], sp)
        == Cpu.Run(Cpu.Do(op, tail), c2, [x, y], sp);
    var r := Cpu.Perform(op, c2, [x, y], sp);
    if r.Some? {
      assert Cpu.Run(tail, r.value, [x, y], sp) == Moved(r, result);
      assert Cpu.Run(Cpu.Do(op, tail), c2, [x, y], sp) == Cpu.Run(tail, r.value, [x, y], sp);
    } else {
      assert Cpu.Run(Cpu.Do(op, tail), c2, [x, y], sp) == None;
    }
  }

  lemma ComparisonRuns(cond: Cpu.Cond, x: int, y: int, mem: Mem, sp: int)
    ensures var r := Cpu.Run(Cpu.Comparison(cond), START(mem), [x, y], sp);
            r.Some? && r.value.mem == mem && r.value.eax == Truth(Cpu.Holds(cond, x, y))
  {
    var c1 := Cpu.Cpu(1, 0, 0, 0, 0, mem);
    var c2 := Cpu.Cpu(1, x, 0, 0, 0, mem);
    var c3 := Cpu.Cpu(1, x, 0, x, y, mem);
    var last := Cpu.Do(Cpu.Mov(Cpu.EAX, Cpu.Imm(0)), Cpu.Leave);
    var cmp := Cpu.Do(Cpu.Cmp(Cpu.R(Cpu.ECX), Cpu.Arg(4)), Cpu.LeaveIf(cond, last));
    assert Cpu.Run(Cpu.Comparison(cond), START(mem), [x, y], sp) == Cpu.Run(Cpu.Do(Cpu.Mov(Cpu.ECX, Cpu.Arg(8)), cmp), c1, [x, y], sp);
    assert Cpu.Run(Cpu.Do(Cpu.Mov(Cpu.ECX, Cpu.Arg(8)), cmp), c1, [x, y], sp) == Cpu.Run(cmp, c2, [x, y], sp);
    assert Cpu.Run(cmp, c2, [x, y], sp) == Cpu.Run(Cpu.LeaveIf(cond, last), c3, [x, y], sp);
    assert Cpu.Run(last, c3, [x, y], sp) == Some(c3.(eax := 0));
  }

  lemma ConnectiveRuns(cond: Cpu.Cond, same: int, x: int, y: int, mem: Mem, sp: int)
    ensures var r := Cpu.Run(Cpu.Connective(cond, same), START(mem), [x, y], sp);
            r.Some? && r.value.mem == mem
            && r.value.eax == if Cpu.Holds(cond, x, 0) || Cpu.Holds(cond, y, 0) then same else 1 - same
  {
    var c1 := Cpu.Cpu(same, 0, 0, 0, 0, mem);
    var c2 := Cpu.Cpu(same, 0, 0, x, 0, mem);
    var c3 := Cpu.Cpu(same, 0, 0, y, 0, mem);
    var last := Cpu.Do(Cpu.Mov(Cpu.EAX, Cpu.Imm(1 - same)), Cpu.Leave);
    var second := Cpu.Do(Cpu.Cmp(Cpu.Arg(4), Cpu.Imm(0)), Cpu.LeaveIf(cond, last));
    var first := Cpu.Do(Cpu.Cmp(Cpu.Arg(8), Cpu.Imm(0)), Cpu.LeaveIf(cond, second));
    assert Cpu.Run(Cpu.Connective(cond, same), START(mem), [x, y], sp) == Cpu.Run(first, c1, [x, y], sp);
    assert Cpu.Run(first, c1, [x, y], sp) == Cpu.Run(Cpu.LeaveIf(cond, second), c2, [x, y], sp);
    assert Cpu.Run(second, c2, [x, y], sp) == Cpu.Run(Cpu.LeaveIf(cond, last), c3, [x, y], sp);
    assert Cpu.Run(last, c3, [x, y], sp) == Some(c3.(eax := 1 - same));
  }

  lemma ShiftRuns(op: Cpu.Op, x: int, y: int, mem: Mem, sp: int)
    ensures Cpu.Run(Cpu.Shift(op), START(mem), [x, y], sp) == Cpu.Perform(op, Cpu.Cpu(x, y, 0, 0, 0, mem), [x, y], sp)
  {
    var c1 := Cpu.Cpu(0, y, 0, 0, 0, mem);
    var c2 := Cpu.Cpu(x, y, 0, 0, 0, mem);
    assert Cpu.Run(Cpu.Shift(op), START(mem), [x, y], sp)
        == Cpu.Run(Cpu.Do(Cpu.Mov(Cpu.EAX, Cpu.Arg(8)), Cpu.Do(op, Cpu.Leave)), c1, [x, y], sp)
        == Cpu.Run(Cpu.Do(op, Cpu.Leave), c2, [x, y], sp);
    var r := Cpu.Perform(op, c2, [x, y], sp);
    if r.Some? {
      assert Cpu.Run(Cpu.Do(op, Cpu.Leave), c2, [x, y], sp) == Cpu.Run(Cpu.Leave, r.value, [x, y], sp);
    }
  }

  lemma StoreRuns(x: int, y: int, mem: Mem, sp: int)
    ensures Cpu.Effect("=", [x, y], mem, sp) == (y, mem[x := y])
  {
    assert "="[0] != "/"[0] && "="[0] != "%"[0];
    var put := Cpu.Do(Cpu.Put(Cpu.ECX, Cpu.EAX), Cpu.Leave);
    var next := Cpu.Do(Cpu.Mov(Cpu.ECX, Cpu.Arg(8)), put);
    var c1 := Cpu.Cpu(y, 0, 0, 0, 0, mem);
    var c2 := Cpu.Cpu(y, x, 0, 0, 0, mem);
    assert Cpu.Run(Cpu.Text2("="), START(mem), [x, y], sp) == Cpu.Run(next, c1, [x, y], sp);
    assert Cpu.Run(next, c1, [x, y], sp) == Cpu.Run(put, c2, [x, y], sp);
    assert Cpu.Run(put, c2, [x, y], sp) == Some(c2.(mem := mem[x := y]));
  }

  // ----- the arithmetic of the fixed word -----

  lemma ImulWraps(x: int, y: int)
    ensures (Signed32(x) * Signed32(y)) % WORD == (x * y) % WORD
  {
    var a, b := (x - Signed32(x)) / WORD, (y - Signed32(y)) / WORD;
    assert x == Signed32(x) + a * WORD && y == Signed32(y) + b * WORD;
    var sx, sy := Signed32(x), Signed32(y);
    assert x * y == sx * sy + (sx * b + a * y) * WORD by {
      assert (sx + a * WORD) * y == sx * y + (a * y) * WORD;
      assert sx * (sy + b * WORD) == sx * sy + (sx * b) * WORD;
    }
    var k := sx * b + a * y;
    DivBounds(sx * sy, WORD);
    DivUnique(sx * sy + k * WORD, WORD, (sx * sy) / WORD + k);
    DivBounds(sx * sy + k * WORD, WORD);
  }

  lemma SmallDividend(n: int, d: int)
    requires 0 <= n < 0x8000_0000 && d != 0
    ensures -0x8000_0000 < TruncDiv(n, d) < 0x8000_0000
  {
    TruncDivMeaning(n, d);
  }

  lemma SignedDivides(name: string, x: int, y: int, mem: Mem, sp: int)
    requires name == "/" || name == "%"
    requires Meaning2(name, x, y).Some?
    ensures Cpu.Effect(name, [x, y], mem, sp) == (Meaning2(name, x, y).value, mem)
  {
    hide TruncDiv;
    DivisionRuns(Cpu.Idiv(Cpu.Arg(4)), if name == "/" then Cpu.EAX else Cpu.EDX, x, y, mem, sp);
    SmallDividend(x % WORD, Signed32(y));
  }

  lemma UnsignedDivides(name: string, x: int, y: int, mem: Mem, sp: int)
    requires name != "/" && name != "%" && (name == "/u" || name == "%u")
    requires Meaning2(name, x, y).Some?
    ensures Cpu.Effect(name, [x, y], mem, sp) == (Meaning2(name, x, y).value, mem)
  {
    DivisionRuns(Cpu.Div(Cpu.Arg(4)), if name == "/u" then Cpu.EAX else Cpu.EDX, x, y, mem, sp);
    DivNonNegative(x % WORD, y % WORD);
  }

  lemma SumsAndProducts(name: string, x: int, y: int, mem: Mem, sp: int)
    requires name !in ["/", "%", "/u", "%u", "="] && (name == "+" || name == "-" || name == "*")
    ensures Cpu.Effect(name, [x, y], mem, sp) == (Meaning2(name, x, y).value, mem)
  {
    var c := Cpu.Cpu(x, 0, 0, 0, 0, mem);
    if name == "+" {
      BinaryRuns(Cpu.Add(Cpu.EAX, Cpu.Arg(4)), x, y, mem, sp, c.(eax := (x + y) % WORD));
    } else if name == "-" {
      BinaryRuns(Cpu.Sub(Cpu.EAX, Cpu.Arg(4)), x, y, mem, sp, c.(eax := (x - y) % WORD));
    } else {
      ImulWraps(x, y);
      var p := Signed32(x) * Signed32(y);
      BinaryRuns(Cpu.Imul(Cpu.Arg(4)), x, y, mem, sp, c.(eax := p % WORD, edx := (p / WORD) % WORD));
    }
  }

  lemma SameWord(x: int, y: int)
    ensures (x - y) % WORD == 0 <==> x % WORD == y % WORD
  {
    DivBounds(x, WORD);
    DivBounds(y, WORD);
    DivBounds(x - y, WORD);
  }

  function CondOf(name: string): Cpu.Cond {
    if name == "==" then Cpu.E else if name == "!=" then Cpu.NE else if name == "<" then Cpu.L
    else if name == "<=" then Cpu.LE else if name == ">" then Cpu.G else Cpu.GE
  }

  lemma Comparisons(name: string, x: int, y: int, mem: Mem, sp: int)
    requires name !in ["/", "%", "/u", "%u", "=", "+", "-", "*"] && name in ["==", "!=", "<", "<=", ">", ">="]
    ensures Cpu.Effect(name, [x, y], mem, sp) == (Meaning2(name, x, y).value, mem)
  {
    hide Signed32;
    SameWord(x, y);
    ComparisonRuns(CondOf(name), x, y, mem, sp);
  }

  lemma ShiftsAndConnectives(name: string, x: int, y: int, mem: Mem, sp: int)
    requires name !in ["/", "%", "/u", "%u", "=", "+", "-", "*", "==", "!=", "<", "<=", ">", ">=", "&", "|", "^"]
    requires Meaning2(name, x, y).Some?
    ensures Cpu.Effect(name, [x, y], mem, sp) == (Meaning2(name, x, y).value, mem)
  {
    if name == "<<" {
      ShiftRuns(Cpu.ShlCl(Cpu.EAX), x, y, mem, sp);
    } else if name == ">>" {
      ShiftRuns(Cpu.ShrCl(Cpu.EAX), x, y, mem, sp);
    } else if name == "&&" {
      ConnectiveRuns(Cpu.E, 0, x, y, mem, sp);
    } else {
      ConnectiveRuns(Cpu.NE, 1, x, y, mem, sp);
    }
  }

  lemma BitwiseHolds(name: string, x: int, y: int, mem: Mem, sp: int)
    requires name !in ["/", "%", "/u", "%u", "=", "+", "-", "*", "==", "!=", "<", "<=", ">", ">=", "<<", ">>", "&&", "||"]
    requires name in ["&", "|", "^"]
    ensures Cpu.Effect(name, [x, y], mem, sp) == (Meaning2(name, x, y).value, mem)
  {
    hide Cpu.Bitwise;
    var c, how := Cpu.Cpu(x, 0, 0, 0, 0, mem), if name == "&" then Cpu.And else if name == "|" then Cpu.Or else Cpu.Xor;
    BinaryRuns(Cpu.Logic(how, Cpu.EAX, Cpu.Arg(4)), x, y, mem, sp, c.(eax := Cpu.Bitwise(how, x, y, 32)));
  }

  predicate Bit(x: int, k: nat) {
    (x / Pow2(k)) % 2 == 1
  }

  /** Each bit of the result of `&`, `|` or `^` joins the bits of the operands. */
  lemma {:induction false} BitwiseBits(how: Cpu.Logical, x: int, y: int, n: nat, k: nat)
    requires k < n
    ensures Cpu.Bitwise(how, x, y, n) < Pow2(n)
    ensures Bit(Cpu.Bitwise(how, x, y, n), k) <==> Cpu.Joins(how, Bit(x, k), Bit(y, k))
    decreases n
  {
    hide Bit;
    var r := Cpu.Bitwise(how, x / 2, y / 2, n - 1);
    var low := Cpu.Bitwise(how, x, y, n) - 2 * r;
    if n == 1 {
      assert r == 0;
    } else {
      BitwiseBits(how, x / 2, y / 2, n - 1, if k == 0 then 0 else k - 1);
    }
    LowBit(x);
    LowBit(y);
    LowBit(low + 2 * r);
    if k > 0 {
      HigherBit(x, k);
      HigherBit(y, k);
      HigherBit(low + 2 * r, k);
      assert (low + 2 * r) / 2 == r;
    }
  }

  lemma LowBit(x: int)
    ensures Bit(x, 0) <==> x % 2 == 1
  {
    assert Pow2(0) == 1;
  }

  lemma HigherBit(x: int, k: nat)
    requires k > 0
    ensures Bit(x, k) <==> Bit(x / 2, k - 1)
  {
    var p, h := Pow2(k - 1), x / 2;
    var q := h / p;
    DivBounds(h, p);
    DivBounds(x, 2);
    assert q * (2 * p) == 2 * (q * p);
    DivUnique(x, 2 * p, q);
  }

  /** Every operator on two numbers leaves in eax what it means, and memory alone. */
  lemma OperatorHolds(name: string, x: int, y: int, mem: Mem, sp: int)
    requires Meaning2(name, x, y).Some?
    ensures Cpu.Effect(name, [x, y], mem, sp) == (Meaning2(name, x, y).value, mem)
  {
    hide Cpu.Effect;
    if name == "/" || name == "%" {
      SignedDivides(name, x, y, mem, sp);
    } else if name == "/u" || name == "%u" {
      UnsignedDivides(name, x, y, mem, sp);
    } else if name == "+" || name == "-" || name == "*" {
      SumsAndProducts(name, x, y, mem, sp);
    } else if name in ["==", "!=", "<", "<=", ">", ">="] {
      Comparisons(name, x, y, mem, sp);
    } else if name in ["&", "|", "^"] {
      BitwiseHolds(name, x, y, mem, sp);
    } else {
      ShiftsAndConnectives(name, x, y, mem, sp);
    }
  }

  lemma PrefixHolds(name: string, x: int, mem: Mem, sp: int)
    requires Meaning1(name, x).Some?
    ensures Cpu.Effect(name, [x], mem, sp) == (Meaning1(name, x).value, mem)
  {
    var c := Cpu.Cpu(x, 0, 0, 0, 0, mem);
    var not := Cpu.Do(Cpu.Not(Cpu.EAX), Cpu.Leave);
    assert Cpu.Run(not, c, [x], sp) == Some(c.(eax := (-1 - x) % WORD));
    var c1 := Cpu.Cpu(0, 0, 0, x, 0, mem);
    var last := Cpu.Do(Cpu.Mov(Cpu.EAX, Cpu.Imm(1)), Cpu.Leave);
    var first := Cpu.Do(Cpu.Cmp(Cpu.Arg(4), Cpu.Imm(0)), Cpu.LeaveIf(Cpu.NE, last));
    assert Cpu.Run(last, c1, [x], sp) == Some(c1.(eax := 1));
    assert Cpu.Run(first, START(mem), [x], sp) == Cpu.Run(Cpu.LeaveIf(Cpu.NE, last), c1, [x], sp);
  }

  lemma FetchRuns(x: int, mem: Mem, sp: int)
    ensures Cpu.Effect("**", [x], mem, sp) == (Load(mem, x), mem)
  {
    assert "**"[0] != "--"[0];
    var c := Cpu.Cpu(x, 0, 0, 0, 0, mem);
    var fetch := Cpu.Do(Cpu.Fetch(Cpu.EAX, Cpu.EAX), Cpu.Leave);
    assert Cpu.Run(fetch, c, [x], sp) == Some(c.(eax := Load(mem, x)));
    assert Cpu.Run(Cpu.Text1("**"), START(mem), [x], sp) == Cpu.Run(fetch, c, [x], sp);
  }

  lemma FetchLowRuns(x: int, mem: Mem, sp: int)
    ensures Cpu.Effect("**c", [x], mem, sp) == (Load(mem, x) % 256, mem)
  {
    assert "**c"[0] != "--"[0] && |"**c"| != |"**"|;
    var c1, c2 := Cpu.Cpu(0, 0, x, 0, 0, mem), Cpu.Cpu(0, 0, x, 0, 0, mem);
    var fetch := Cpu.Do(Cpu.FetchLow(Cpu.EAX, Cpu.EDX), Cpu.Leave);
    var clear := Cpu.Do(Cpu.Mov(Cpu.EAX, Cpu.Imm(0)), fetch);
    assert Cpu.Run(fetch, c2, [x], sp) == Some(c2.(eax := Load(mem, x) % 256));
    assert Cpu.Run(clear, c1, [x], sp) == Cpu.Run(fetch, c2, [x], sp);
    assert Cpu.Run(Cpu.Text1("**c"), START(mem), [x], sp) == Cpu.Run(clear, c1, [x], sp);
  }

  lemma StoreLowRuns(x: int, y: int, mem: Mem, sp: int)
    ensures Cpu.Effect("=c", [x, y], mem, sp) == (y, mem[x := Cpu.WithLow(Load(mem, x), y)])
  {
    hide Cpu.WithLow;
    var put := Cpu.Do(Cpu.PutLow(Cpu.ECX, Cpu.EAX), Cpu.Leave);
    var next := Cpu.Do(Cpu.Mov(Cpu.ECX, Cpu.Arg(8)), put);
    var c1 := Cpu.Cpu(y, 0, 0, 0, 0, mem);
    var c2 := Cpu.Cpu(y, x, 0, 0, 0, mem);
    StoreLowText();
    assert Cpu.Run(Cpu.Text2("=c"), START(mem), [x, y], sp) == Cpu.Run(next, c1, [x, y], sp);
    assert Cpu.Run(next, c1, [x, y], sp) == Cpu.Run(put, c2, [x, y], sp);
  }

  lemma StoreLowText()
    ensures Cpu.Text2("=c")
         == Cpu.Do(Cpu.Mov(Cpu.EAX, Cpu.Arg(4)), Cpu.Do(Cpu.Mov(Cpu.ECX, Cpu.Arg(8)), Cpu.Do(Cpu.PutLow(Cpu.ECX, Cpu.EAX), Cpu.Leave)))
  {
    assert "=c"[0] == '=' && "=c"[1] == 'c' && |"=c"| == 2;
    assert "=="[1] == '=' && "/u"[0] == '/' && "%u"[0] == '%' && "!="[0] == '!' && "<="[0] == '<' && ">="[0] == '>';
    assert "<<"[0] == '<' && ">>"[0] == '>' && "&&"[0] == '&' && "||"[0] == '|';
  }

  // ----- where a routine does not do what C does -----

  /** What is left of a negative dividend taken for the unsigned number a + 2^32. */
  lemma NegativeRemainder(a: int, b: int)
    requires -0x8000_0000 <= a < 0 && b != 0 && -0x8000_0000 <= b < 0x8000_0000
    ensures (a + WORD) - TruncDiv(a + WORD, b) * b == a - TruncDiv(a, b) * b <==> a % Abs(b) == 0 && WORD % Abs(b) == 0
  {
    hide TruncDiv;
    TruncRemainder(a + WORD, b);
    TruncRemainder(a, b);
    OppositeSigns((a + WORD) % Abs(b), (-a) % Abs(b), Abs(b));
    BothDivide(a, Abs(b));
  }

  lemma OppositeSigns(r: int, r': int, d: int)
    requires 0 <= r < d && 0 <= r' < d
    ensures r == -r' <==> r == 0 && r' == 0
  {
  }

  lemma BothDivide(a: int, d: int)
    requires d > 0
    ensures (a + WORD) % d == 0 && (-a) % d == 0 <==> a % d == 0 && WORD % d == 0
  {
    NoRemainder(a, d);
    if a % d == 0 {
      DivBounds(a, d);
      AddMultiple(WORD, a / d, d);
    }
  }

  /** The remainder of truncating division, by sign. */
  lemma TruncRemainder(a: int, b: int)
    requires b != 0
    ensures a - TruncDiv(a, b) * b == if a >= 0 then a % Abs(b) else -((-a) % Abs(b))
  {
    var q := Abs(a) / Abs(b);
    DivBounds(Abs(a), Abs(b));
    SignedProduct(q, b);
    SignedProduct(q, Abs(b));
  }

  lemma NoRemainder(a: int, d: int)
    requires d > 0
    ensures a % d == 0 <==> (-a) % d == 0
  {
    DivBounds(a, d);
    DivBounds(-a, d);
    if a % d == 0 {
      DivUnique(-a, d, -(a / d));
    }
    if (-a) % d == 0 {
      DivUnique(a, d, -((-a) / d));
    }
  }

  lemma AddMultiple(x: int, k: int, d: int)
    requires d > 0
    ensures (x + k * d) % d == x % d
  {
    DivBounds(x, d);
    DivUnique(x + k * d, d, x / d + k);
    DivBounds(x + k * d, d);
  }

  lemma NegativeQuotient(a: int, b: int)
    requires -0x8000_0000 <= a < 0 && b != 0 && -0x8000_0000 <= b < 0x8000_0000
    ensures (b > 0 ==> TruncDiv(a + WORD, b) > 0 >= TruncDiv(a, b)) && (b < 0 ==> TruncDiv(a + WORD, b) < 0 <= TruncDiv(a, b))
  {
    DivNonNegative(-a, Abs(b));
    DivMonotone(a + WORD, 1, Abs(b));
    DivBounds(a + WORD, Abs(b));
  }

  lemma SignedWord(x: int)
    requires -0x8000_0000 <= x < 0x8000_0000
    ensures Signed32(x % WORD) == x
  {
  }

  /** `/` clears edx and then divides edx:eax as a signed number: it truncates toward zero, as C's division
      does, if and only if the dividend is not negative; else the quotient is wrong, or the processor
      faults. */
  lemma SlashExactIff(x: int, y: int, mem: Mem, sp: int)
    requires !Zero(y)
    ensures var r := Cpu.Called("/", [x, y], mem, sp);
            (r.Some? && Signed32(r.value.eax) == TruncDiv(Signed32(x), Signed32(y))) <==> Signed32(x) >= 0
  {
    hide TruncDiv;
    var a, b := Signed32(x), Signed32(y);
    DivisionRuns(Cpu.Idiv(Cpu.Arg(4)), Cpu.EAX, x, y, mem, sp);
    if a >= 0 {
      SmallDividend(a, b);
      SignedWord(TruncDiv(a, b));
    } else {
      NegativeQuotient(a, b);
      var q := TruncDiv(a + WORD, b);
      if -0x8000_0000 <= q < 0x8000_0000 {
        SignedWord(q);
      }
    }
  }

  /** `%` for a negative dividend: C's remainder comes out if and only if the quotient fits and the divisor
      divides both the dividend and 2^32, so that both remainders are 0. */
  lemma PercentExactIff(x: int, y: int, mem: Mem, sp: int)
    requires !Zero(y)
    ensures var a, b, r := Signed32(x), Signed32(y), Cpu.Called("%", [x, y], mem, sp);
            (r.Some? && Signed32(r.value.eax) == a - TruncDiv(a, b) * b)
            <==> a >= 0 || (-0x8000_0000 <= TruncDiv(a + WORD, b) < 0x8000_0000 && a % Abs(b) == 0 && WORD % Abs(b) == 0)
  {
    hide TruncDiv;
    assert "%"[0] != "/"[0];
    var a, b := Signed32(x), Signed32(y);
    DivisionRuns(Cpu.Idiv(Cpu.Arg(4)), Cpu.EDX, x, y, mem, sp);
    var n := if a >= 0 then a else a + WORD;
    TruncRemainder(n, b);
    SignedWord(n - TruncDiv(n, b) * b) by { DivBounds(n, Abs(b)); }
    if a >= 0 {
      SmallDividend(a, b);
    } else {
      NegativeRemainder(a, b);
    }
  }

  /** `--` has one argument and negates the dword above it, which belongs to the caller. */
  lemma NegateExactIff(x: int, mem: Mem, sp: int)
    ensures Cpu.Effect("--", [x], mem, sp).0 == (-x) % WORD <==> Load(mem, sp + 8) % WORD == x % WORD
  {
    var w := Load(mem, sp + 8);
    var neg := Cpu.Do(Cpu.Neg(Cpu.EAX), Cpu.Leave);
    var c := Cpu.Cpu(w, 0, 0, 0, 0, mem);
    assert Cpu.Run(neg, c, [x], sp) == Some(c.(eax := (-w) % WORD));
    assert Cpu.Run(Cpu.Text1("--"), START(mem), [x], sp) == Cpu.Run(neg, c, [x], sp);
    SameWord(-w, -x);
    SameWord(w, x);
    SameWord(x, w);
  }

  // ----- the library as a whole -----

  lemma StoreHolds(w: World, img: Image, vs: seq<Val>, xs: seq<int>, st: Store, mem: Mem, sp: int)
    requires w.library == Meaning && img.effect == Cpu.Effect && |xs| == 2
    ensures LibraryCallOk(w, img, "=", vs, xs, st, mem, sp)
  {
    hide Cpu.Effect;
    StoreRuns(xs[0], xs[1], mem, sp);
    assert xs == [xs[0], xs[1]];
    if |vs| == 2 && forall i :: 0 <= i < |vs| ==> Refines(vs[i], xs[i]) {
      assert Refines(vs[0], xs[0]) && Refines(vs[1], xs[1]);
    }
  }

  lemma StoreLowHolds(w: World, img: Image, vs: seq<Val>, xs: seq<int>, st: Store, mem: Mem, sp: int)
    requires w.library == Meaning && img.effect == Cpu.Effect && |xs| == 2
    ensures LibraryCallOk(w, img, "=c", vs, xs, st, mem, sp)
  {
    hide Cpu.Effect, Cpu.WithLow, Meaning2;
    StoreLowRuns(xs[0], xs[1], mem, sp);
    assert xs == [xs[0], xs[1]] && |"=c"| != |"="|;
    if |vs| == 2 && (forall i :: 0 <= i < |vs| ==> Refines(vs[i], xs[i])) && Meaning("=c", vs, st).Some? {
      assert Refines(vs[0], xs[0]) && Refines(vs[1], xs[1]);
      if Agree(st, mem) {
        assert Refines(st[xs[0]], Load(mem, xs[0]));
      }
    }
  }

  lemma TwoHold(w: World, img: Image, name: string, vs: seq<Val>, xs: seq<int>, st: Store, mem: Mem, sp: int)
    requires w.library == Meaning && img.effect == Cpu.Effect && |xs| == 2 && name != "=" && name != "=c"
    ensures LibraryCallOk(w, img, name, vs, xs, st, mem, sp)
  {
    hide Cpu.Effect, Meaning2;
    assert xs == [xs[0], xs[1]];
    if |vs| == 2 && (forall i :: 0 <= i < |vs| ==> Refines(vs[i], xs[i])) && Meaning(name, vs, st).Some? {
      assert Refines(vs[0], xs[0]) && Refines(vs[1], xs[1]);
      OperatorHolds(name, xs[0], xs[1], mem, sp);
    }
  }

  lemma OneHolds(w: World, img: Image, name: string, vs: seq<Val>, xs: seq<int>, st: Store, mem: Mem, sp: int)
    requires w.library == Meaning && img.effect == Cpu.Effect && |xs| == 1
    ensures LibraryCallOk(w, img, name, vs, xs, st, mem, sp)
  {
    hide Cpu.Effect, Meaning1;
    assert xs == [xs[0]];
    if |vs| == 1 && (forall i :: 0 <= i < |vs| ==> Refines(vs[i], xs[i])) && Meaning(name, vs, st).Some? {
      assert Refines(vs[0], xs[0]);
      if name == "**" {
        FetchRuns(xs[0], mem, sp);
      } else if name == "**c" {
        FetchLowRuns(xs[0], mem, sp);
        assert Agree(st, mem) ==> Refines(st[xs[0]], Load(mem, xs[0]));
      } else {
        PrefixHolds(name, xs[0], mem, sp);
      }
    }
  }

  /** Each routine, run, leaves in eax and in memory what its operator means. */
  lemma RoutineHolds(w: World, img: Image, name: string, vs: seq<Val>, xs: seq<int>, st: Store, mem: Mem, sp: int)
    requires w.library == Meaning && img.effect == Cpu.Effect
    ensures LibraryCallOk(w, img, name, vs, xs, st, mem, sp)
  {
    hide Cpu.Effect, Agree, NoKeys, Kept, Meaning1, Meaning2;
    if |xs| == 2 {
      if name == "=" {
        StoreHolds(w, img, vs, xs, st, mem, sp);
      } else if name == "=c" {
        StoreLowHolds(w, img, vs, xs, st, mem, sp);
      } else {
        TwoHold(w, img, name, vs, xs, st, mem, sp);
      }
    } else if |xs| == 1 {
      OneHolds(w, img, name, vs, xs, st, mem, sp);
    }
  }

  /** A world whose library is these operators and an image that has these routines meet what the
      compiler's correctness asks of them. */
  lemma LibraryHolds(w: World, img: Image)
    requires w.library == Meaning && img.effect == Cpu.Effect
    ensures LibraryOk(w, img)
  {
    hide LibraryCallOk, Cpu.Effect, Meaning;
    forall name, vs, xs, st, mem, sp ensures LibraryCallOk(w, img, name, vs, xs, st, mem, sp) {
      RoutineHolds(w, img, name, vs, xs, st, mem, sp);
    }
  }
}
