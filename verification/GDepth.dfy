/** The depth of the stack at every instruction.  The compiler turns names into distances from the top
    of the stack, so it has to know how deep the stack is wherever control can come from.  Here the
    depth it reckons with is written down for every address, and shown to be the depth on every path. */
module GDepth {
  import opened Options
  import opened GSyntax
  import opened GCompile
  import opened GTwoPass
  import opened GShape
  import opened GMachine

  /** What an instruction adds to the depth; a called routine gives back the stack as it was. */
  function Grows1(i: Instr): int {
    match i
    case PushImm(_) | PushEax | PushStack(_) | PushAtEax | SubEsp4 | PushEbp => 1
    case PopEax | PopEbp | Return => -1
    case AddEsp(n) => -(n / 4)
    case LeaEax(_) | MovEax(_) | Call(_) | CallEax | CmpEax0 | Je(_) | Jmp(_) | MovEbpEsp | Byte(_) => 0
  }

  /** The depth before the instruction at `a`, in code that starts at `loc` with depth d. */
  function SeqDepth(code: seq<Instr>, loc: int, d: int, a: int): Option<int>
    decreases |code|
  {
    if code == [] then None
    else if a == loc then Some(d)
    else SeqDepth(code[1..], loc + Size(code[0]), d + Grows1(code[0]), a)
  }

  // ----- the depth by the construct that an address belongs to -----

  function ItemDepth(item: Item, s: S, a: int): Option<int>
    requires RunItem(item, s).Some?
    decreases item, 0
  {
    match item
    case If(guard, elseLab, thn, els) =>
      var g := RunGuard(guard, elseLab, s).value;
      var t := RunBlock(thn, g.s).value;
      if a < g.s.loc then SeqDepth(g.code, s.loc, |s.stack|, a)
      else if a < t.s.loc then BlockDepth(thn, g.s, a)
      else ElseDepth(elseLab, els, t.s, a)
    case While(restartLab, endLab, guard, body) =>
      var s1 := Define(s, Label(restartLab), s.loc, VARIABLE).value;
      var g := RunGuard(guard, endLab, s1).value;
      var n := NoteLoop(s, g.s);
      var b := RunBlock(body, n).value;
      if a < g.s.loc then SeqDepth(g.code, s.loc, |s.stack|, a)
      else if a < b.s.loc then BlockDepth(body, n, a)
      else SeqDepth([Jmp(0)], b.s.loc, |b.s.stack|, a)
    case Expr(_) => SeqDepth(RunItem(item, s).value.code, s.loc, |s.stack|, a)
    case Semi => SeqDepth(RunItem(item, s).value.code, s.loc, |s.stack|, a)
    case Ret => SeqDepth(RunItem(item, s).value.code, s.loc, |s.stack|, a)
    case Local(_) => SeqDepth(RunItem(item, s).value.code, s.loc, |s.stack|, a)
    case Indirect(_) => SeqDepth(RunItem(item, s).value.code, s.loc, |s.stack|, a)
  }

  function ElseDepth(elseLab: nat, els: Else, s: S, a: int): Option<int>
    requires RunElse(elseLab, els, s).Some?
    decreases els, 2
  {
    match els
    case NoElse => None
    case ElseBlock(fiLab, block) =>
      var s1 := Emit(s, [Jmp(LabelLoc(s, fiLab).value - (s.loc + 5))]);
      if a < s1.loc then SeqDepth([Jmp(0)], s.loc, |s.stack|, a)
      else BlockDepth(block, Define(s1, Label(elseLab), s1.loc, VARIABLE).value, a)
  }

  function BlockDepth(b: Block, s: S, a: int): Option<int>
    requires RunBlock(b, s).Some?
    decreases b, 1
  {
    var o := RunItems(b, s).value;
    if a < o.s.loc then ItemsDepth(b, s, a) else SeqDepth([AddEsp(0)], o.s.loc, |o.s.stack|, a)
  }

  function ItemsDepth(b: Block, s: S, a: int): Option<int>
    requires RunItems(b, s).Some?
    decreases b, 0
  {
    match b
    case Nil => None
    case Cons(item, rest) =>
      var o := RunItem(item, s).value;
      if a < o.s.loc then ItemDepth(item, s, a) else ItemsDepth(rest, o.s, a)
  }

  // ----- all paths agree -----

  type Depths = int -> Option<int>

  /** The depth d at an instruction is fit for it, and leads to the depth written down at each of its
      successors. */
  ghost predicate EdgeOk(D: Depths, i: Instr, a: int, d: int) {
    var next := a + Size(i);
    match i
    case Byte(_) => true
    case Return => true
    case PopEbp => d == 0
    case Jmp(rel) => D(next + rel) == Some(d)
    case Je(rel) => D(next) == Some(d) && D(next + rel) == Some(d)
    case PushStack(off) => 0 <= off < 4 * d && D(next) == Some(d + 1)
    case LeaEax(off) => 0 <= off < 4 * d && D(next) == Some(d)
    case AddEsp(n) => 0 <= n <= 4 * d && n % 4 == 0 && D(next) == Some(d - n / 4)
    case PopEax => d > 0 && D(next) == Some(d - 1)
    case PushImm(_) => D(next) == Some(d + 1)
    case PushEax => D(next) == Some(d + 1)
    case PushAtEax => D(next) == Some(d + 1)
    case SubEsp4 => D(next) == Some(d + 1)
    case MovEax(_) => D(next) == Some(d)
    case Call(_) => D(next) == Some(d)
    case CallEax => D(next) == Some(d)
    case CmpEax0 => D(next) == Some(d)
    case PushEbp => false
    case MovEbpEsp => false
  }

  ghost predicate EdgesOk(D: Depths, code: seq<Instr>, loc: int)
    decreases |code|
  {
    code == []
    || (&& (code[0].Byte? || (D(loc).Some? && EdgeOk(D, code[0], loc, D(loc).value)))
        && EdgesOk(D, code[1..], loc + Size(code[0])))
  }

  lemma {:induction false} EdgesConcat(D: Depths, a: seq<Instr>, b: seq<Instr>, loc: int)
    requires EdgesOk(D, a, loc) && EdgesOk(D, b, loc + Sizes(a))
    ensures EdgesOk(D, a + b, loc)
    decreases |a|
  {
    if a == [] {
      assert a + b == b;
    } else {
      assert (a + b)[0] == a[0] && (a + b)[1..] == a[1..] + b;
      EdgesConcat(D, a[1..], b, loc + Size(a[0]));
    }
  }

  /** D has the depths of straight code of depth d at its start, up to and with its end. */
  ghost predicate Along(D: Depths, code: seq<Instr>, loc: int, d: int)
    decreases |code|
  {
    D(loc) == Some(d) && (code == [] || Along(D, code[1..], loc + Size(code[0]), d + Grows1(code[0])))
  }

  function Growth(code: seq<Instr>): int {
    if code == [] then 0 else Grows1(code[0]) + Growth(code[1..])
  }

  /** May this instruction stand in straight code at depth d?  A jump or a branch needs its own argument. */
  predicate Plain(i: Instr, d: int) {
    match i
    case PushStack(off) => 0 <= off < 4 * d
    case LeaEax(off) => 0 <= off < 4 * d
    case AddEsp(n) => 0 <= n <= 4 * d && n % 4 == 0
    case PopEax => d > 0
    case PushImm(_) | PushEax | PushAtEax | SubEsp4 | MovEax(_) | Call(_) | CallEax | CmpEax0 | Byte(_) => true
    case Return | PopEbp | Jmp(_) | Je(_) | PushEbp | MovEbpEsp => false
  }

  predicate AllPlain(code: seq<Instr>, d: int)
    decreases |code|
  {
    code == [] || (Plain(code[0], d) && AllPlain(code[1..], d + Grows1(code[0])))
  }

  /** D has what SeqDepth says. */
  ghost predicate Has(D: Depths, code: seq<Instr>, loc: int, d: int) {
    forall a {:trigger D(a)} :: loc <= a < loc + Sizes(code) ==> D(a) == SeqDepth(code, loc, d, a)
  }

  lemma {:induction false} AlongFrom(D: Depths, code: seq<Instr>, loc: int, d: int)
    requires Has(D, code, loc, d) && D(loc + Sizes(code)) == Some(d + Growth(code))
    ensures Along(D, code, loc, d)
    decreases |code|
  {
    if code != [] {
      assert D(loc) == SeqDepth(code, loc, d, loc);
      HasTail(D, code, loc, d);
      AlongFrom(D, code[1..], loc + Size(code[0]), d + Grows1(code[0]));
    }
  }

  lemma HasTail(D: Depths, code: seq<Instr>, loc: int, d: int)
    requires code != [] && Has(D, code, loc, d)
    ensures Has(D, code[1..], loc + Size(code[0]), d + Grows1(code[0]))
  {
  }

  lemma {:induction false} PlainEdges(D: Depths, code: seq<Instr>, loc: int, d: int)
    requires Along(D, code, loc, d) && AllPlain(code, d)
    ensures EdgesOk(D, code, loc)
    decreases |code|
  {
    if code != [] {
      var i, rest := code[0], code[1..];
      PlainEdges(D, rest, loc + Size(i), d + Grows1(i));
    }
  }

  lemma {:induction false} GrowthConcat(a: seq<Instr>, b: seq<Instr>)
    ensures Growth(a + b) == Growth(a) + Growth(b)
    decreases |a|
  {
    if a == [] {
      assert a + b == b;
    } else {
      assert (a + b)[0] == a[0] && (a + b)[1..] == a[1..] + b;
      GrowthConcat(a[1..], b);
    }
  }

  lemma {:induction false} AlongSplit(D: Depths, a: seq<Instr>, b: seq<Instr>, loc: int, d: int)
    requires Along(D, a + b, loc, d)
    ensures Along(D, a, loc, d) && Along(D, b, loc + Sizes(a), d + Growth(a))
    decreases |a|
  {
    if a == [] {
      assert a + b == b;
    } else {
      assert (a + b)[0] == a[0] && (a + b)[1..] == a[1..] + b;
      AlongSplit(D, a[1..], b, loc + Size(a[0]), d + Grows1(a[0]));
    }
  }

  lemma {:induction false} BytesPlain(data: seq<Instr>, d: int)
    requires forall i :: 0 <= i < |data| ==> data[i].Byte?
    ensures AllPlain(data, d) && Growth(data) == 0
    decreases |data|
  {
    if data != [] {
      BytesPlain(data[1..], d);
    }
  }

  // ----- expressions -----

  /** The code of an expression leaves the stack as much deeper as the compiler reckons, and keeps to
      the depths on the way. */
  ghost predicate Straight(D: Depths, s: S, o: Out) {
    && (Along(D, o.code, s.loc, |s.stack|) ==> EdgesOk(D, o.code, s.loc))
    && |o.s.stack| == |s.stack| + Growth(o.code)
  }

  lemma PlainStraight(D: Depths, s: S, o: Out)
    requires AllPlain(o.code, |s.stack|) && |o.s.stack| == |s.stack| + Growth(o.code)
    ensures Straight(D, s, o)
  {
    if Along(D, o.code, s.loc, |s.stack|) {
      PlainEdges(D, o.code, s.loc, |s.stack|);
    }
  }

  lemma RefStraight(D: Depths, name: string, addr: bool, s: S)
    requires RunRef(name, addr, s).Some? && RunRef(name, addr, s).value.s.clean
    ensures Straight(D, s, RunRef(name, addr, s).value)
  {
    hide Straight, Along, EdgesOk;
    var o := RunRef(name, addr, s).value;
    var d := |s.stack|;
    var pos := Find(s.stack, name);
    if pos != -1 {
      if addr {
        TwoInstr(LeaEax(4 * pos), PushEax, d);
      } else {
        OneInstr(PushStack(4 * pos), d);
      }
    } else {
      var e := s.table[Named(name)];
      if addr || e.arity == CONSTANT {
        OneInstr(PushImm(e.loc), d);
      } else if e.arity == VARIABLE {
        TwoInstr(MovEax(e.loc), PushAtEax, d);
      } else {
        PopTempsFacts(NoteArity(s, e.arity), e.arity);
        ThreeInstr(Call(e.loc - (s.loc + 5)), AddEsp(4 * e.arity), PushEax, d);
      }
    }
    PlainStraight(D, s, o);
  }

  lemma OneInstr(i: Instr, d: int)
    ensures AllPlain([i], d) <==> Plain(i, d)
    ensures Growth([i]) == Grows1(i)
  {
    hide Plain, Grows1;
    assert [i][1..] == [];
  }

  lemma TwoInstr(i: Instr, j: Instr, d: int)
    ensures AllPlain([i, j], d) <==> Plain(i, d) && Plain(j, d + Grows1(i))
    ensures Growth([i, j]) == Grows1(i) + Grows1(j)
  {
    hide Plain, Grows1;
    assert [i, j][1..] == [j];
    OneInstr(j, d + Grows1(i));
  }

  lemma ThreeInstr(i: Instr, j: Instr, k: Instr, d: int)
    ensures AllPlain([i, j, k], d) <==> Plain(i, d) && Plain(j, d + Grows1(i)) && Plain(k, d + Grows1(i) + Grows1(j))
    ensures Growth([i, j, k]) == Grows1(i) + Grows1(j) + Grows1(k)
  {
    hide Plain, Grows1;
    assert [i, j, k][1..] == [j, k];
    TwoInstr(j, k, d + Grows1(i));
  }

  /** The jump over a string leads to the code behind it. */
  lemma StringStraight(D: Depths, bytes: seq<int>, strLab: nat, jmpLab: nat, s: S)
    requires s.stage == 1 && RunString(bytes, strLab, jmpLab, s).Some?
    ensures Straight(D, s, RunString(bytes, strLab, jmpLab, s).value)
  {
    hide Along, EdgesOk, AllPlain, Growth, SeqDepth, Grows1;
    var o := RunString(bytes, strLab, jmpLab, s).value;
    var d := |s.stack|;
    var jump := [Jmp(s.table[Label(jmpLab)].loc - (s.loc + 5))];
    var data := DataBytes(bytes + [0]);
    var push := [PushImm(s.table[Label(strLab)].loc)];
    SizesOne(jump[0]);
    BytesPlain(data, d);
    OneInstr(push[0], d);
    JumpGrowth(jump[0]);
    JumpGrowth(push[0]);
    GrowthConcat(jump + data, push);
    GrowthConcat(jump, data);
    assert o.code == jump + data + push;
    assert |o.s.stack| == d + 1;
    if Along(D, o.code, s.loc, d) {
      AlongSplit(D, jump + data, push, s.loc, d);
      AlongSplit(D, jump, data, s.loc, d);
      SizesConcat(jump, data);
      PlainEdges(D, data, s.loc + 5, d);
      PlainEdges(D, push, s.loc + 5 + Sizes(data), d);
      JumpEdges(D, jump[0], s.loc, d, s.loc + 5 + Sizes(data), push);
      EdgesConcat(D, jump, data, s.loc);
      EdgesConcat(D, jump + data, push, s.loc);
    }
  }

  lemma JumpGrowth(i: Instr)
    requires i.Jmp? || i.PushImm?
    ensures Growth([i]) == if i.Jmp? then 0 else 1
    ensures i.PushImm? ==> Grows1(i) == 1 && Plain(i, 0)
  {
  }

  lemma JumpEdges(D: Depths, i: Instr, loc: int, d: int, target: int, code: seq<Instr>)
    requires i == Jmp(target - (loc + 5)) && Along(D, [i], loc, d) && code != [] && Along(D, code, target, d)
    ensures EdgesOk(D, [i], loc)
  {
    assert [i][1..] == [];
  }

  lemma PushStraight(D: Depths, p: Push, s: S)
    requires s.stage == 1 && RunPush(p, s).Some? && RunPush(p, s).value.s.clean
    ensures Straight(D, s, RunPush(p, s).value)
  {
    hide RunRef, RunString, Along, EdgesOk;
    match p
    case Num(value, _) =>
      OneInstr(PushImm(value), |s.stack|);
      PlainStraight(D, s, RunPush(p, s).value);
    case Ref(name, addr) => RefStraight(D, name, addr, s.(clean := s.clean && name != TEMP));
    case Str(bytes, strLab, jmpLab) => StringStraight(D, bytes, strLab, jmpLab, s);
  }

  lemma StraightThen(D: Depths, s: S, a: Out, b: Out)
    requires Straight(D, s, a) && Straight(D, a.s, b) && a.s.loc == s.loc + Sizes(a.code)
    ensures Straight(D, s, Out(b.s, a.code + b.code))
  {
    hide Along, EdgesOk, Growth, Sizes;
    GrowthConcat(a.code, b.code);
    if Along(D, a.code + b.code, s.loc, |s.stack|) {
      AlongSplit(D, a.code, b.code, s.loc, |s.stack|);
      EdgesConcat(D, a.code, b.code, s.loc);
    }
  }

  lemma {:induction false} PushesStraight(D: Depths, ps: Pushes, s: S)
    requires s.stage == 1 && RunPushes(ps, s).Some? && RunPushes(ps, s).value.s.clean
    ensures Straight(D, s, RunPushes(ps, s).value)
    decreases ps
  {
    hide RunPush, Along, EdgesOk, Straight;
    match ps
    case NoPush => NothingStraight(D, s);
    case Then(p, rest) =>
      PushFacts(p, s);
      var o := RunPush(p, s).value;
      PushesFacts(rest, o.s);
      PushStraight(D, p, s);
      PushesStraight(D, rest, o.s);
      StraightThen(D, s, o, RunPushes(rest, o.s).value);
  }

  lemma NothingStraight(D: Depths, s: S)
    ensures Straight(D, s, Out(s, []))
  {
  }

  // ----- statements -----

  lemma StraightEdges(D: Depths, s: S, o: Out)
    requires Straight(D, s, o) && Has(D, o.code, s.loc, |s.stack|) && D(o.s.loc) == Some(|o.s.stack|)
    requires o.s.loc == s.loc + Sizes(o.code)
    ensures EdgesOk(D, o.code, s.loc) && D(s.loc) == Some(|s.stack|)
  {
    hide EdgesOk;
    AlongFrom(D, o.code, s.loc, |s.stack|);
  }

  /** add esp, 4 * d; pop ebp; ret: a return takes the whole frame off. */
  lemma LeaveEdges(D: Depths, loc: int, d: nat)
    requires Has(D, [AddEsp(4 * d), PopEbp, Return], loc, d)
    ensures EdgesOk(D, [AddEsp(4 * d), PopEbp, Return], loc) && D(loc) == Some(d)
  {
    var code := [AddEsp(4 * d), PopEbp, Return];
    SizesThree(AddEsp(4 * d), PopEbp, Return);
    assert code[1..] == [PopEbp, Return] && code[1..][1..] == [Return] && code[1..][1..][1..] == [];
    assert D(loc) == SeqDepth(code, loc, d, loc);
    assert D(loc + 6) == SeqDepth(code, loc, d, loc + 6) == SeqDepth([PopEbp, Return], loc + 6, 0, loc + 6);
    assert D(loc + 7) == SeqDepth(code, loc, d, loc + 7) == SeqDepth([Return], loc + 7, -1, loc + 7);
    assert EdgesOk(D, [Return], loc + 7);
    assert EdgesOk(D, [PopEbp, Return], loc + 6);
  }

  lemma RetEdges(D: Depths, s: S)
    requires RunRet(s).Some? && Has(D, RunRet(s).value.code, s.loc, |s.stack|)
    ensures EdgesOk(D, RunRet(s).value.code, s.loc) && D(s.loc) == Some(|s.stack|)
  {
    hide EdgeOk, Sizes, SeqDepth;
    var code := RunRet(s).value.code;
    if s.temps > 0 {
      var leave := [AddEsp(4 * (|s.stack| - 1)), PopEbp, Return];
      assert code == [PopEax] + leave && code[1..] == leave;
      HasTail(D, code, s.loc, |s.stack|);
      LeaveEdges(D, s.loc + 1, |s.stack| - 1);
      PopStep(D, code, s.loc, |s.stack|);
    } else {
      LeaveEdges(D, s.loc, |s.stack|);
    }
  }

  lemma PopStep(D: Depths, code: seq<Instr>, loc: int, d: nat)
    requires code != [] && code[0] == PopEax && d > 0 && Has(D, code, loc, d) && D(loc + 1) == Some(d - 1)
    ensures EdgeOk(D, PopEax, loc, d) && D(loc) == Some(d)
  {
    assert D(loc) == SeqDepth(code, loc, d, loc);
  }

  lemma SimpleItemEdges(D: Depths, item: Item, s: S)
    requires !item.If? && !item.While? && s.stage == 1 && RunItem(item, s).Some? && RunItem(item, s).value.s.clean
    requires Has(D, RunItem(item, s).value.code, s.loc, |s.stack|)
    requires D(RunItem(item, s).value.s.loc) == Some(|RunItem(item, s).value.s.stack|)
    ensures EdgesOk(D, RunItem(item, s).value.code, s.loc) && D(s.loc) == Some(|s.stack|)
  {
    hide Has, EdgesOk, Straight, RunPush, RunRet, Along, Sizes;
    var o := RunItem(item, s).value;
    SimpleItemFacts(item, s);
    match item
    case Expr(p) =>
      PushStraight(D, p, s);
      StraightEdges(D, s, o);
    case Semi =>
      PopTempsFacts(s, s.temps);
      OneInstr(AddEsp(4 * s.temps), |s.stack|);
      PlainStraight(D, s, o);
      StraightEdges(D, s, o);
    case Ret => RetEdges(D, s);
    case Local(_) =>
      OneInstr(SubEsp4, |s.stack|);
      PlainStraight(D, s, o);
      StraightEdges(D, s, o);
    case Indirect(operand) =>
      var n := Decode(s, operand).value;
      PopTempsFacts(PopTemp(NoteArity(NoteOperand(s, operand), n)).value, n);
      IndirectPlain(n, |s.stack|);
      PlainStraight(D, s, o);
      StraightEdges(D, s, o);
  }

  lemma IndirectPlain(n: nat, d: nat)
    requires n < d
    ensures AllPlain([PopEax, CallEax, AddEsp(4 * n), PushEax], d)
    ensures Growth([PopEax, CallEax, AddEsp(4 * n), PushEax]) + n == 0
  {
    assert [PopEax, CallEax, AddEsp(4 * n), PushEax][1..] == [CallEax, AddEsp(4 * n), PushEax];
    ThreeInstr(CallEax, AddEsp(4 * n), PushEax, d - 1);
  }

  /** The guard's jump on zero goes where the depth is that of the fall-through. */
  lemma GuardEdges(D: Depths, guard: Pushes, target: nat, s: S)
    requires s.stage == 1 && RunGuard(guard, target, s).Some? && RunGuard(guard, target, s).value.s.clean
    requires Has(D, RunGuard(guard, target, s).value.code, s.loc, |s.stack|)
    requires D(RunGuard(guard, target, s).value.s.loc) == Some(|RunGuard(guard, target, s).value.s.stack|)
    requires Label(target) in s.table && D(s.table[Label(target)].loc) == Some(|RunGuard(guard, target, s).value.s.stack|)
    ensures EdgesOk(D, RunGuard(guard, target, s).value.code, s.loc) && D(s.loc) == Some(|s.stack|)
  {
    hide Has, EdgesOk, RunPushes, Along, Straight, Sizes, Growth;
    PushesFacts(guard, s);
    var a := RunPushes(guard, s).value;
    PushesStraight(D, guard, s);
    var g := RunGuard(guard, target, s).value;
    GuardFacts(guard, target, s);
    var d := |a.s.stack|;
    var je := Je(s.table[Label(target)].loc - (a.s.loc + 10));
    var tail := [PopEax, CmpEax0, je];
    BranchGrowth(je);
    GrowthConcat(a.code, tail);
    StraightGrowth(D, s, a);
    AlongFrom(D, g.code, s.loc, |s.stack|);
    AlongSplit(D, a.code, tail, s.loc, |s.stack|);
    BranchEdges(D, je, a.s.loc, d);
    EdgesConcat(D, a.code, tail, s.loc);
    AlongStart(D, g.code, s.loc, |s.stack|);
  }

  lemma StraightGrowth(D: Depths, s: S, o: Out)
    requires Straight(D, s, o)
    ensures |o.s.stack| == |s.stack| + Growth(o.code)
    ensures Along(D, o.code, s.loc, |s.stack|) ==> EdgesOk(D, o.code, s.loc)
  {
  }

  lemma AlongStart(D: Depths, code: seq<Instr>, loc: int, d: int)
    requires Along(D, code, loc, d)
    ensures D(loc) == Some(d)
  {
  }

  lemma BranchGrowth(je: Instr)
    requires je.Je?
    ensures Growth([PopEax, CmpEax0, je]) == -1
  {
    ThreeInstr(PopEax, CmpEax0, je, 1);
  }

  lemma BranchEdges(D: Depths, je: Instr, loc: int, d: int)
    requires d > 0 && je.Je? && Along(D, [PopEax, CmpEax0, je], loc, d) && D(loc + 10 + je.rel) == Some(d - 1)
    ensures EdgesOk(D, [PopEax, CmpEax0, je], loc)
  {
    assert [PopEax, CmpEax0, je][1..] == [CmpEax0, je] && [CmpEax0, je][1..] == [je] && [je][1..] == [];
    assert Along(D, [CmpEax0, je], loc + 1, d - 1);
    assert Along(D, [je], loc + 4, d - 1);
    assert Along(D, [], loc + 10, d - 1) && loc + 4 + 6 + je.rel == loc + 10 + je.rel;
    assert EdgesOk(D, [je], loc + 4);
    assert EdgesOk(D, [CmpEax0, je], loc + 1);
  }

  // ----- whole constructs -----

  ghost predicate ItemHas(D: Depths, item: Item, s: S)
    requires RunItem(item, s).Some?
  {
    forall a {:trigger D(a)} :: s.loc <= a < RunItem(item, s).value.s.loc ==> D(a) == ItemDepth(item, s, a)
  }

  ghost predicate ElseHas(D: Depths, elseLab: nat, els: Else, s: S)
    requires RunElse(elseLab, els, s).Some?
  {
    forall a {:trigger D(a)} :: s.loc <= a < RunElse(elseLab, els, s).value.s.loc ==> D(a) == ElseDepth(elseLab, els, s, a)
  }

  ghost predicate BlockHas(D: Depths, b: Block, s: S)
    requires RunBlock(b, s).Some?
  {
    forall a {:trigger D(a)} :: s.loc <= a < RunBlock(b, s).value.s.loc ==> D(a) == BlockDepth(b, s, a)
  }

  ghost predicate ItemsHas(D: Depths, b: Block, s: S)
    requires RunItems(b, s).Some?
  {
    forall a {:trigger D(a)} :: s.loc <= a < RunItems(b, s).value.s.loc ==> D(a) == ItemsDepth(b, s, a)
  }

  /** D is right at the end of a construct. */
  ghost predicate Ends(D: Depths, o: Out) {
    D(o.s.loc) == Some(|o.s.stack|)
  }

  lemma {:induction false} ItemsEdges(D: Depths, b: Block, s: S)
    requires s.stage == 1 && WellShaped(s) && RunItems(b, s).Some? && RunItems(b, s).value.s.clean
    requires ItemsHas(D, b, s) && Ends(D, RunItems(b, s).value)
    ensures EdgesOk(D, RunItems(b, s).value.code, s.loc) && D(s.loc) == Some(|s.stack|)
    decreases b, 4
  {
    hide RunItem, EdgesOk, WellShaped, ItemDepth;
    if b.Nil? {
      NoEdges(D, s.loc);
    } else {
      var o := RunItem(b.head, s).value;
      ItemFacts(b.head, s);
      ItemsFacts(b.tail, o.s);
      ItemShape(b.head, s);
      ItemsEdges(D, b.tail, o.s);
      ItemEdges(D, b.head, s);
      EdgesConcat(D, o.code, RunItems(b.tail, o.s).value.code, s.loc);
    }
  }

  lemma {:induction false} BlockEdges(D: Depths, b: Block, s: S)
    requires s.stage == 1 && WellShaped(s) && RunBlock(b, s).Some? && RunBlock(b, s).value.s.clean
    requires BlockHas(D, b, s) && Ends(D, RunBlock(b, s).value)
    ensures EdgesOk(D, RunBlock(b, s).value.code, s.loc) && D(s.loc) == Some(|s.stack|)
    decreases b, 5
  {
    hide RunItems, EdgesOk, WellShaped, ItemsDepth, SeqDepth;
    var o := RunItems(b, s).value;
    var n := 4 * (|o.s.stack| - |s.stack|);
    var e := RunBlock(b, s).value;
    ItemsFacts(b, s);
    SizesOne(AddEsp(n));
    assert D(o.s.loc) == Some(|o.s.stack|) by { SeqDepthAt(AddEsp(0), o.s.loc, |o.s.stack|); }
    ItemsEdges(D, b, s);
    AddEspEdges(D, n, o.s.loc, |o.s.stack|);
    EdgesConcat(D, o.code, [AddEsp(n)], s.loc);
  }

  lemma SeqDepthAt(i: Instr, loc: int, d: int)
    ensures SeqDepth([i], loc, d, loc) == Some(d)
  {
  }

  lemma AddEspEdges(D: Depths, n: int, loc: int, d: int)
    requires 0 <= n <= 4 * d && n % 4 == 0 && D(loc) == Some(d) && D(loc + 6) == Some(d - n / 4)
    ensures EdgesOk(D, [AddEsp(n)], loc)
  {
    assert [AddEsp(n)][1..] == [];
  }

  lemma JmpEdges(D: Depths, rel: int, loc: int, d: int)
    requires D(loc) == Some(d) && D(loc + 5 + rel) == Some(d)
    ensures EdgesOk(D, [Jmp(rel)], loc)
  {
    assert [Jmp(rel)][1..] == [];
  }

  lemma {:induction false} ItemEdges(D: Depths, item: Item, s: S)
    requires s.stage == 1 && WellShaped(s) && RunItem(item, s).Some? && RunItem(item, s).value.s.clean
    requires ItemHas(D, item, s) && Ends(D, RunItem(item, s).value)
    ensures EdgesOk(D, RunItem(item, s).value.code, s.loc) && D(s.loc) == Some(|s.stack|)
    decreases item, 3
  {
    hide EdgesOk, WellShaped;
    match item
    case If(_, _, _, _) => IfEdges(D, item, s);
    case While(_, _, _, _) => WhileEdges(D, item, s);
    case Expr(_) => SimpleItemHas(D, item, s); SimpleItemEdges(D, item, s);
    case Semi => SimpleItemHas(D, item, s); SimpleItemEdges(D, item, s);
    case Ret => SimpleItemHas(D, item, s); SimpleItemEdges(D, item, s);
    case Local(_) => SimpleItemHas(D, item, s); SimpleItemEdges(D, item, s);
    case Indirect(_) => SimpleItemHas(D, item, s); SimpleItemEdges(D, item, s);
  }

  lemma SimpleItemHas(D: Depths, item: Item, s: S)
    requires !item.If? && !item.While? && RunItem(item, s).Some? && ItemHas(D, item, s)
    ensures Has(D, RunItem(item, s).value.code, s.loc, |s.stack|)
  {
    hide RunItem, SeqDepth;
    SimpleItemFacts(item, s);
  }

  lemma {:induction false} IfEdges(D: Depths, item: Item, s: S)
    requires item.If? && s.stage == 1 && WellShaped(s) && RunItem(item, s).Some? && RunItem(item, s).value.s.clean
    requires ItemHas(D, item, s) && Ends(D, RunItem(item, s).value)
    ensures EdgesOk(D, RunItem(item, s).value.code, s.loc) && D(s.loc) == Some(|s.stack|)
    decreases item, 2
  {
    hide RunGuard, RunBlock, RunElse, EdgesOk, WellShaped, BlockDepth, ElseDepth, SeqDepth, Sizes;
    var If(guard, elseLab, thn, els) := item;
    var g := RunGuard(guard, elseLab, s).value;
    var t := RunBlock(thn, g.s).value;
    var e := RunElse(elseLab, els, t.s).value;
    GuardFacts(guard, elseLab, s);
    BlockFacts(thn, g.s);
    ElseFacts(elseLab, els, t.s);
    GuardShape(guard, elseLab, s);
    SameNamesShape(s, g.s);
    BlockShape(thn, g.s);
    SameNamesShape(g.s, t.s);
    ElseEdges(D, elseLab, els, t.s);
    BlockEdges(D, thn, g.s);
    GuardEdges(D, guard, elseLab, s);
    EdgesConcat(D, g.code, t.code, s.loc);
    SizesConcat(g.code, t.code);
    EdgesConcat(D, g.code + t.code, e.code, s.loc);
  }

  lemma SameNamesShape(s: S, s': S)
    requires SameNames(s, s')
    ensures WellShaped(s')
  {
  }

  /** The code at the label of the `else`, and at the place before it, has the depth of both arms. */
  lemma {:induction false} ElseEdges(D: Depths, elseLab: nat, els: Else, s: S)
    requires s.stage == 1 && WellShaped(s) && RunElse(elseLab, els, s).Some? && RunElse(elseLab, els, s).value.s.clean
    requires ElseHas(D, elseLab, els, s) && Ends(D, RunElse(elseLab, els, s).value)
    ensures EdgesOk(D, RunElse(elseLab, els, s).value.code, s.loc) && D(s.loc) == Some(|s.stack|)
    ensures Label(elseLab) in s.table && D(s.table[Label(elseLab)].loc) == Some(|s.stack|)
    decreases els, 2
  {
    hide RunBlock, EdgesOk, WellShaped, BlockDepth, SeqDepth;
    ElseShape(elseLab, els, s);
    match els
    case NoElse => NoEdges(D, s.loc);
    case ElseBlock(fiLab, block) =>
      var jump := Jmp(s.table[Label(fiLab)].loc - (s.loc + 5));
      var s1 := Emit(s, [jump]);
      SizesOne(jump);
      BlockFacts(block, s1);
      EmitShape(s, [jump]);
      BlockShape(block, s1);
      assert D(s.loc) == Some(|s.stack|) by { SeqDepthAt(Jmp(0), s.loc, |s.stack|); }
      BlockEdges(D, block, s1);
      JmpEdges(D, jump.rel, s.loc, |s.stack|);
      EdgesConcat(D, [jump], RunBlock(block, s1).value.code, s.loc);
  }

  lemma NoEdges(D: Depths, loc: int)
    ensures EdgesOk(D, [], loc)
  {
  }

  lemma EmitShape(s: S, code: seq<Instr>)
    requires WellShaped(s)
    ensures WellShaped(Emit(s, code))
  {
    assert NamesOf(Emit(s, code)) == NamesOf(s);
  }

  lemma {:induction false} WhileEdges(D: Depths, item: Item, s: S)
    requires item.While? && s.stage == 1 && WellShaped(s) && RunItem(item, s).Some? && RunItem(item, s).value.s.clean
    requires ItemHas(D, item, s) && Ends(D, RunItem(item, s).value)
    ensures EdgesOk(D, RunItem(item, s).value.code, s.loc) && D(s.loc) == Some(|s.stack|)
    decreases item, 2
  {
    hide RunGuard, RunBlock, RunItem, EdgesOk, WellShaped, ItemHas, Has, BlockHas;
    WhileParts(item, s);
    WhileHas(D, item, s);
    var g := RunGuard(item.guard, item.endLab, s).value;
    var n := NoteLoop(s, g.s);
    var b := RunBlock(item.body, n).value;
    var jump := Jmp(s.loc - (b.s.loc + 5));
    BlockFacts(item.body, n);
    GuardShape(item.guard, item.endLab, s);
    NoteLoopShape(s, g.s);
    BlockShape(item.body, n);
    WhileShape(item, s);
    BlockEdges(D, item.body, n);
    GuardFacts(item.guard, item.endLab, s);
    GuardEdges(D, item.guard, item.endLab, s);
    JmpEdges(D, jump.rel, b.s.loc, |b.s.stack|);
    LoopConcat(D, g.code, b.code, jump, s.loc);
  }

  lemma LoopConcat(D: Depths, g: seq<Instr>, b: seq<Instr>, jump: Instr, loc: int)
    requires EdgesOk(D, g, loc) && EdgesOk(D, b, loc + Sizes(g)) && EdgesOk(D, [jump], loc + Sizes(g) + Sizes(b))
    ensures EdgesOk(D, g + b + [jump], loc)
  {
    hide EdgesOk, Sizes;
    EdgesConcat(D, g, b, loc);
    SizesConcat(g, b);
    EdgesConcat(D, g + b, [jump], loc);
  }

  /** What D has for a loop, it has for its parts. */
  lemma WhileHas(D: Depths, item: Item, s: S)
    requires item.While? && s.stage == 1 && RunItem(item, s).Some? && RunItem(item, s).value.s.clean && ItemHas(D, item, s)
    ensures RunGuard(item.guard, item.endLab, s).Some?
    ensures var g := RunGuard(item.guard, item.endLab, s).value;
            var n := NoteLoop(s, g.s);
            && Has(D, g.code, s.loc, |s.stack|) && RunBlock(item.body, n).Some? && BlockHas(D, item.body, n)
            && D(RunBlock(item.body, n).value.s.loc) == Some(|RunBlock(item.body, n).value.s.stack|)
  {
    hide RunGuard, RunBlock, BlockDepth, SeqDepth, Sizes, RunItem;
    WhileParts(item, s);
    var g := RunGuard(item.guard, item.endLab, s).value;
    var n := NoteLoop(s, g.s);
    var b := RunBlock(item.body, n).value;
    GuardFacts(item.guard, item.endLab, s);
    BlockFacts(item.body, n);
    SeqDepthAt(Jmp(0), b.s.loc, |b.s.stack|);
    assert Define(s, Label(item.restartLab), s.loc, VARIABLE) == Some(s) by { RestartDefined(item, s); }
    assert D(b.s.loc) == ItemDepth(item, s, b.s.loc);
  }

  lemma RestartDefined(item: Item, s: S)
    requires item.While? && s.stage == 1 && RunItem(item, s).Some?
    ensures Define(s, Label(item.restartLab), s.loc, VARIABLE) == Some(s)
  {
    hide RunGuard, RunBlock;
  }

  lemma NoteLoopShape(s: S, s': S)
    requires SameNames(s, s')
    ensures WellShaped(NoteLoop(s, s'))
  {
    assert NamesOf(NoteLoop(s, s')) == NamesOf(s');
  }

  // ----- the addresses that have a depth are those of instructions -----

  predicate StartAt(code: seq<Instr>, loc: int, x: int)
    decreases |code|
  {
    code != [] && (x == loc || StartAt(code[1..], loc + Size(code[0]), x))
  }

  lemma {:induction false} StartConcat(a: seq<Instr>, b: seq<Instr>, loc: int, x: int)
    requires StartAt(a, loc, x) || StartAt(b, loc + Sizes(a), x)
    ensures StartAt(a + b, loc, x)
    decreases |a|
  {
    if a == [] {
      assert a + b == b;
    } else {
      assert (a + b)[0] == a[0] && (a + b)[1..] == a[1..] + b;
      if x != loc {
        StartConcat(a[1..], b, loc + Size(a[0]), x);
      }
    }
  }

  lemma {:induction false} SeqStart(code: seq<Instr>, loc: int, d: int, x: int)
    requires SeqDepth(code, loc, d, x).Some?
    ensures StartAt(code, loc, x)
    decreases |code|
  {
    if x != loc {
      SeqStart(code[1..], loc + Size(code[0]), d + Grows1(code[0]), x);
    }
  }

  lemma {:induction false} ItemsStart(b: Block, s: S, x: int)
    requires RunItems(b, s).Some? && s.loc <= x < RunItems(b, s).value.s.loc && ItemsDepth(b, s, x).Some?
    ensures StartAt(RunItems(b, s).value.code, s.loc, x)
    decreases b, 0
  {
    hide RunItem, ItemDepth;
    var o := RunItem(b.head, s).value;
    ItemFacts(b.head, s);
    if x < o.s.loc {
      ItemStart(b.head, s, x);
    } else {
      ItemsStart(b.tail, o.s, x);
    }
    StartConcat(o.code, RunItems(b.tail, o.s).value.code, s.loc, x);
  }

  lemma {:induction false} BlockStart(b: Block, s: S, x: int)
    requires RunBlock(b, s).Some? && s.loc <= x < RunBlock(b, s).value.s.loc && BlockDepth(b, s, x).Some?
    ensures StartAt(RunBlock(b, s).value.code, s.loc, x)
    decreases b, 1
  {
    hide RunItems, ItemsDepth;
    var o := RunItems(b, s).value;
    ItemsFacts(b, s);
    if x < o.s.loc {
      ItemsStart(b, s, x);
    } else {
      OneStart(AddEsp(0), AddEsp(4 * (|o.s.stack| - |s.stack|)), o.s.loc, |o.s.stack|, x);
    }
    StartConcat(o.code, [AddEsp(4 * (|o.s.stack| - |s.stack|))], s.loc, x);
  }

  lemma OneStart(i: Instr, j: Instr, loc: int, d: int, x: int)
    requires SeqDepth([i], loc, d, x).Some?
    ensures StartAt([j], loc, x)
  {
  }

  lemma {:induction false} ItemStart(item: Item, s: S, x: int)
    requires RunItem(item, s).Some? && s.loc <= x < RunItem(item, s).value.s.loc && ItemDepth(item, s, x).Some?
    ensures StartAt(RunItem(item, s).value.code, s.loc, x)
    decreases item, 1
  {
    hide RunGuard, RunBlock, RunElse, BlockDepth, ElseDepth, Define, LabelLoc, SeqDepth, RunPush, RunRet, RunIndirect;
    match item
    case If(guard, elseLab, thn, els) =>
      var g := RunGuard(guard, elseLab, s).value;
      var t := RunBlock(thn, g.s).value;
      GuardFacts(guard, elseLab, s);
      BlockFacts(thn, g.s);
      SizesConcat(g.code, t.code);
      if x < g.s.loc {
        SeqStart(g.code, s.loc, |s.stack|, x);
      } else if x < t.s.loc {
        BlockStart(thn, g.s, x);
      } else {
        ElseStart(elseLab, els, t.s, x);
      }
      if x < t.s.loc {
        StartConcat(g.code, t.code, s.loc, x);
      }
      StartConcat(g.code + t.code, RunElse(elseLab, els, t.s).value.code, s.loc, x);
    case While(_, _, _, _) => WhileStart(item, s, x);
    case _ => SeqStart(RunItem(item, s).value.code, s.loc, |s.stack|, x);
  }

  lemma {:induction false} WhileStart(item: Item, s: S, x: int)
    requires item.While?
    requires RunItem(item, s).Some? && s.loc <= x < RunItem(item, s).value.s.loc && ItemDepth(item, s, x).Some?
    ensures StartAt(RunItem(item, s).value.code, s.loc, x)
    decreases item, 0
  {
    hide RunGuard, RunBlock, BlockDepth, Define, LabelLoc, SeqDepth;
    var While(restartLab, endLab, guard, body) := item;
    DefineFacts(s, Label(restartLab), s.loc, VARIABLE);
    var s1 := Define(s, Label(restartLab), s.loc, VARIABLE).value;
    var g := RunGuard(guard, endLab, s1).value;
    var n := NoteLoop(s, g.s);
    var b := RunBlock(body, n).value;
    var jump := Jmp(LabelLoc(b.s, restartLab).value - (b.s.loc + 5));
    GuardFacts(guard, endLab, s1);
    BlockFacts(body, n);
    SizesConcat(g.code, b.code);
    if x < g.s.loc {
      SeqStart(g.code, s.loc, |s.stack|, x);
    } else if x < b.s.loc {
      BlockStart(body, n, x);
    } else {
      OneStart(Jmp(0), jump, b.s.loc, |b.s.stack|, x);
    }
    if x < b.s.loc {
      StartConcat(g.code, b.code, s.loc, x);
    }
    StartConcat(g.code + b.code, [jump], s.loc, x);
  }

  lemma {:induction false} ElseStart(elseLab: nat, els: Else, s: S, x: int)
    requires RunElse(elseLab, els, s).Some? && s.loc <= x < RunElse(elseLab, els, s).value.s.loc && ElseDepth(elseLab, els, s, x).Some?
    ensures StartAt(RunElse(elseLab, els, s).value.code, s.loc, x)
    decreases els, 2
  {
    hide RunBlock, BlockDepth, Define, LabelLoc, SeqDepth;
    var ElseBlock(fiLab, block) := els;
    var jump := Jmp(LabelLoc(s, fiLab).value - (s.loc + 5));
    var s1 := Emit(s, [jump]);
    DefineFacts(s1, Label(elseLab), s1.loc, VARIABLE);
    var s2 := Define(s1, Label(elseLab), s1.loc, VARIABLE).value;
    var b := RunBlock(block, s2).value;
    DefineFacts(b.s, Label(fiLab), b.s.loc, VARIABLE);
    if x < s1.loc {
      OneStart(Jmp(0), jump, s.loc, |s.stack|, x);
    } else {
      BlockStart(block, s2, x);
    }
    StartConcat([jump], b.code, s.loc, x);
  }

  lemma {:induction false} EdgesAt(D: Depths, img: Image, code: seq<Instr>, loc: int, x: int)
    requires EdgesOk(D, code, loc) && CodeAt(img, loc, code) && StartAt(code, loc, x)
    ensures x in img.code && (img.code[x].Byte? || (D(x).Some? && EdgeOk(D, img.code[x], x, D(x).value)))
    decreases |code|
  {
    if x != loc {
      EdgesAt(D, img, code[1..], loc + Size(code[0]), x);
    }
  }

  // ----- runs -----

  /** A step inside one function: a routine that it calls comes back behind the call with stack and frame
      pointers as they were, whatever else it did.  Leaving the function is not such a step. */
  ghost predicate LocalStep(img: Image, m: M, m': M) {
    m.pc in img.code &&
    match img.code[m.pc]
    case Call(_) => m'.pc == m.pc + 5 && m'.esp == m.esp && m'.ebp == m.ebp
    case CallEax => m'.pc == m.pc + 2 && m'.esp == m.esp && m'.ebp == m.ebp
    case PopEbp => false
    case Return => false
    case i => Exec(i, m) == Some(m')
  }

  /** The depth by the compiler's reckoning at each address of a function's body and at its end. */
  function BodyDepth(b: Block, s: S, a: int): Option<int>
    requires RunBlock(b, s).Some?
  {
    var o := RunBlock(b, s).value;
    if s.loc <= a < o.s.loc then BlockDepth(b, s, a) else if a == o.s.loc then Some(|o.s.stack|) else None
  }

  lemma EdgeStep(D: Depths, img: Image, m: M, m': M, d: int)
    requires LocalStep(img, m, m') && EdgeOk(D, img.code[m.pc], m.pc, d) && m.esp == m.ebp - 4 * d
    ensures m'.ebp == m.ebp && D(m'.pc).Some? && m'.esp == m'.ebp - 4 * D(m'.pc).value
  {
  }

  /** On every path through a function's body, whatever the values on it, the stack is as deep at each
      instruction as the compiler reckons: esp == ebp - 4 * depth. */
  lemma {:induction false} DepthOnEveryPath(img: Image, b: Block, s: S, run: seq<M>, k: nat)
    requires s.stage == 1 && s.stack == [] && s.temps == 0 && RunBlock(b, s).Some? && RunBlock(b, s).value.s.clean
    requires CodeAt(img, s.loc, RunBlock(b, s).value.code)
    requires k < |run| && run[0].pc == s.loc && run[0].esp == run[0].ebp
    requires forall i :: 0 <= i < k ==> LocalStep(img, run[i], run[i + 1]) && s.loc <= run[i].pc < RunBlock(b, s).value.s.loc
    ensures BodyDepth(b, s, run[k].pc).Some? && run[k].ebp == run[0].ebp
    ensures run[k].esp == run[k].ebp - 4 * BodyDepth(b, s, run[k].pc).value
    decreases k
  {
    hide EdgesOk, RunBlock, BlockDepth, CodeAt, EdgeOk, LocalStep;
    var o := RunBlock(b, s).value;
    var D: Depths := a => BodyDepth(b, s, a);
    BlockFacts(b, s);
    assert s.stack == [] + Temps(0);
    ShapeIs(s, []);
    BlockEdges(D, b, s) by { BodyHas(D, b, s); }
    if k > 0 {
      DepthOnEveryPath(img, b, s, run, k - 1);
      var m := run[k - 1];
      assert LocalStep(img, run[k - 1], run[k - 1 + 1]);
      BlockStart(b, s, m.pc);
      EdgesAt(D, img, o.code, s.loc, m.pc);
      NotData(img, m, run[k]);
      EdgeStep(D, img, m, run[k], D(m.pc).value);
    }
  }

  lemma NotData(img: Image, m: M, m': M)
    requires LocalStep(img, m, m')
    ensures !img.code[m.pc].Byte?
  {
  }

  lemma BodyHas(D: Depths, b: Block, s: S)
    requires RunBlock(b, s).Some? && forall a :: D(a) == BodyDepth(b, s, a)
    ensures BlockHas(D, b, s) && Ends(D, RunBlock(b, s).value)
  {
    hide RunBlock, BlockDepth;
    BlockFacts(b, s);
  }
}
