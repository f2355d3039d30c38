/** The two passes agree: what the first accepts the second accepts too, at the same locations, with
    every label and symbol where the first pass put it, exactly if no location is taken too early. */
module GAgree {
  import opened Options
  import opened GSyntax
  import opened GCompile
  import opened GTwoPass
  import opened GEarly

  /** The states of the two passes at the same point of the program; `final` is the table that the
      first pass leaves. */
  ghost predicate Sim(s0: S, s1: S, final: Table) {
    && s0.stage == 0 && s1.stage == 1
    && s1.stack == s0.stack && s1.temps == s0.temps && s1.loc == s0.loc
    && s1.table == final && Grows(s0.table, final)
    && (s0.clean ==> s1.clean)
  }

  /** r1, the result in the second pass, matches r0, the result in the first. */
  ghost predicate SimOut(r0: Option<Out>, r1: Option<Out>, final: Table) {
    r0.Some? && r1.Some? && Sim(r0.value.s, r1.value.s, final)
  }

  /** The first pass went through, and `final` extends what it has defined. */
  ghost predicate Passed(r0: Option<Out>, final: Table) {
    r0.Some? && Grows(r0.value.s.table, final)
  }

  lemma DefineSim(s0: S, s1: S, sym: Sym, loc: int, arity: int, final: Table)
    requires s1.stage == 1 && s1.table == final && s0.stage == 0 && arity < 0
    requires Define(s0, sym, loc, arity).Some? && Grows(Define(s0, sym, loc, arity).value.table, final)
    ensures Define(s1, sym, loc, arity) == Some(s1) && sym in final
  {
    DefineFacts(s0, sym, loc, arity);
    assert sym in Define(s0, sym, loc, arity).value.table;
  }

  lemma PopTempsSim(s0: S, s1: S, n: int, final: Table)
    requires Sim(s0, s1, final) && PopTemps(s0, n).Some?
    ensures PopTemps(s1, n).Some? && Sim(PopTemps(s0, n).value, PopTemps(s1, n).value, final)
  {
    PopTempsFacts(s0, n);
    PopTempsFacts(s1, n);
  }

  /** Two pushes whose code has the same length. */
  lemma EmitPushSim(s0: S, s1: S, code0: seq<Instr>, code1: seq<Instr>, final: Table)
    requires Sim(s0, s1, final) && EmitPush(s0, code0).Some? && Sizes(code0) == Sizes(code1)
    ensures SimOut(EmitPush(s0, code0), EmitPush(s1, code1), final)
  {
  }

  lemma RefSim(name: string, addr: bool, s0: S, s1: S, final: Table)
    requires Sim(s0, s1, final) && Passed(RunRef(name, addr, s0), final)
    ensures SimOut(RunRef(name, addr, s0), RunRef(name, addr, s1), final)
  {
    var pos := Find(s0.stack, name);
    if pos == -1 {
      var e0, e1 := s0.table[Named(name)], final[Named(name)];
      if addr || e0.arity == CONSTANT {
        SizesOne(PushImm(e0.loc));
        SizesOne(PushImm(e1.loc));
      } else if e0.arity != VARIABLE {
        var t0, t1 := NoteArity(s0, e0.arity), NoteArity(s1, e1.arity);
        PopTempsFacts(t0, e0.arity);
        PopTempsSim(t0, t1, e0.arity, final);
        CallCodeSize(s0.loc, e0);
        CallCodeSize(s1.loc, e1);
        EmitPushSim(PopTemps(t0, e0.arity).value, PopTemps(t1, e1.arity).value, CallCode(s0.loc, e0), CallCode(s1.loc, e1), final);
      }
    }
  }

  lemma DataSim(bytes: seq<int>, strLab: nat, jmpLab: nat, s0: S, s1: S, final: Table)
    requires Sim(s0, s1, final) && Passed(RunData(bytes, strLab, jmpLab, s0), final)
    ensures SimOut(RunData(bytes, strLab, jmpLab, s0), RunData(bytes, strLab, jmpLab, s1), final)
    ensures Label(strLab) in final && Label(jmpLab) in final
    ensures RunData(bytes, strLab, jmpLab, s1).value.s == s1.(loc := RunData(bytes, strLab, jmpLab, s0).value.s.loc)
  {
    hide Define, Sizes;
    DefineFacts(s0, Label(strLab), s0.loc, VARIABLE);
    var a0 := Define(s0, Label(strLab), s0.loc, VARIABLE).value;
    var data := DataBytes(bytes + [0]);
    var b0 := Emit(a0, data);
    DefineFacts(b0, Label(jmpLab), b0.loc, VARIABLE);
    var c0 := Define(b0, Label(jmpLab), b0.loc, VARIABLE).value;
    GrowsTrans(a0.table, c0.table, final);
    DefineSim(s0, s1, Label(strLab), s0.loc, VARIABLE, final);
    DefineSim(b0, Emit(s1, data), Label(jmpLab), b0.loc, VARIABLE, final);
  }

  lemma StringSim(bytes: seq<int>, strLab: nat, jmpLab: nat, s0: S, s1: S, final: Table)
    requires Sim(s0, s1, final) && Passed(RunString(bytes, strLab, jmpLab, s0), final)
    ensures SimOut(RunString(bytes, strLab, jmpLab, s0), RunString(bytes, strLab, jmpLab, s1), final)
  {
    hide RunData;
    var jump0 := [Jmp(0 - (s0.loc + 5))];
    var a0 := Emit(s0, jump0);
    var d0 := RunData(bytes, strLab, jmpLab, a0).value.s;
    SizesOne(jump0[0]);
    DataSim(bytes, strLab, jmpLab, a0, s1.(loc := a0.loc), final);
    var jump1 := [Jmp(LabelLoc(s1, jmpLab).value - (s1.loc + 5))];
    SizesOne(jump1[0]);
    assert Emit(s1, jump1) == s1.(loc := a0.loc);
    var d1 := RunData(bytes, strLab, jmpLab, s1.(loc := a0.loc)).value.s;
    SizesOne(PushImm(0));
    SizesOne(PushImm(LabelLoc(d1, strLab).value));
    EmitPushSim(d0, d1, [PushImm(0)], [PushImm(LabelLoc(d1, strLab).value)], final);
  }

  lemma PushSim(p: Push, s0: S, s1: S, final: Table)
    requires Sim(s0, s1, final) && Passed(RunPush(p, s0), final)
    ensures SimOut(RunPush(p, s0), RunPush(p, s1), final)
  {
    hide RunRef, RunString;
    match p
    case Num(value, addr) => EmitPushSim(s0, s1, [PushImm(value)], [PushImm(value)], final);
    case Ref(name, addr) =>
      var t0, t1 := s0.(clean := s0.clean && name != TEMP), s1.(clean := s1.clean && name != TEMP);
      RefFacts(name, addr, t0);
      RefSim(name, addr, t0, t1, final);
    case Str(bytes, strLab, jmpLab) => StringSim(bytes, strLab, jmpLab, s0, s1, final);
  }

  lemma {:induction false} PushesSim(ps: Pushes, s0: S, s1: S, final: Table)
    requires Sim(s0, s1, final) && Passed(RunPushes(ps, s0), final)
    ensures SimOut(RunPushes(ps, s0), RunPushes(ps, s1), final)
    decreases ps
  {
    hide RunPush;
    if ps.Then? {
      var o0 := RunPush(ps.head, s0).value;
      PushesFacts(ps.tail, o0.s);
      GrowsTrans(o0.s.table, RunPushes(ps.tail, o0.s).value.s.table, final);
      PushSim(ps.head, s0, s1, final);
      PushesSim(ps.tail, o0.s, RunPush(ps.head, s1).value.s, final);
    }
  }

  lemma GuardSim(guard: Pushes, target: nat, s0: S, s1: S, final: Table)
    requires Sim(s0, s1, final) && Passed(RunGuard(guard, target, s0), final) && Label(target) in final
    ensures SimOut(RunGuard(guard, target, s0), RunGuard(guard, target, s1), final)
  {
    hide RunPushes;
    PushesSim(guard, s0, s1, final);
    SizesThree(PopEax, CmpEax0, Je(0 - (PopTemp(RunPushes(guard, s0).value.s).value.loc + 10)));
    var t1 := PopTemp(RunPushes(guard, s1).value.s).value;
    SizesThree(PopEax, CmpEax0, Je(LabelLoc(t1, target).value - (t1.loc + 10)));
  }

  /** Functions that are not in fs have the location already that they will have. */
  ghost predicate Settled(s0: S, final: Table, fs: set<string>) {
    forall f: string :: Named(f) in s0.table && f !in fs ==> Named(f) in final && final[Named(f)].loc == s0.table[Named(f)].loc
  }

  lemma StaySettled(s0: S, s0': S, final: Table, fs: set<string>)
    requires Settled(s0, final, fs) && Grows(s0.table, s0'.table) && NamesKept(s0.table, s0'.table)
    ensures Settled(s0', final, fs)
  {
  }

  lemma SameSettled(s0: S, s0': S, final: Table, fs: set<string>)
    requires Settled(s0, final, fs) && s0'.table == s0.table
    ensures Settled(s0', final, fs)
  {
  }

  lemma IndirectSim(operand: Operand, s0: S, s1: S, final: Table, fs: set<string>)
    requires Settled(s0, final, fs) && !Names(operand, fs)
    requires Sim(s0, s1, final) && Passed(RunIndirect(operand, s0), final)
    ensures SimOut(RunIndirect(operand, s0), RunIndirect(operand, s1), final)
  {
    var arity := Decode(s0, operand).value;
    var n0, n1 := NoteArity(NoteOperand(s0, operand), arity), NoteArity(NoteOperand(s1, operand), arity);
    PopTempsFacts(PopTemp(n0).value, arity);
    assert Decode(s1, operand) == Some(arity) && (n0.clean ==> n1.clean);
    PopTempsSim(PopTemp(n0).value, PopTemp(n1).value, arity, final);
  }

  lemma SimpleItemSim(item: Item, s0: S, s1: S, final: Table, fs: set<string>)
    requires Settled(s0, final, fs) && ItemClear(item, fs)
    requires !item.If? && !item.While?
    requires Sim(s0, s1, final) && Passed(RunItem(item, s0), final)
    ensures SimOut(RunItem(item, s0), RunItem(item, s1), final)
  {
    hide RunPush, RunIndirect;
    match item
    case Expr(p) => PushSim(p, s0, s1, final);
    case Semi => PopTempsSim(s0, s1, s0.temps, final);
    case Ret =>
    case Local(_) =>
    case Indirect(operand) => IndirectSim(operand, s0, s1, final, fs);
  }

  lemma {:induction false} ItemSim(item: Item, s0: S, s1: S, final: Table, fs: set<string>)
    requires Settled(s0, final, fs) && ItemClear(item, fs)
    requires Sim(s0, s1, final) && Passed(RunItem(item, s0), final)
    ensures SimOut(RunItem(item, s0), RunItem(item, s1), final)
    decreases item, 3
  {
    hide RunItem;
    match item
    case If(_, _, _, _) => IfSim(item, s0, s1, final, fs);
    case While(_, _, _, _) => WhileSim(item, s0, s1, final, fs);
    case _ => SimpleItemSim(item, s0, s1, final, fs);
  }

  lemma {:induction false} IfSim(item: Item, s0: S, s1: S, final: Table, fs: set<string>)
    requires Settled(s0, final, fs) && ItemClear(item, fs)
    requires item.If? && Sim(s0, s1, final) && Passed(RunItem(item, s0), final)
    ensures SimOut(RunItem(item, s0), RunItem(item, s1), final)
    decreases item, 2
  {
    hide RunGuard, RunBlock, RunElse, Settled, BlockClear, ElseClear, NamesKept;
    var If(guard, elseLab, thn, els) := item;
    var g0 := RunGuard(guard, elseLab, s0).value;
    var t0 := RunBlock(thn, g0.s).value;
    var e0 := RunElse(elseLab, els, t0.s).value;
    GuardFacts(guard, elseLab, s0);
    ElseFacts(elseLab, els, t0.s);
    BlockFacts(thn, g0.s);
    GrowsTrans(t0.s.table, e0.s.table, final);
    GrowsTrans(g0.s.table, t0.s.table, final);
    ElseDefines(elseLab, els, t0.s);
    GuardSim(guard, elseLab, s0, s1, final);
    var g1 := RunGuard(guard, elseLab, s1).value;
    GuardInner(guard, elseLab, s0);
    StaySettled(s0, g0.s, final, fs);
    BlockSim(thn, g0.s, g1.s, final, fs);
    BlockInner(thn, g0.s);
    StaySettled(g0.s, t0.s, final, fs);
    ElseSim(elseLab, els, t0.s, RunBlock(thn, g1.s).value.s, final, fs);
  }

  lemma ElseDefines(elseLab: nat, els: Else, s: S)
    requires RunElse(elseLab, els, s).Some? && s.stage == 0
    ensures Label(elseLab) in RunElse(elseLab, els, s).value.s.table
  {
    hide RunBlock;
    match els
    case NoElse =>
    case ElseBlock(fiLab, block) =>
      var s1 := Emit(s, [Jmp(0 - (s.loc + 5))]);
      var s2 := Define(s1, Label(elseLab), s1.loc, VARIABLE).value;
      BlockFacts(block, s2);
  }

  lemma {:induction false} ElseSim(elseLab: nat, els: Else, s0: S, s1: S, final: Table, fs: set<string>)
    requires Settled(s0, final, fs) && ElseClear(els, fs)
    requires Sim(s0, s1, final) && Passed(RunElse(elseLab, els, s0), final)
    ensures SimOut(RunElse(elseLab, els, s0), RunElse(elseLab, els, s1), final)
    decreases els, 2
  {
    hide RunBlock, Define, Settled, BlockClear, NamesKept;
    match els
    case NoElse =>
      DefineFacts(s0, Label(elseLab), s0.loc, VARIABLE);
      DefineSim(s0, s1, Label(elseLab), s0.loc, VARIABLE, final);
    case ElseBlock(fiLab, block) =>
      var jump0 := [Jmp(0 - (s0.loc + 5))];
      var a0 := Emit(s0, jump0);
      DefineFacts(a0, Label(elseLab), a0.loc, VARIABLE);
      var b0 := Define(a0, Label(elseLab), a0.loc, VARIABLE).value;
      BlockFacts(block, b0);
      var c0 := RunBlock(block, b0).value;
      DefineFacts(c0.s, Label(fiLab), c0.s.loc, VARIABLE);
      var d0 := Define(c0.s, Label(fiLab), c0.s.loc, VARIABLE).value;
      GrowsTrans(c0.s.table, d0.table, final);
      GrowsTrans(b0.table, c0.s.table, final);
      var a1 := s1.(loc := a0.loc);
      DefineSim(a0, a1, Label(elseLab), a0.loc, VARIABLE, final);
      DefineInner(a0, elseLab, a0.loc);
      SameSettled(s0, a0, final, fs);
      StaySettled(a0, b0, final, fs);
      BlockSim(block, b0, a1, final, fs);
      var c1 := RunBlock(block, a1).value;
      DefineSim(c0.s, c1.s, Label(fiLab), c0.s.loc, VARIABLE, final);
      SizesOne(jump0[0]);
      SizesOne(Jmp(LabelLoc(s1, fiLab).value - (s1.loc + 5)));
      assert Emit(s1, [Jmp(LabelLoc(s1, fiLab).value - (s1.loc + 5))]) == a1;
  }

  /** The jump back, and the label behind it. */
  lemma LoopEndSim(restartLab: nat, endLab: nat, b0: S, b1: S, final: Table)
    requires Sim(b0, b1, final) && Label(restartLab) in final
    requires var c0 := Emit(b0, [Jmp(0 - (b0.loc + 5))]);
             Define(c0, Label(endLab), c0.loc, VARIABLE).Some? && Grows(Define(c0, Label(endLab), c0.loc, VARIABLE).value.table, final)
    ensures LabelLoc(b1, restartLab).Some?
    ensures var c0, c1 := Emit(b0, [Jmp(0 - (b0.loc + 5))]), Emit(b1, [Jmp(LabelLoc(b1, restartLab).value - (b1.loc + 5))]);
            c1.loc == c0.loc && Define(c1, Label(endLab), c1.loc, VARIABLE) == Some(c1)
  {
    hide Define;
    var jump0, jump1 := [Jmp(0 - (b0.loc + 5))], [Jmp(LabelLoc(b1, restartLab).value - (b1.loc + 5))];
    SizesOne(jump0[0]);
    SizesOne(jump1[0]);
    DefineSim(Emit(b0, jump0), Emit(b1, jump1), Label(endLab), Emit(b0, jump0).loc, VARIABLE, final);
  }

  lemma {:induction false} WhileSim(item: Item, s0: S, s1: S, final: Table, fs: set<string>)
    requires Settled(s0, final, fs) && ItemClear(item, fs)
    requires item.While? && Sim(s0, s1, final) && Passed(RunItem(item, s0), final)
    ensures SimOut(RunItem(item, s0), RunItem(item, s1), final)
    decreases item, 2
  {
    hide RunGuard, RunBlock, Define, Sizes, Settled, BlockClear, NamesKept;
    var While(restartLab, endLab, guard, body) := item;
    DefineFacts(s0, Label(restartLab), s0.loc, VARIABLE);
    var a0 := Define(s0, Label(restartLab), s0.loc, VARIABLE).value;
    GuardFacts(guard, endLab, a0);
    var g0 := RunGuard(guard, endLab, a0).value;
    var n0 := NoteLoop(s0, g0.s);
    BlockFacts(body, n0);
    var b0 := RunBlock(body, n0).value;
    var c0 := Emit(b0.s, [Jmp(0 - (b0.s.loc + 5))]);
    DefineFacts(c0, Label(endLab), c0.loc, VARIABLE);
    var d0 := Define(c0, Label(endLab), c0.loc, VARIABLE).value;
    GrowsTrans(b0.s.table, d0.table, final);
    GrowsTrans(g0.s.table, b0.s.table, final);
    GrowsTrans(a0.table, g0.s.table, final);
    DefineSim(s0, s1, Label(restartLab), s0.loc, VARIABLE, final);
    assert Label(endLab) in final;
    GuardSim(guard, endLab, a0, s1, final);
    var g1 := RunGuard(guard, endLab, s1).value;
    DefineInner(s0, restartLab, s0.loc);
    GuardInner(guard, endLab, a0);
    StaySettled(s0, a0, final, fs);
    StaySettled(a0, n0, final, fs);
    BlockSim(body, n0, NoteLoop(s1, g1.s), final, fs);
    var b1 := RunBlock(body, NoteLoop(s1, g1.s)).value;
    LoopEndSim(restartLab, endLab, b0.s, b1.s, final);
  }

  lemma {:induction false} BlockSim(b: Block, s0: S, s1: S, final: Table, fs: set<string>)
    requires Settled(s0, final, fs) && BlockClear(b, fs)
    requires Sim(s0, s1, final) && Passed(RunBlock(b, s0), final)
    ensures SimOut(RunBlock(b, s0), RunBlock(b, s1), final)
    decreases b, 5
  {
    hide RunItems;
    ItemsSim(b, s0, s1, final, fs);
  }

  lemma {:induction false} ItemsSim(b: Block, s0: S, s1: S, final: Table, fs: set<string>)
    requires Settled(s0, final, fs) && BlockClear(b, fs)
    requires Sim(s0, s1, final) && Passed(RunItems(b, s0), final)
    ensures SimOut(RunItems(b, s0), RunItems(b, s1), final)
    decreases b, 4
  {
    hide RunItem, ItemClear, Settled, NamesKept;
    if b.Cons? {
      var o0 := RunItem(b.head, s0).value;
      ItemFacts(b.head, s0);
      ItemsFacts(b.tail, o0.s);
      GrowsTrans(o0.s.table, RunItems(b.tail, o0.s).value.s.table, final);
      ItemSim(b.head, s0, s1, final, fs);
      ItemInner(b.head, s0);
      StaySettled(s0, o0.s, final, fs);
      ItemsSim(b.tail, o0.s, RunItem(b.head, s1).value.s, final, fs);
    }
  }

  // ----- declarations -----

  /** What the first pass will have given to the functions that are pending after d. */
  lemma SettledBehind(d: Decl, rest: Program, s0: S, t: S, declared: set<string>, defined: set<string>)
    requires s0.stage == 0 && RunDecl(d, s0).Some? && RunProgram(rest, RunDecl(d, s0).value.s).Some?
    requires Tracks(t.table, declared, defined)
    requires forall f: string :: Named(f) in t.table && Pending(t.table[Named(f)]) ==> KeptBy(d, s0, t, f)
    requires Grows(t.table, RunProgram(rest, RunDecl(d, s0).value.s).value.s.table)
    ensures Settled(t, RunProgram(rest, RunDecl(d, s0).value.s).value.s.table, Early(declared, defined, rest))
  {
    hide RunDecl, RunProgram, FunIn, Tracks;
    var o := RunDecl(d, s0).value.s;
    var final := RunProgram(rest, o).value.s.table;
    DeclFacts(d, s0);
    forall f: string | Named(f) in t.table && f !in Early(declared, defined, rest)
      ensures Named(f) in final && final[Named(f)].loc == t.table[Named(f)].loc
    {
      if Pending(t.table[Named(f)]) {
        assert KeptBy(d, s0, t, f);
        TracksOne(t.table, declared, defined, f);
        PendingLater(rest, o, f);
      }
    }
  }

  /** The entry that f has in t is still there after d. */
  ghost predicate KeptBy(d: Decl, s0: S, t: S, f: string)
    requires RunDecl(d, s0).Some?
  {
    Named(f) in t.table && Named(f) in RunDecl(d, s0).value.s.table && RunDecl(d, s0).value.s.table[Named(f)] == t.table[Named(f)]
  }

  /** Behind the prologue of the function. */
  function Entering(d: Decl, s: S): S
    requires d.Fun? && Fix(s, d.name, s.loc, d.arity).Some?
  {
    Emit(Fix(s, d.name, s.loc, d.arity).value, [PushEbp, MovEbpEsp])
  }

  lemma FunBody(d: Decl, rest: Program, s0: S, declared: set<string>, defined: set<string>)
    requires d.Fun? && s0.stage == 0 && RunDecl(d, s0).Some? && RunProgram(rest, RunDecl(d, s0).value.s).Some?
    requires Tracks(s0.table, declared, defined)
    ensures Fix(s0, d.name, s0.loc, d.arity).Some?
    ensures var final := RunProgram(rest, RunDecl(d, s0).value.s).value.s.table;
            Settled(Entering(d, s0), final, Early(declared, defined + {d.name}, rest)) && Grows(Entering(d, s0).table, final)
    ensures Tracks(Entering(d, s0).table, declared, defined + {d.name})
  {
    hide RunBlock, RunProgram, FunIn, Early, Tracks;
    var b0 := Entering(d, s0);
    var o := RunDecl(d, s0).value.s;
    BlockFacts(d.body, b0);
    BlockInner(d.body, b0);
    ProgramFacts(rest, o);
    GrowsTrans(b0.table, o.table, RunProgram(rest, o).value.s.table);
    forall f: string ensures TracksName(b0.table, declared, defined + {d.name}, f) {
      TracksOne(s0.table, declared, defined, f);
    }
    TracksAll(b0.table, declared, defined + {d.name});
    forall f: string | Named(f) in b0.table && Pending(b0.table[Named(f)]) ensures KeptBy(d, s0, b0, f) {
      PendingKept(b0.table, o.table, f);
    }
    SettledBehind(d, rest, s0, b0, declared, defined + {d.name});
  }

  lemma FunSim(d: Decl, rest: Program, s0: S, s1: S, declared: set<string>, defined: set<string>, final: Table)
    requires d.Fun? && Sim(s0, s1, final) && RunDecl(d, s0).Some? && Tracks(s0.table, declared, defined)
    requires RunProgram(rest, RunDecl(d, s0).value.s).Some? && final == RunProgram(rest, RunDecl(d, s0).value.s).value.s.table
    requires !DeclReadsEarly(d, rest, declared, defined, final)
    ensures SimOut(RunDecl(d, s0), RunDecl(d, s1), final)
  {
    hide RunBlock, RunProgram, Settled, Tracks, Early, BlockClear;
    FunBody(d, rest, s0, declared, defined);
    var b0 := Entering(d, s0);
    FunEnters(d, s0, s1, final);
    BlockFacts(d.body, b0);
    ProgramFacts(rest, RunDecl(d, s0).value.s);
    BlockSim(d.body, b0, Entering(d, s1), final, Early(declared, defined + {d.name}, rest));
  }

  lemma FunEnters(d: Decl, s0: S, s1: S, final: Table)
    requires d.Fun? && Sim(s0, s1, final) && Fix(s0, d.name, s0.loc, d.arity).Some? && Grows(Entering(d, s0).table, final)
    ensures Fix(s1, d.name, s1.loc, d.arity) == Some(s1) && Sim(Entering(d, s0), Entering(d, s1), final)
  {
    var a0 := Fix(s0, d.name, s0.loc, d.arity).value;
    assert Named(d.name) in a0.table && a0.table[Named(d.name)] == Entry(s0.loc, d.arity);
    assert final[Named(d.name) := Entry(s0.loc, d.arity)] == final;
  }

  /** Whether a pending function is early, by the location it will have. */
  lemma EarlyOrSettled(d: Decl, rest: Program, s0: S, declared: set<string>, defined: set<string>, f: string)
    requires !d.Fun? && s0.stage == 0 && RunDecl(d, s0).Some? && RunProgram(rest, RunDecl(d, s0).value.s).Some?
    requires Tracks(s0.table, declared, defined) && Named(f) in s0.table
    ensures var final := RunProgram(rest, RunDecl(d, s0).value.s).value.s.table;
            Named(f) in final
            && if f in Early(declared, defined, rest) then s0.table[Named(f)].loc == UNDEFINED && final[Named(f)].loc >= s0.loc
               else final[Named(f)].loc == s0.table[Named(f)].loc
  {
    hide RunDecl, RunProgram, FunIn, Tracks;
    var o := RunDecl(d, s0).value.s;
    DeclFacts(d, s0);
    ProgramFacts(rest, o);
    DeclOther(d, s0, f);
    TracksOne(s0.table, declared, defined, f);
    if Pending(s0.table[Named(f)]) {
      PendingLater(rest, o, f);
    }
  }

  lemma ConstSim(d: Decl, s0: S, s1: S, final: Table)
    requires d.Const? && Sim(s0, s1, final) && Passed(RunDecl(d, s0), final)
    requires d.operand.SymbolOf? && Named(d.operand.name) in s0.table ==>
               Named(d.operand.name) in final && final[Named(d.operand.name)].loc == s0.table[Named(d.operand.name)].loc
    ensures SimOut(RunDecl(d, s0), RunDecl(d, s1), final)
  {
    var n0, n1 := NoteOperand(s0, d.operand), NoteOperand(s1, d.operand);
    DefineFacts(n0, Named(d.name), Decode(s0, d.operand).value, CONSTANT);
    assert Decode(s1, d.operand) == Decode(s0, d.operand) && (n0.clean ==> n1.clean);
    DefineSim(n0, n1, Named(d.name), Decode(s0, d.operand).value, CONSTANT, final);
  }

  /** Two lengths that lay out as many bytes. */
  lemma ArraySim(d: Decl, s0: S, s1: S, final: Table)
    requires d.Array? && Sim(s0, s1, final) && Passed(RunDecl(d, s0), final)
    requires d.operand.SymbolOf? && Named(d.operand.name) in s0.table ==>
               var l0, l1 := s0.table[Named(d.operand.name)].loc, final[Named(d.operand.name)].loc; l0 == l1 || (l0 <= 0 && l1 <= 0)
    ensures SimOut(RunDecl(d, s0), RunDecl(d, s1), final)
  {
    DefineFacts(s0, Named(d.name), s0.loc, CONSTANT);
    DefineSim(s0, s1, Named(d.name), s0.loc, CONSTANT, final);
    var t0 := Define(s0, Named(d.name), s0.loc, CONSTANT).value;
    var l0, l1 := Decode(t0, d.operand).value, Decode(s1, d.operand).value;
    ZerosSize(l0);
    ZerosSize(l1);
    assert NoteOperand(t0, d.operand).clean ==> NoteOperand(s1, d.operand).clean;
  }

  lemma DeclSim(d: Decl, rest: Program, s0: S, s1: S, declared: set<string>, defined: set<string>, final: Table)
    requires Sim(s0, s1, final) && RunDecl(d, s0).Some? && Tracks(s0.table, declared, defined)
    requires RunProgram(rest, RunDecl(d, s0).value.s).Some? && final == RunProgram(rest, RunDecl(d, s0).value.s).value.s.table
    requires !DeclReadsEarly(d, rest, declared, defined, final)
    ensures SimOut(RunDecl(d, s0), RunDecl(d, s1), final)
  {
    hide RunBlock, RunProgram, Tracks, Early;
    ProgramFacts(rest, RunDecl(d, s0).value.s);
    match d
    case Fun(_, _, _) => FunSim(d, rest, s0, s1, declared, defined, final);
    case Ifun(name, arity) =>
      assert Named(name) in RunDecl(d, s0).value.s.table;
    case Const(name, operand) =>
      if operand.SymbolOf? && Named(operand.name) in s0.table {
        EarlyOrSettled(d, rest, s0, declared, defined, operand.name);
      }
      ConstSim(d, s0, s1, final);
    case Global(name) =>
      DefineFacts(s0, Named(name), s0.loc, VARIABLE);
      DefineSim(s0, s1, Named(name), s0.loc, VARIABLE, final);
    case Array(name, operand) =>
      if operand.SymbolOf? && Named(operand.name) in s0.table {
        EarlyOrSettled(d, rest, s0, declared, defined, operand.name);
      }
      ArraySim(d, s0, s1, final);
  }

  // ----- what is taken too early is found out -----

  /** In the second pass the call would pop more values than all the bytes so far can have pushed. */
  lemma IndirectRejected(operand: Operand, s0: S, s1: S, final: Table)
    requires Sim(s0, s1, final) && RunIndirect(operand, s0).Some? && |s0.stack| <= s0.loc
    requires operand.SymbolOf? && Named(operand.name) in final && final[Named(operand.name)].loc >= s0.loc
    ensures RunIndirect(operand, s1).None?
  {
    var n1 := NoteArity(NoteOperand(s1, operand), final[Named(operand.name)].loc);
    PopTempsFacts(PopTemp(n1).value, final[Named(operand.name)].loc);
  }

  /** The functions of fs are pending, and will lie at m or behind it. */
  ghost predicate Behind(final: Table, fs: set<string>, m: int) {
    forall f :: f in fs ==> Named(f) in final && final[Named(f)].loc >= m
  }

  lemma {:induction false} ItemRejected(item: Item, s0: S, s1: S, final: Table, fs: set<string>)
    requires Sim(s0, s1, final) && Passed(RunItem(item, s0), final) && Settled(s0, final, fs) && |s0.stack| <= s0.loc
    requires Behind(final, fs, RunItem(item, s0).value.s.loc) && !ItemClear(item, fs)
    ensures RunItem(item, s1).None?
    decreases item, 3
  {
    hide RunItem, Settled;
    match item
    case If(_, _, _, _) => IfRejected(item, s0, s1, final, fs);
    case While(_, _, _, _) => WhileRejected(item, s0, s1, final, fs);
    case Indirect(operand) => IndirectItemRejected(operand, s0, s1, final, fs);
    case _ =>
  }

  lemma IndirectItemRejected(operand: Operand, s0: S, s1: S, final: Table, fs: set<string>)
    requires Sim(s0, s1, final) && RunItem(Indirect(operand), s0).Some? && |s0.stack| <= s0.loc && Names(operand, fs)
    requires Behind(final, fs, RunItem(Indirect(operand), s0).value.s.loc)
    ensures RunItem(Indirect(operand), s1).None?
  {
    hide RunIndirect;
    SimpleItemFacts(Indirect(operand), s0);
    IndirectRejected(operand, s0, s1, final);
  }

  lemma {:induction false} IfRejected(item: Item, s0: S, s1: S, final: Table, fs: set<string>)
    requires item.If? && Sim(s0, s1, final) && Passed(RunItem(item, s0), final) && Settled(s0, final, fs) && |s0.stack| <= s0.loc
    requires Behind(final, fs, RunItem(item, s0).value.s.loc) && !ItemClear(item, fs)
    ensures RunItem(item, s1).None?
    decreases item, 2
  {
    hide RunGuard, RunBlock, RunElse, Settled, BlockClear, ElseClear, NamesKept;
    var If(guard, elseLab, thn, els) := item;
    var g0 := RunGuard(guard, elseLab, s0).value;
    var t0 := RunBlock(thn, g0.s).value;
    var e0 := RunElse(elseLab, els, t0.s).value;
    GuardFacts(guard, elseLab, s0);
    GuardInner(guard, elseLab, s0);
    BlockFacts(thn, g0.s);
    BlockInner(thn, g0.s);
    ElseFacts(elseLab, els, t0.s);
    GrowsTrans(t0.s.table, e0.s.table, final);
    GrowsTrans(g0.s.table, t0.s.table, final);
    ElseDefines(elseLab, els, t0.s);
    GuardSim(guard, elseLab, s0, s1, final);
    var g1 := RunGuard(guard, elseLab, s1).value;
    StaySettled(s0, g0.s, final, fs);
    if BlockClear(thn, fs) {
      BlockSim(thn, g0.s, g1.s, final, fs);
      StaySettled(g0.s, t0.s, final, fs);
      ElseRejected(elseLab, els, t0.s, RunBlock(thn, g1.s).value.s, final, fs);
    } else {
      BlockRejected(thn, g0.s, g1.s, final, fs);
    }
  }

  lemma {:induction false} ElseRejected(elseLab: nat, els: Else, s0: S, s1: S, final: Table, fs: set<string>)
    requires Sim(s0, s1, final) && Passed(RunElse(elseLab, els, s0), final) && Settled(s0, final, fs) && |s0.stack| <= s0.loc
    requires Behind(final, fs, RunElse(elseLab, els, s0).value.s.loc) && !ElseClear(els, fs)
    ensures RunElse(elseLab, els, s1).None?
    decreases els, 2
  {
    hide RunBlock, Define, Settled, BlockClear, NamesKept;
    var ElseBlock(fiLab, block) := els;
    var jump0 := [Jmp(0 - (s0.loc + 5))];
    var a0 := Emit(s0, jump0);
    DefineFacts(a0, Label(elseLab), a0.loc, VARIABLE);
    DefineInner(a0, elseLab, a0.loc);
    var b0 := Define(a0, Label(elseLab), a0.loc, VARIABLE).value;
    BlockFacts(block, b0);
    var c0 := RunBlock(block, b0).value;
    DefineFacts(c0.s, Label(fiLab), c0.s.loc, VARIABLE);
    var d0 := Define(c0.s, Label(fiLab), c0.s.loc, VARIABLE).value;
    GrowsTrans(c0.s.table, d0.table, final);
    GrowsTrans(b0.table, c0.s.table, final);
    var a1 := s1.(loc := a0.loc);
    DefineSim(a0, a1, Label(elseLab), a0.loc, VARIABLE, final);
    SameSettled(s0, a0, final, fs);
    StaySettled(a0, b0, final, fs);
    BlockRejected(block, b0, a1, final, fs);
    SizesOne(jump0[0]);
    if LabelLoc(s1, fiLab).Some? {
      SizesOne(Jmp(LabelLoc(s1, fiLab).value - (s1.loc + 5)));
      assert Emit(s1, [Jmp(LabelLoc(s1, fiLab).value - (s1.loc + 5))]) == a1;
    }
  }

  lemma {:induction false} WhileRejected(item: Item, s0: S, s1: S, final: Table, fs: set<string>)
    requires item.While? && Sim(s0, s1, final) && Passed(RunItem(item, s0), final) && Settled(s0, final, fs) && |s0.stack| <= s0.loc
    requires Behind(final, fs, RunItem(item, s0).value.s.loc) && !ItemClear(item, fs)
    ensures RunItem(item, s1).None?
    decreases item, 2
  {
    hide RunGuard, RunBlock, Define, Settled, BlockClear, NamesKept;
    var While(restartLab, endLab, guard, body) := item;
    DefineFacts(s0, Label(restartLab), s0.loc, VARIABLE);
    DefineInner(s0, restartLab, s0.loc);
    var a0 := Define(s0, Label(restartLab), s0.loc, VARIABLE).value;
    GuardFacts(guard, endLab, a0);
    GuardInner(guard, endLab, a0);
    var g0 := RunGuard(guard, endLab, a0).value;
    var n0 := NoteLoop(s0, g0.s);
    BlockFacts(body, n0);
    var b0 := RunBlock(body, n0).value;
    var c0 := Emit(b0.s, [Jmp(0 - (b0.s.loc + 5))]);
    DefineFacts(c0, Label(endLab), c0.loc, VARIABLE);
    var d0 := Define(c0, Label(endLab), c0.loc, VARIABLE).value;
    GrowsTrans(b0.s.table, d0.table, final);
    GrowsTrans(g0.s.table, b0.s.table, final);
    GrowsTrans(a0.table, g0.s.table, final);
    DefineSim(s0, s1, Label(restartLab), s0.loc, VARIABLE, final);
    assert Label(endLab) in final;
    GuardSim(guard, endLab, a0, s1, final);
    var g1 := RunGuard(guard, endLab, s1).value;
    StaySettled(s0, a0, final, fs);
    StaySettled(a0, n0, final, fs);
    BlockRejected(body, n0, NoteLoop(s1, g1.s), final, fs);
  }

  lemma {:induction false} BlockRejected(b: Block, s0: S, s1: S, final: Table, fs: set<string>)
    requires Sim(s0, s1, final) && Passed(RunBlock(b, s0), final) && Settled(s0, final, fs) && |s0.stack| <= s0.loc
    requires Behind(final, fs, RunBlock(b, s0).value.s.loc) && !BlockClear(b, fs)
    ensures RunBlock(b, s1).None?
    decreases b, 5
  {
    hide RunItems, BlockClear, Settled;
    BlockFacts(b, s0);
    ItemsFacts(b, s0);
    ItemsRejected(b, s0, s1, final, fs);
  }

  lemma {:induction false} ItemsRejected(b: Block, s0: S, s1: S, final: Table, fs: set<string>)
    requires Sim(s0, s1, final) && Passed(RunItems(b, s0), final) && Settled(s0, final, fs) && |s0.stack| <= s0.loc
    requires Behind(final, fs, RunItems(b, s0).value.s.loc) && !BlockClear(b, fs)
    ensures RunItems(b, s1).None?
    decreases b, 4
  {
    hide RunItem, ItemClear, Settled, NamesKept;
    var o0 := RunItem(b.head, s0).value;
    ItemFacts(b.head, s0);
    ItemInner(b.head, s0);
    ItemsFacts(b.tail, o0.s);
    GrowsTrans(o0.s.table, RunItems(b.tail, o0.s).value.s.table, final);
    if ItemClear(b.head, fs) {
      ItemSim(b.head, s0, s1, final, fs);
      StaySettled(s0, o0.s, final, fs);
      ItemsRejected(b.tail, o0.s, RunItem(b.head, s1).value.s, final, fs);
    } else {
      ItemRejected(b.head, s0, s1, final, fs);
    }
  }

  /** Where the second pass has come apart from the first, the next location that it checks gives it away. */
  lemma {:induction false} ComeApart(p: Program, s0: S, s1: S, final: Table, f: string)
    requires s0.stage == 0 && s1.stage == 1 && s1.table == final && s1.loc != s0.loc && FunIn(p, f)
    requires RunProgram(p, s0).Some? && Grows(RunProgram(p, s0).value.s.table, final)
    ensures RunProgram(p, s1).None?
    decreases p
  {
    hide RunDecl;
    var o0 := RunDecl(p.head, s0).value;
    DeclFacts(p.head, s0);
    ProgramFacts(p.tail, o0.s);
    GrowsTrans(o0.s.table, RunProgram(p.tail, o0.s).value.s.table, final);
    if p.head.Const? || p.head.Ifun? {
      NothingEmitted(p.head, s0);
      NothingEmitted(p.head, s1);
      if RunDecl(p.head, s1).Some? {
        ComeApart(p.tail, o0.s, RunDecl(p.head, s1).value.s, final, f);
      }
    } else {
      LocationChecked(p.head, s0, s1, final);
    }
  }

  lemma NothingEmitted(d: Decl, s: S)
    requires d.Const? || d.Ifun?
    ensures RunDecl(d, s).Some? ==> RunDecl(d, s).value.s.loc == s.loc && RunDecl(d, s).value.s.stage == s.stage
    ensures RunDecl(d, s).Some? && s.stage == 1 ==> RunDecl(d, s).value.s.table == s.table
  {
  }

  lemma LocationChecked(d: Decl, s0: S, s1: S, final: Table)
    requires !d.Const? && !d.Ifun? && s0.stage == 0 && s1.stage == 1 && s1.table == final && s1.loc != s0.loc
    requires RunDecl(d, s0).Some? && Grows(RunDecl(d, s0).value.s.table, final)
    ensures RunDecl(d, s1).None?
  {
    hide RunBlock;
    if d.Fun? {
      FunDefines(d, s0);
    } else {
      DefineFacts(s0, Named(d.name), s0.loc, if d.Global? then VARIABLE else CONSTANT);
    }
  }

  /** A declaration that reads early stops the second pass, at once or at the next function. */
  lemma DeclRejected(d: Decl, rest: Program, s0: S, s1: S, declared: set<string>, defined: set<string>, final: Table)
    requires Sim(s0, s1, final) && RunDecl(d, s0).Some? && Tracks(s0.table, declared, defined) && |s0.stack| == 0
    requires RunProgram(rest, RunDecl(d, s0).value.s).Some? && final == RunProgram(rest, RunDecl(d, s0).value.s).value.s.table
    requires DeclReadsEarly(d, rest, declared, defined, final)
    ensures RunDecl(d, s1).None? || RunProgram(rest, RunDecl(d, s1).value.s).None?
  {
    hide RunProgram, Tracks, BlockClear;
    ProgramFacts(rest, RunDecl(d, s0).value.s);
    match d
    case Fun(_, _, _) => FunRejected(d, rest, s0, s1, declared, defined, final);
    case Const(name, operand) =>
      DefineFacts(NoteOperand(s0, operand), Named(name), Decode(s0, operand).value, CONSTANT);
      TracksOne(s0.table, declared, defined, operand.name);
      EarlyOrSettled(d, rest, s0, declared, defined, operand.name);
    case Array(_, _) => ArrayRejected(d, rest, s0, s1, declared, defined, final);
  }

  lemma ArrayRejected(d: Decl, rest: Program, s0: S, s1: S, declared: set<string>, defined: set<string>, final: Table)
    requires d.Array? && Sim(s0, s1, final) && RunDecl(d, s0).Some? && Tracks(s0.table, declared, defined)
    requires RunProgram(rest, RunDecl(d, s0).value.s).Some? && final == RunProgram(rest, RunDecl(d, s0).value.s).value.s.table
    requires DeclReadsEarly(d, rest, declared, defined, final)
    ensures RunDecl(d, s1).None? || RunProgram(rest, RunDecl(d, s1).value.s).None?
  {
    hide RunProgram, Tracks;
    var f := d.operand.name;
    DeclFacts(d, s0);
    ProgramFacts(rest, RunDecl(d, s0).value.s);
    TracksOne(s0.table, declared, defined, f);
    EarlyOrSettled(d, rest, s0, declared, defined, f);
    DefineFacts(s0, Named(d.name), s0.loc, CONSTANT);
    if RunDecl(d, s1).Some? {
      ZerosSize(final[Named(f)].loc);
      ZerosSize(UNDEFINED);
      ComeApart(rest, RunDecl(d, s0).value.s, RunDecl(d, s1).value.s, final, f);
    }
  }

  lemma FunRejected(d: Decl, rest: Program, s0: S, s1: S, declared: set<string>, defined: set<string>, final: Table)
    requires d.Fun? && Sim(s0, s1, final) && RunDecl(d, s0).Some? && Tracks(s0.table, declared, defined) && |s0.stack| == 0
    requires RunProgram(rest, RunDecl(d, s0).value.s).Some? && final == RunProgram(rest, RunDecl(d, s0).value.s).value.s.table
    requires DeclReadsEarly(d, rest, declared, defined, final)
    ensures RunDecl(d, s1).None?
  {
    hide RunBlock, RunProgram, Settled, Tracks, BlockClear, Early;
    var fs := Early(declared, defined + {d.name}, rest);
    FunBody(d, rest, s0, declared, defined);
    var b0 := Entering(d, s0);
    FunEnters(d, s0, s1, final);
    BlockFacts(d.body, b0);
    ProgramFacts(rest, RunDecl(d, s0).value.s);
    EarlyBehind(d, rest, s0, declared, defined, final);
    BlockRejected(d.body, b0, Entering(d, s1), final, fs);
  }

  lemma EarlyBehind(d: Decl, rest: Program, s0: S, declared: set<string>, defined: set<string>, final: Table)
    requires d.Fun? && s0.stage == 0 && RunDecl(d, s0).Some? && Tracks(s0.table, declared, defined)
    requires RunProgram(rest, RunDecl(d, s0).value.s).Some? && final == RunProgram(rest, RunDecl(d, s0).value.s).value.s.table
    ensures Behind(final, Early(declared, defined + {d.name}, rest), RunDecl(d, s0).value.s.loc)
  {
    hide RunDecl, RunProgram, Tracks, FunIn;
    DeclFacts(d, s0);
    forall f | f in Early(declared, defined + {d.name}, rest) ensures Named(f) in final && final[Named(f)].loc >= RunDecl(d, s0).value.s.loc {
      TracksOne(s0.table, declared, defined, f);
      DeclOther(d, s0, f);
      PendingLater(rest, RunDecl(d, s0).value.s, f);
    }
  }

  // ----- programs -----

  lemma EmptyStack(d: Decl, s: S)
    requires RunDecl(d, s).Some?
    ensures |RunDecl(d, s).value.s.stack| == |s.stack|
  {
    hide RunBlock;
    if d.Fun? {
      BlockInner(d.body, Entering(d, s));
    }
  }

  lemma {:induction false} ProgramAgrees(p: Program, s0: S, s1: S, declared: set<string>, defined: set<string>, final: Table)
    requires Sim(s0, s1, final) && |s0.stack| == 0 && Tracks(s0.table, declared, defined)
    requires RunProgram(p, s0).Some? && final == RunProgram(p, s0).value.s.table
    ensures if ReadsEarly(p, declared, defined, final) then RunProgram(p, s1).None? else SimOut(RunProgram(p, s0), RunProgram(p, s1), final)
    decreases p
  {
    hide RunDecl, DeclReadsEarly, Tracks;
    if p.Decls? {
      var o0 := RunDecl(p.head, s0).value;
      DeclFacts(p.head, s0);
      EmptyStack(p.head, s0);
      DeclTracks(p.head, s0, declared, defined);
      if DeclReadsEarly(p.head, p.tail, declared, defined, final) {
        DeclRejected(p.head, p.tail, s0, s1, declared, defined, final);
      } else {
        DeclSim(p.head, p.tail, s0, s1, declared, defined, final);
        ProgramAgrees(p.tail, o0.s, RunDecl(p.head, s1).value.s, DeclaredBy(p.head, declared), DefinedBy(p.head, defined), final);
      }
    }
  }

  /** Whatever rules a program keeps to otherwise: if the first pass accepts it, then the second pass, starting
      from the table that the first one leaves, accepts it exactly if the program takes no location too early;
      and then it emits as many bytes and leaves the table as it is, so that every symbol and label is
      where the first pass recorded it. */
  lemma SecondPassAgrees(p: Program, start: nat, table: Table)
    requires RunPass(p, 0, start, table).Some?
    ensures var first := RunPass(p, 0, start, table).value;
            var second := RunPass(p, 1, start, first.s.table);
            && (second.Some? <==> !ReadsEarly(p, DeclaredIn(table), DefinedIn(table), first.s.table))
            && (second.Some? ==>
                  && second.value.s.table == first.s.table && (first.s.clean ==> second.value.s.clean)
                  && second.value.s.loc == first.s.loc == start + Sizes(second.value.code) == start + Sizes(first.code))
  {
    hide RunProgram, ReadsEarly, Tracks, DeclaredIn, DefinedIn;
    var s0 := S(0, [], 0, start, table, true);
    ProgramFacts(p, s0);
    var first := RunProgram(p, s0).value;
    var s1 := S(1, [], 0, start, first.s.table, true);
    StartTracks(table);
    ProgramAgrees(p, s0, s1, DeclaredIn(table), DefinedIn(table), first.s.table);
    ProgramFacts(p, s1);
  }

  /** A program that keeps to the rules takes none too early. */
  lemma CleanAgrees(p: Program, start: nat, table: Table)
    requires RunPass(p, 0, start, table).Some? && RunPass(p, 0, start, table).value.s.clean
    ensures var first := RunPass(p, 0, start, table).value;
            var second := RunPass(p, 1, start, first.s.table);
            second.Some? && second.value.s.clean
  {
    hide RunProgram, ReadsEarly, Tracks, DeclaredIn, DefinedIn;
    StartTracks(table);
    SecondPassAgrees(p, start, table);
    CleanReadsNothingEarly(p, S(0, [], 0, start, table, true), DeclaredIn(table), DefinedIn(table), RunPass(p, 0, start, table).value.s.table);
  }

  /** ifun f 0   const c f   fun f 0 { } */
  const PENDING := Decls(Ifun("f", 0), Decls(Const("c", SymbolOf("f")), Decls(Fun("f", 0, Nil), End)))

  /** The smallest program that does: the first pass accepts it and the second does not. */
  lemma PendingConstantRejected(start: nat)
    ensures var first := RunPass(PENDING, 0, start, map[]);
            first.Some? && !first.value.s.clean && RunPass(PENDING, 1, start, first.value.s.table).None?
  {
    hide RunDecl, RunProgram;
    PendingFirstPass(start);
    var t := S(1, [], 0, start, RunProgram(PENDING, S(0, [], 0, start, map[], true)).value.s.table, true);
    PendingSecondPass(t);
  }

  lemma PendingFirstPass(start: nat)
    ensures var r := RunProgram(PENDING, S(0, [], 0, start, map[], true));
            && r.Some? && !r.value.s.clean && r.value.s.stack == [] && r.value.s.temps == 0
            && Named("f") in r.value.s.table && r.value.s.table[Named("f")] == Entry(start, 0)
            && Named("c") in r.value.s.table && r.value.s.table[Named("c")] == Entry(UNDEFINED, CONSTANT)
  {
    hide RunProgram, RunBlock;
    var p := PENDING;
    var s := S(0, [], 0, start, map[], true);
    assert Named("c") != Named("f") by { assert "c"[0] != "f"[0]; }
    var a := s.(table := map[Named("f") := Entry(UNDEFINED, 0)]);
    var b := a.(table := a.table[Named("c") := Entry(UNDEFINED, CONSTANT)], clean := false);
    assert RunDecl(p.head, s) == Some(Out(a, []));
    assert RunDecl(p.tail.head, a) == Some(Out(b, []));
    EmptyFunction(b, "f");
    ThreeDecls(p, s, a, b, RunDecl(p.tail.tail.head, b).value);
  }

  lemma PendingSecondPass(t: S)
    requires t.stage == 1 && Named("f") in t.table && t.table[Named("f")].arity == 0 && t.table[Named("f")].loc >= 0
    requires Named("c") in t.table && t.table[Named("c")] == Entry(UNDEFINED, CONSTANT)
    ensures RunProgram(PENDING, t).None?
  {
    assert RunDecl(PENDING.head, t) == Some(Out(t, []));
    assert RunDecl(PENDING.tail.head, t).None?;
    assert RunProgram(PENDING.tail, t).None?;
  }

  lemma EmptyFunction(s: S, name: string)
    requires s.stage == 0 && s.stack == [] && s.temps == 0 && Named(name) in s.table
    requires s.table[Named(name)] == Entry(UNDEFINED, 0)
    ensures var r := RunDecl(Fun(name, 0, Nil), s);
            && r.Some? && r.value.s.stack == [] && r.value.s.temps == 0 && r.value.s.clean == s.clean
            && r.value.s.table == s.table[Named(name) := Entry(s.loc, 0)]
  {
    var s1 := Emit(Fix(s, name, s.loc, 0).value, [PushEbp, MovEbpEsp]);
    assert RunItems(Nil, s1) == Some(Out(s1, []));
  }

  lemma ThreeDecls(p: Program, s: S, a: S, b: S, c: Out)
    requires p.Decls? && p.tail.Decls? && p.tail.tail.Decls? && p.tail.tail.tail == End
    requires RunDecl(p.head, s) == Some(Out(a, [])) && RunDecl(p.tail.head, a) == Some(Out(b, []))
    requires RunDecl(p.tail.tail.head, b) == Some(c)
    ensures RunProgram(p, s).Some? && RunProgram(p, s).value.s == c.s
  {
    hide RunDecl;
    assert RunProgram(End, c.s) == Some(Out(c.s, []));
    assert RunProgram(p.tail.tail, b) == Some(Out(c.s, c.code + []));
    assert RunProgram(p.tail, a).value.s == c.s;
  }
}
