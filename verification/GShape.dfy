/** The symbolic stack of the compiler, for programs that keep to the rules: the locals in scope, then
    one entry per temporary; and a block leaves it as it found it. */
module GShape {
  import opened Options
  import opened GSyntax
  import opened GCompile
  import opened GTwoPass

  function Temps(n: nat): seq<string> {
    seq(n, _ => TEMP)
  }

  /** The locals in scope. */
  function NamesOf(s: S): seq<string>
    requires s.temps <= |s.stack|
  {
    s.stack[..|s.stack| - s.temps]
  }

  ghost predicate WellShaped(s: S) {
    && s.temps <= |s.stack|
    && s.stack == NamesOf(s) + Temps(s.temps)
    && TEMP !in NamesOf(s)
  }

  /** s' has the locals of s, and maybe more. */
  ghost predicate Deepens(s: S, s': S) {
    WellShaped(s) && WellShaped(s') && NamesOf(s) <= NamesOf(s')
  }

  ghost predicate SameNames(s: S, s': S) {
    WellShaped(s) && WellShaped(s') && NamesOf(s) == NamesOf(s')
  }

  lemma ShapeIs(s: S, names: seq<string>)
    requires s.stack == names + Temps(s.temps) && TEMP !in names
    ensures WellShaped(s) && NamesOf(s) == names
  {
    assert s.stack[..|s.stack| - s.temps] == names;
  }

  /** Equally many temporaries on equally deep stacks over the same locals: the same stack. */
  lemma SameStack(s: S, s': S)
    requires Deepens(s, s') && s'.temps == s.temps && |s'.stack| == |s.stack|
    ensures s'.stack == s.stack
  {
    assert |NamesOf(s')| == |NamesOf(s)|;
  }

  lemma PopTempShape(s: S)
    requires WellShaped(s) && PopTemp(s).Some?
    ensures SameNames(s, PopTemp(s).value)
  {
    var s' := PopTemp(s).value;
    assert s'.stack == NamesOf(s) + Temps(s'.temps);
    ShapeIs(s', NamesOf(s));
  }

  lemma PopTempsShape(s: S, n: int)
    requires WellShaped(s) && PopTemps(s, n).Some?
    ensures SameNames(s, PopTemps(s, n).value)
  {
    PopTempsFacts(s, n);
    if n > 0 {
      var s' := PopTemps(s, n).value;
      assert s'.stack == NamesOf(s) + Temps(s'.temps);
      ShapeIs(s', NamesOf(s));
    }
  }

  lemma EmitPushShape(s: S, code: seq<Instr>)
    requires WellShaped(s) && EmitPush(s, code).Some?
    ensures SameNames(s, EmitPush(s, code).value.s)
  {
    var s' := EmitPush(s, code).value.s;
    assert Temps(s.temps) + [TEMP] == Temps(s.temps + 1);
    assert s'.stack == NamesOf(s) + Temps(s'.temps);
    ShapeIs(s', NamesOf(s));
  }

  lemma PushShape(p: Push, s: S)
    requires WellShaped(s) && RunPush(p, s).Some?
    ensures SameNames(s, RunPush(p, s).value.s)
  {
    match p
    case Num(value, _) => EmitPushShape(s, [PushImm(value)]);
    case Ref(name, addr) =>
      var t := s.(clean := s.clean && name != TEMP);
      assert NamesOf(t) == NamesOf(s);
      RefShape(name, addr, t);
    case Str(bytes, strLab, jmpLab) => StringShape(bytes, strLab, jmpLab, s);
  }

  lemma RefShape(name: string, addr: bool, s: S)
    requires WellShaped(s) && RunRef(name, addr, s).Some?
    ensures SameNames(s, RunRef(name, addr, s).value.s)
  {
    var pos := Find(s.stack, name);
    if pos != -1 {
      EmitPushShape(s, if addr then [LeaEax(4 * pos), PushEax] else [PushStack(4 * pos)]);
    } else {
      var e := s.table[Named(name)];
      if addr || e.arity == CONSTANT {
        EmitPushShape(s, [PushImm(e.loc)]);
      } else if e.arity == VARIABLE {
        EmitPushShape(s, [MovEax(e.loc), PushAtEax]);
      } else {
        var t := NoteArity(s, e.arity);
        assert NamesOf(t) == NamesOf(s);
        PopTempsShape(t, e.arity);
        EmitPushShape(PopTemps(t, e.arity).value, CallCode(s.loc, e));
      }
    }
  }

  lemma StringShape(bytes: seq<int>, strLab: nat, jmpLab: nat, s: S)
    requires WellShaped(s) && RunString(bytes, strLab, jmpLab, s).Some?
    ensures SameNames(s, RunString(bytes, strLab, jmpLab, s).value.s)
  {
    hide Define, LabelLoc;
    var s1 := Emit(s, [Jmp(LabelLoc(s, jmpLab).value - (s.loc + 5))]);
    DefineFacts(s1, Label(strLab), s1.loc, VARIABLE);
    var s2 := Define(s1, Label(strLab), s1.loc, VARIABLE).value;
    var s3 := Emit(s2, DataBytes(bytes + [0]));
    DefineFacts(s3, Label(jmpLab), s3.loc, VARIABLE);
    var s4 := Define(s3, Label(jmpLab), s3.loc, VARIABLE).value;
    assert s4.stack == s.stack && s4.temps == s.temps;
    assert NamesOf(s4) == NamesOf(s);
    EmitPushShape(s4, [PushImm(LabelLoc(s4, strLab).value)]);
  }

  lemma {:induction false} PushesShape(ps: Pushes, s: S)
    requires WellShaped(s) && RunPushes(ps, s).Some?
    ensures SameNames(s, RunPushes(ps, s).value.s)
    decreases ps
  {
    hide RunPush;
    if ps.Then? {
      PushShape(ps.head, s);
      PushesShape(ps.tail, RunPush(ps.head, s).value.s);
    }
  }

  lemma GuardShape(guard: Pushes, target: nat, s: S)
    requires WellShaped(s) && RunGuard(guard, target, s).Some?
    ensures SameNames(s, RunGuard(guard, target, s).value.s)
  {
    hide RunPushes;
    PushesShape(guard, s);
    PopTempShape(RunPushes(guard, s).value.s);
    assert NamesOf(RunGuard(guard, target, s).value.s) == NamesOf(PopTemp(RunPushes(guard, s).value.s).value);
  }

  lemma LocalShape(name: string, s: S)
    requires WellShaped(s) && PushLocal(s, name).Some? && PushLocal(s, name).value.clean
    ensures WellShaped(PushLocal(s, name).value) && NamesOf(PushLocal(s, name).value) == NamesOf(s) + [name]
  {
    var s' := PushLocal(s, name).value;
    assert s.stack == NamesOf(s);
    ShapeIs(s', NamesOf(s) + [name]) by { assert s'.stack == NamesOf(s) + [name] + Temps(0); }
  }

  lemma IndirectShape(operand: Operand, s: S)
    requires WellShaped(s) && RunIndirect(operand, s).Some?
    ensures SameNames(s, RunIndirect(operand, s).value.s)
  {
    var arity := Decode(s, operand).value;
    var t := NoteArity(NoteOperand(s, operand), arity);
    assert NamesOf(t) == NamesOf(s);
    PopTempShape(t);
    PopTempsShape(PopTemp(t).value, arity);
    EmitPushShape(PopTemps(PopTemp(t).value, arity).value, [PopEax, CallEax, AddEsp(4 * arity), PushEax]);
  }

  lemma SimpleItemShape(item: Item, s: S)
    requires !item.If? && !item.While?
    requires WellShaped(s) && RunItem(item, s).Some? && RunItem(item, s).value.s.clean
    ensures Deepens(s, RunItem(item, s).value.s)
  {
    hide RunPush, RunIndirect;
    match item
    case Expr(p) => PushShape(p, s);
    case Semi => PopTempsShape(s, s.temps);
      assert NamesOf(RunItem(item, s).value.s) == NamesOf(PopTemps(s, s.temps).value);
    case Ret =>
      if s.temps > 0 {
        PopTempShape(s);
        assert NamesOf(RunItem(item, s).value.s) == NamesOf(PopTemp(s).value);
      } else {
        assert NamesOf(RunItem(item, s).value.s) == NamesOf(s);
      }
    case Local(name) =>
      LocalShape(name, s);
      assert NamesOf(RunItem(item, s).value.s) == NamesOf(PushLocal(s, name).value);
    case Indirect(operand) => IndirectShape(operand, s);
  }

  lemma {:induction false} ItemShape(item: Item, s: S)
    requires WellShaped(s) && RunItem(item, s).Some? && RunItem(item, s).value.s.clean
    ensures Deepens(s, RunItem(item, s).value.s)
    decreases item, 3
  {
    match item
    case If(guard, elseLab, thn, els) =>
      hide RunGuard, RunBlock, RunElse;
      GuardShape(guard, elseLab, s);
      var g := RunGuard(guard, elseLab, s).value;
      var t := RunBlock(thn, g.s).value;
      ElseFacts(elseLab, els, t.s);
      BlockShape(thn, g.s);
      assert NamesOf(t.s) == NamesOf(g.s);
      ElseShape(elseLab, els, t.s);
    case While(_, _, _, _) => WhileShape(item, s);
    case _ => SimpleItemShape(item, s);
  }

  lemma {:induction false} ElseShape(elseLab: nat, els: Else, s: S)
    requires WellShaped(s) && RunElse(elseLab, els, s).Some? && RunElse(elseLab, els, s).value.s.clean
    ensures RunElse(elseLab, els, s).value.s.stack == s.stack && RunElse(elseLab, els, s).value.s.temps == s.temps
    ensures SameNames(s, RunElse(elseLab, els, s).value.s)
    decreases els, 2
  {
    hide RunBlock, Define, LabelLoc;
    match els
    case NoElse =>
      DefineFacts(s, Label(elseLab), s.loc, VARIABLE);
      assert NamesOf(RunElse(elseLab, els, s).value.s) == NamesOf(s);
    case ElseBlock(fiLab, block) =>
      var s1 := Emit(s, [Jmp(LabelLoc(s, fiLab).value - (s.loc + 5))]);
      DefineFacts(s1, Label(elseLab), s1.loc, VARIABLE);
      var s2 := Define(s1, Label(elseLab), s1.loc, VARIABLE).value;
      var b := RunBlock(block, s2).value;
      DefineFacts(b.s, Label(fiLab), b.s.loc, VARIABLE);
      assert NamesOf(s2) == NamesOf(s);
      BlockShape(block, s2);
      assert NamesOf(RunElse(elseLab, els, s).value.s) == NamesOf(s);
  }

  lemma {:induction false} WhileShape(item: Item, s: S)
    requires item.While? && WellShaped(s) && RunItem(item, s).Some? && RunItem(item, s).value.s.clean
    ensures RunItem(item, s).value.s.stack == s.stack && RunItem(item, s).value.s.temps == s.temps
    ensures Deepens(s, RunItem(item, s).value.s)
    decreases item, 2
  {
    hide RunGuard, RunBlock, Define, LabelLoc;
    var While(restartLab, endLab, guard, body) := item;
    DefineFacts(s, Label(restartLab), s.loc, VARIABLE);
    var s1 := Define(s, Label(restartLab), s.loc, VARIABLE).value;
    assert NamesOf(s1) == NamesOf(s);
    GuardShape(guard, endLab, s1);
    var g := RunGuard(guard, endLab, s1).value;
    var n := NoteLoop(s, g.s);
    assert NamesOf(n) == NamesOf(g.s);
    var b := RunBlock(body, n).value;
    BlockFacts(body, n);
    var s2 := Emit(b.s, [Jmp(LabelLoc(b.s, restartLab).value - (b.s.loc + 5))]);
    DefineFacts(s2, Label(endLab), s2.loc, VARIABLE);
    BlockShape(body, n);
    SameStack(s, n);
    assert NamesOf(RunItem(item, s).value.s) == NamesOf(s);
  }

  /** A block gives the stack back as it was. */
  lemma {:induction false} BlockShape(b: Block, s: S)
    requires WellShaped(s) && RunBlock(b, s).Some? && RunBlock(b, s).value.s.clean
    ensures RunBlock(b, s).value.s.stack == s.stack && RunBlock(b, s).value.s.temps == s.temps
    ensures SameNames(s, RunBlock(b, s).value.s)
    decreases b, 5
  {
    hide RunItems;
    var o := RunItems(b, s).value;
    ItemsShape(b, s);
    if s.temps == 0 {
      assert o.s.stack[..|s.stack|] == NamesOf(o.s)[..|s.stack|] == NamesOf(s) == s.stack;
    } else {
      SameStack(s, o.s);
    }
    assert NamesOf(RunBlock(b, s).value.s) == NamesOf(s);
  }

  lemma {:induction false} ItemsShape(b: Block, s: S)
    requires WellShaped(s) && RunItems(b, s).Some? && RunItems(b, s).value.s.clean
    ensures Deepens(s, RunItems(b, s).value.s)
    decreases b, 4
  {
    hide RunItem;
    if b.Cons? {
      var o := RunItem(b.head, s).value;
      ItemsFacts(b.tail, o.s);
      ItemShape(b.head, s);
      ItemsShape(b.tail, o.s);
    }
  }

  /** In the second pass a loop's labels are where its code begins and ends. */
  lemma WhileParts(item: Item, s: S)
    requires item.While? && s.stage == 1 && RunItem(item, s).Some? && RunItem(item, s).value.s.clean
    ensures RunGuard(item.guard, item.endLab, s).Some?
    ensures var g := RunGuard(item.guard, item.endLab, s).value;
            var n := NoteLoop(s, g.s);
            var o := RunItem(item, s).value;
            && RunBlock(item.body, n).Some?
            && var b := RunBlock(item.body, n).value;
            && Label(item.restartLab) in s.table && s.table[Label(item.restartLab)].loc == s.loc
            && b.s.clean && n.clean && g.s.clean
            && o.code == g.code + b.code + [Jmp(s.loc - (b.s.loc + 5))]
            && o.s == b.s.(loc := b.s.loc + 5) && b.s.stage == 1 && b.s.table == s.table && n.stage == 1 && n.table == s.table
            && Label(item.endLab) in s.table && s.table[Label(item.endLab)].loc == o.s.loc
  {
    hide RunGuard, RunBlock;
    var g := RunGuard(item.guard, item.endLab, s).value;
    GuardFacts(item.guard, item.endLab, s);
    BlockFacts(item.body, NoteLoop(s, g.s));
    SizesOne(Jmp(s.loc - (RunBlock(item.body, NoteLoop(s, g.s)).value.s.loc + 5)));
  }

  /** The stack at the start of a loop, after its guard and after its body is one and the same. */
  lemma LoopStack(item: Item, s: S, names: seq<string>)
    requires item.While? && s.stage == 1 && RunItem(item, s).Some? && RunItem(item, s).value.s.clean
    requires s.stack == names + Temps(s.temps) && TEMP !in names
    ensures var n := NoteLoop(s, RunGuard(item.guard, item.endLab, s).value.s);
            var b := RunBlock(item.body, n).value;
            && n.stack == s.stack && n.temps == s.temps && b.s.stack == s.stack && b.s.temps == s.temps
            && RunItem(item, s).value.s.stack == s.stack && RunItem(item, s).value.s.temps == s.temps
  {
    hide RunGuard, RunBlock, RunItem;
    WhileParts(item, s);
    ShapeIs(s, names);
    WhileShape(item, s);
    GuardShape(item.guard, item.endLab, s);
    var n := NoteLoop(s, RunGuard(item.guard, item.endLab, s).value.s);
    assert NamesOf(n) == NamesOf(RunGuard(item.guard, item.endLab, s).value.s);
    SameStack(s, n);
  }
}
