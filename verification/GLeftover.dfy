/** What becomes of values that a function leaves on the stack: the count of temporaries is not restored
    at the closing brace, and nothing that follows can bring it down again. */
module GLeftover {
  import opened Options
  import opened GSyntax
  import opened GCompile
  import opened GTwoPass

  /** More temporaries are counted than the stack has entries, and by how many. */
  function Excess(s: S): int {
    s.temps - |s.stack|
  }

  /** An excess never shrinks: a value is popped from the count and from the stack together, and a local,
      which is not counted, needs the count to be 0. */
  ghost predicate NoLess(s: S, s': S) {
    Excess(s) > 0 ==> Excess(s') >= Excess(s)
  }

  ghost predicate NoLessOut(s: S, r: Option<Out>) {
    r.Some? ==> NoLess(s, r.value.s)
  }

  lemma RefNoLess(name: string, addr: bool, s: S)
    ensures NoLessOut(s, RunRef(name, addr, s))
  {
    if Find(s.stack, name) == -1 && Named(name) in s.table {
      PopTempsFacts(NoteArity(s, s.table[Named(name)].arity), s.table[Named(name)].arity);
    }
  }

  lemma StringNoLess(bytes: seq<int>, strLab: nat, jmpLab: nat, s: S)
    ensures NoLessOut(s, RunString(bytes, strLab, jmpLab, s))
  {
    hide Define, LabelLoc;
    if RunString(bytes, strLab, jmpLab, s).Some? {
      var s1 := Emit(s, [Jmp(LabelLoc(s, jmpLab).value - (s.loc + 5))]);
      DefineFacts(s1, Label(strLab), s1.loc, VARIABLE);
      var s2 := Emit(Define(s1, Label(strLab), s1.loc, VARIABLE).value, DataBytes(bytes + [0]));
      DefineFacts(s2, Label(jmpLab), s2.loc, VARIABLE);
    }
  }

  lemma PushNoLess(p: Push, s: S)
    ensures NoLessOut(s, RunPush(p, s))
  {
    hide RunRef, RunString;
    match p
    case Num(_, _) =>
    case Ref(name, addr) => RefNoLess(name, addr, s.(clean := s.clean && name != TEMP));
    case Str(bytes, strLab, jmpLab) => StringNoLess(bytes, strLab, jmpLab, s);
  }

  lemma {:induction false} PushesNoLess(ps: Pushes, s: S)
    ensures NoLessOut(s, RunPushes(ps, s))
    decreases ps
  {
    hide RunPush;
    if ps.Then? {
      PushNoLess(ps.head, s);
      if RunPush(ps.head, s).Some? {
        PushesNoLess(ps.tail, RunPush(ps.head, s).value.s);
      }
    }
  }

  lemma GuardNoLess(guard: Pushes, target: nat, s: S)
    ensures NoLessOut(s, RunGuard(guard, target, s))
  {
    hide RunPushes, LabelLoc;
    PushesNoLess(guard, s);
  }

  lemma SimpleItemNoLess(item: Item, s: S)
    requires !item.If? && !item.While?
    ensures NoLessOut(s, RunItem(item, s))
  {
    hide RunPush;
    match item
    case Expr(p) => PushNoLess(p, s);
    case Semi => PopTempsFacts(s, s.temps);
    case Ret =>
    case Local(_) =>
    case Indirect(operand) =>
      if RunIndirect(operand, s).Some? {
        PopTempsFacts(PopTemp(NoteArity(NoteOperand(s, operand), Decode(s, operand).value)).value, Decode(s, operand).value);
      }
  }

  lemma {:induction false} ItemNoLess(item: Item, s: S)
    ensures NoLessOut(s, RunItem(item, s))
    decreases item, 1
  {
    hide RunGuard, RunBlock, RunElse;
    match item
    case If(guard, elseLab, thn, els) =>
      if RunItem(item, s).Some? {
        GuardNoLess(guard, elseLab, s);
        var g := RunGuard(guard, elseLab, s).value;
        BlockNoLess(thn, g.s);
        ElseNoLess(elseLab, els, RunBlock(thn, g.s).value.s);
      }
    case While(_, _, _, _) => WhileNoLess(item, s);
    case _ => SimpleItemNoLess(item, s);
  }

  lemma {:induction false} WhileNoLess(item: Item, s: S)
    requires item.While?
    ensures NoLessOut(s, RunItem(item, s))
    decreases item, 0
  {
    hide RunGuard, RunBlock, Define, LabelLoc;
    if RunItem(item, s).Some? {
      DefineFacts(s, Label(item.restartLab), s.loc, VARIABLE);
      var s1 := Define(s, Label(item.restartLab), s.loc, VARIABLE).value;
      GuardNoLess(item.guard, item.endLab, s1);
      var n := NoteLoop(s, RunGuard(item.guard, item.endLab, s1).value.s);
      BlockNoLess(item.body, n);
      var b := RunBlock(item.body, n).value;
      var s2 := Emit(b.s, [Jmp(LabelLoc(b.s, item.restartLab).value - (b.s.loc + 5))]);
      DefineFacts(s2, Label(item.endLab), s2.loc, VARIABLE);
    }
  }

  lemma {:induction false} ElseNoLess(elseLab: nat, els: Else, s: S)
    ensures NoLessOut(s, RunElse(elseLab, els, s))
    decreases els, 2
  {
    hide RunBlock, Define, LabelLoc;
    if RunElse(elseLab, els, s).Some? {
      match els
      case NoElse => DefineFacts(s, Label(elseLab), s.loc, VARIABLE);
      case ElseBlock(fiLab, block) =>
        var s1 := Emit(s, [Jmp(LabelLoc(s, fiLab).value - (s.loc + 5))]);
        DefineFacts(s1, Label(elseLab), s1.loc, VARIABLE);
        var s2 := Define(s1, Label(elseLab), s1.loc, VARIABLE).value;
        BlockNoLess(block, s2);
        var b := RunBlock(block, s2).value;
        DefineFacts(b.s, Label(fiLab), b.s.loc, VARIABLE);
    }
  }

  /** The closing brace takes entries off the stack and none off the count. */
  lemma {:induction false} BlockNoLess(b: Block, s: S)
    ensures NoLessOut(s, RunBlock(b, s))
    ensures RunBlock(b, s).Some? ==> |RunBlock(b, s).value.s.stack| == |s.stack|
    decreases b, 1
  {
    hide RunItems;
    ItemsNoLess(b, s);
  }

  lemma {:induction false} ItemsNoLess(b: Block, s: S)
    ensures NoLessOut(s, RunItems(b, s))
    decreases b, 0
  {
    hide RunItem;
    if b.Cons? {
      ItemNoLess(b.head, s);
      if RunItem(b.head, s).Some? {
        ItemsNoLess(b.tail, RunItem(b.head, s).value.s);
      }
    }
  }

  // ----- whole programs -----

  /** The pass that starts in s comes to a function whose block ends with more temporaries than it began
      with. */
  predicate Leaves(p: Program, s: S) {
    p.Decls? && RunDecl(p.head, s).Some? &&
    var s' := RunDecl(p.head, s).value.s;
    (p.head.Fun? && s'.temps > s.temps) || Leaves(p.tail, s')
  }

  /** Between two declarations the stack is empty; other declarations than functions leave the count. */
  lemma DeclTemps(d: Decl, s: S)
    requires s.stack == [] && RunDecl(d, s).Some?
    ensures RunDecl(d, s).value.s.stack == [] && (s.temps > 0 ==> RunDecl(d, s).value.s.temps >= s.temps)
    ensures !d.Fun? ==> RunDecl(d, s).value.s.temps == s.temps
  {
    hide RunBlock;
    match d
    case Fun(name, arity, body) => BlockNoLess(body, Emit(Fix(s, name, s.loc, arity).value, [PushEbp, MovEbpEsp]));
    case _ =>
  }

  lemma {:induction false} LeftoversAddUp(p: Program, s: S)
    requires s.stack == [] && RunProgram(p, s).Some?
    ensures RunProgram(p, s).value.s.stack == []
    ensures RunProgram(p, s).value.s.temps > 0 <==> s.temps > 0 || Leaves(p, s)
    decreases p
  {
    hide RunDecl;
    if p.Decls? {
      DeclTemps(p.head, s);
      LeftoversAddUp(p.tail, RunDecl(p.head, s).value.s);
    }
  }

  /** A function may not leave values on its stack at its end (README.md:580-582 says it may).  A program
      whose declarations all compile passes the checks behind the pass exactly if no function's block ends
      with more temporaries than it began with: not even a later function can take such a value away. */
  lemma RejectedIffLeftover(p: Program, stage: nat, start: nat, table: Table)
    requires RunProgram(p, S(stage, [], 0, start, table, true)).Some?
    ensures RunPass(p, stage, start, table).None? <==> Leaves(p, S(stage, [], 0, start, table, true))
  {
    LeftoversAddUp(p, S(stage, [], 0, start, table, true));
  }

  /** fun f 0 { value } */
  function Leftover(value: int): Program {
    Decls(Fun("f", 0, Cons(Expr(Num(value, false)), Nil)), End)
  }

  /** The smallest such program. */
  lemma LeftoverRejected(value: int, start: nat)
    ensures RunPass(Leftover(value), 0, start, map[]).None?
  {
    var s := S(0, [], 0, start, map[], true);
    var s1 := Emit(Fix(s, "f", start, 0).value, [PushEbp, MovEbpEsp]);
    var body := Cons(Expr(Num(value, false)), Nil);
    var o := RunPush(Num(value, false), s1).value;
    assert RunItem(body.head, s1) == Some(o);
    assert RunItems(Nil, o.s) == Some(Out(o.s, []));
    assert RunItems(body, s1) == Some(Out(o.s, o.code + []));
    assert RunBlock(body, s1).Some? && RunBlock(body, s1).value.s.temps == 1;
    assert RunProgram(End, RunDecl(Leftover(value).head, s).value.s).Some?;
  }
}
