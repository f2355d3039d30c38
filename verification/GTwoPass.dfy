/** What every construct of a pass does, whichever pass it is: the table only grows, and the code is as long
    as the location moves. */
module GTwoPass {
  import opened Options
  import opened GSyntax
  import opened GCompile

  /** Tables only grow, and an entry changes only when a pending function gets its location. */
  ghost predicate Grows(a: Table, b: Table) {
    forall k :: k in a ==> k in b && b[k].arity == a[k].arity && (b[k].loc == a[k].loc || Pending(a[k]))
  }

  ghost predicate Extends(s: S, s': S) {
    && s'.stage == s.stage && Grows(s.table, s'.table)
    && (s'.clean ==> s.clean) && (s.stage != 0 ==> s'.table == s.table)
  }

  ghost predicate Facts(s: S, r: Option<Out>) {
    r.Some? ==> Extends(s, r.value.s) && r.value.s.loc == s.loc + Sizes(r.value.code)
  }

  lemma GrowsTrans(a: Table, b: Table, c: Table)
    requires Grows(a, b) && Grows(b, c)
    ensures Grows(a, c)
  {
  }

  lemma DefineFacts(s: S, sym: Sym, loc: int, arity: int)
    ensures var r := Define(s, sym, loc, arity);
            r.Some? ==> Extends(s, r.value) && r.value == s.(table := r.value.table)
                        && sym in r.value.table && r.value.table[sym] == Entry(loc, arity)
  {
  }

  lemma {:induction false} PopTempsFacts(s: S, n: int)
    ensures var r := PopTemps(s, n);
            r.Some? <==> n <= 0 || (n <= s.temps && n <= |s.stack|)
    ensures var r := PopTemps(s, n);
            r.Some? ==> r.value == if n <= 0 then s else s.(stack := s.stack[..|s.stack| - n], temps := s.temps - n)
    decreases if n < 0 then 0 else n
  {
    if n > 0 && PopTemp(s).Some? {
      PopTempsFacts(PopTemp(s).value, n - 1);
    }
  }

  lemma CallCodeSize(loc: int, e: Entry)
    ensures Sizes(CallCode(loc, e)) == 12
  {
    SizesThree(Call(e.loc - (loc + 5)), AddEsp(4 * e.arity), PushEax);
  }

  lemma RefFacts(name: string, addr: bool, s: S)
    ensures Facts(s, RunRef(name, addr, s))
  {
    if Find(s.stack, name) == -1 && Named(name) in s.table {
      PopTempsFacts(NoteArity(s, s.table[Named(name)].arity), s.table[Named(name)].arity);
    }
  }

  lemma StringFacts(bytes: seq<int>, strLab: nat, jmpLab: nat, s: S)
    ensures Facts(s, RunString(bytes, strLab, jmpLab, s))
  {
    hide Define, LabelLoc;
    if RunString(bytes, strLab, jmpLab, s).Some? {
      var jump := [Jmp(LabelLoc(s, jmpLab).value - (s.loc + 5))];
      var s1 := Emit(s, jump);
      DefineFacts(s1, Label(strLab), s1.loc, VARIABLE);
      var s2 := Define(s1, Label(strLab), s1.loc, VARIABLE).value;
      var data := DataBytes(bytes + [0]);
      var s3 := Emit(s2, data);
      DefineFacts(s3, Label(jmpLab), s3.loc, VARIABLE);
      var s4 := Define(s3, Label(jmpLab), s3.loc, VARIABLE).value;
      SizesConcat3(jump, data, EmitPush(s4, [PushImm(LabelLoc(s4, strLab).value)]).value.code);
    }
  }

  lemma PushFacts(p: Push, s: S)
    ensures Facts(s, RunPush(p, s))
  {
    match p
    case Num(_, _) =>
    case Ref(name, addr) => RefFacts(name, addr, s.(clean := s.clean && name != TEMP));
    case Str(bytes, strLab, jmpLab) => StringFacts(bytes, strLab, jmpLab, s);
  }

  lemma {:induction false} PushesFacts(ps: Pushes, s: S)
    ensures Facts(s, RunPushes(ps, s))
    decreases ps
  {
    hide RunPush;
    if ps.Then? {
      PushFacts(ps.head, s);
      if RunPush(ps.head, s).Some? {
        var o := RunPush(ps.head, s).value;
        PushesFacts(ps.tail, o.s);
        if RunPushes(ps.tail, o.s).Some? {
          SizesConcat(o.code, RunPushes(ps.tail, o.s).value.code);
        }
      }
    }
  }

  lemma GuardFacts(guard: Pushes, target: nat, s: S)
    ensures Facts(s, RunGuard(guard, target, s))
  {
    hide RunPushes;
    PushesFacts(guard, s);
    if RunGuard(guard, target, s).Some? {
      var o := RunPushes(guard, s).value;
      var s' := PopTemp(o.s).value;
      SizesConcat(o.code, [PopEax, CmpEax0, Je(LabelLoc(s', target).value - (s'.loc + 10))]);
    }
  }

  lemma SimpleItemFacts(item: Item, s: S)
    requires !item.If? && !item.While?
    ensures Facts(s, RunItem(item, s))
  {
    hide RunPush;
    match item
    case Expr(p) => PushFacts(p, s);
    case Semi => PopTempsFacts(s, s.temps);
    case Ret =>
    case Local(_) =>
    case Indirect(operand) =>
      if RunIndirect(operand, s).Some? {
        PopTempsFacts(PopTemp(NoteArity(NoteOperand(s, operand), Decode(s, operand).value)).value, Decode(s, operand).value);
      }
  }

  lemma {:induction false} ItemFacts(item: Item, s: S)
    ensures Facts(s, RunItem(item, s))
    decreases item, 0
  {
    hide RunGuard, RunPush;
    match item
    case If(guard, elseLab, thn, els) =>
      if RunItem(item, s).Some? {
        GuardFacts(guard, elseLab, s);
        var g := RunGuard(guard, elseLab, s).value;
        BlockFacts(thn, g.s);
        var t := RunBlock(thn, g.s).value;
        ElseFacts(elseLab, els, t.s);
        SizesConcat3(g.code, t.code, RunElse(elseLab, els, t.s).value.code);
      }
    case While(_, _, _, _) => WhileFacts(item, s);
    case _ => SimpleItemFacts(item, s);
  }

  lemma {:induction false} WhileFacts(item: Item, s: S)
    requires item.While?
    ensures Facts(s, RunItem(item, s))
    decreases item.body, 2
  {
    hide RunGuard, RunBlock, Define, LabelLoc;
    if RunItem(item, s).Some? {
      DefineFacts(s, Label(item.restartLab), s.loc, VARIABLE);
      var s1 := Define(s, Label(item.restartLab), s.loc, VARIABLE).value;
      GuardFacts(item.guard, item.endLab, s1);
      var g := RunGuard(item.guard, item.endLab, s1).value;
      BlockFacts(item.body, NoteLoop(s, g.s));
      var b := RunBlock(item.body, NoteLoop(s, g.s)).value;
      var jump := [Jmp(LabelLoc(b.s, item.restartLab).value - (b.s.loc + 5))];
      var s2 := Emit(b.s, jump);
      DefineFacts(s2, Label(item.endLab), s2.loc, VARIABLE);
      SizesConcat3(g.code, b.code, jump);
    }
  }

  lemma {:induction false} ElseFacts(elseLab: nat, els: Else, s: S)
    ensures Facts(s, RunElse(elseLab, els, s))
    decreases els, 2
  {
    hide RunBlock, Define, LabelLoc;
    if RunElse(elseLab, els, s).Some? {
      match els
      case NoElse => DefineFacts(s, Label(elseLab), s.loc, VARIABLE);
      case ElseBlock(fiLab, block) =>
        var jump := [Jmp(LabelLoc(s, fiLab).value - (s.loc + 5))];
        var s1 := Emit(s, jump);
        DefineFacts(s1, Label(elseLab), s1.loc, VARIABLE);
        var s2 := Define(s1, Label(elseLab), s1.loc, VARIABLE).value;
        BlockFacts(block, s2);
        var b := RunBlock(block, s2).value;
        DefineFacts(b.s, Label(fiLab), b.s.loc, VARIABLE);
        SizesConcat(jump, b.code);
    }
  }

  lemma {:induction false} BlockFacts(b: Block, s: S)
    ensures Facts(s, RunBlock(b, s))
    decreases b, 1
  {
    hide RunItems;
    ItemsFacts(b, s);
    if RunBlock(b, s).Some? {
      var o := RunItems(b, s).value;
      SizesConcat(o.code, [AddEsp(4 * (|o.s.stack| - |s.stack|))]);
    }
  }

  lemma {:induction false} ItemsFacts(b: Block, s: S)
    ensures Facts(s, RunItems(b, s))
    decreases b, 0
  {
    hide RunItem;
    if b.Cons? && RunItems(b, s).Some? {
      ItemFacts(b.head, s);
      var o := RunItem(b.head, s).value;
      ItemsFacts(b.tail, o.s);
      SizesConcat(o.code, RunItems(b.tail, o.s).value.code);
    }
  }

  lemma {:induction false} ZerosSize(n: int)
    ensures Sizes(Zeros(n)) == if n < 0 then 0 else n
    decreases if n < 0 then 0 else n
  {
    if n > 0 {
      assert Zeros(n)[1..] == Zeros(n - 1);
      ZerosSize(n - 1);
    }
  }

  lemma FixFacts(s: S, name: string, loc: int, arity: nat)
    ensures var r := Fix(s, name, loc, arity);
            r.Some? ==> Extends(s, r.value) && r.value == s.(table := r.value.table)
  {
    var r := Fix(s, name, loc, arity);
    if r.Some? && s.stage != 0 {
      assert r.value.table == s.table;
    }
  }

  lemma FunFacts(name: string, arity: nat, body: Block, s: S)
    ensures Facts(s, RunDecl(Fun(name, arity, body), s))
  {
    hide RunBlock, Fix, Grows, Sizes;
    if RunDecl(Fun(name, arity, body), s).Some? {
      var s1 := Fix(s, name, s.loc, arity).value;
      FixFacts(s, name, s.loc, arity);
      BlockFacts(body, Emit(s1, [PushEbp, MovEbpEsp]));
      var b := RunBlock(body, Emit(s1, [PushEbp, MovEbpEsp])).value;
      GrowsTrans(s.table, s1.table, b.s.table);
      SizesConcat3([PushEbp, MovEbpEsp], b.code, [PopEbp, Return]);
    }
  }

  /** The declarations that only define a symbol, and the bytes of a variable. */
  lemma DataDeclFacts(d: Decl, s: S)
    requires !d.Fun?
    ensures Facts(s, RunDecl(d, s))
  {
    hide Define;
    match d
    case Ifun(_, _) =>
    case Const(name, operand) =>
      if Decode(s, operand).Some? {
        DefineFacts(NoteOperand(s, operand), Named(name), Decode(s, operand).value, CONSTANT);
      }
    case Global(name) => DefineFacts(s, Named(name), s.loc, VARIABLE);
    case Array(name, _) => DefineFacts(s, Named(name), s.loc, CONSTANT);
  }

  lemma DeclFacts(d: Decl, s: S)
    ensures Facts(s, RunDecl(d, s))
  {
    hide RunDecl;
    match d
    case Fun(name, arity, body) => FunFacts(name, arity, body, s);
    case _ => DataDeclFacts(d, s);
  }

  lemma {:induction false} ProgramFacts(p: Program, s: S)
    ensures Facts(s, RunProgram(p, s))
    decreases p
  {
    hide RunDecl;
    if p.Decls? && RunProgram(p, s).Some? {
      DeclFacts(p.head, s);
      var o := RunDecl(p.head, s).value;
      ProgramFacts(p.tail, o.s);
      SizesConcat(o.code, RunProgram(p.tail, o.s).value.code);
    }
  }
}
