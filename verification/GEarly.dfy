/** Locations that a program takes too early: from a function that is declared and not yet defined.  What
    that means is said of the text of a program; what the pass does in such a place follows from it. */
module GEarly {
  import opened Options
  import opened GSyntax
  import opened GCompile
  import opened GTwoPass

  // ----- the text -----

  /** Some function of that name is defined in p. */
  predicate FunIn(p: Program, f: string) {
    p.Decls? && ((p.head.Fun? && p.head.name == f) || FunIn(p.tail, f))
  }

  /** The functions that are declared, not yet defined, and defined in the rest of the program. */
  function Early(declared: set<string>, defined: set<string>, rest: Program): set<string> {
    set f | f in declared && f !in defined && FunIn(rest, f)
  }

  predicate Names(operand: Operand, fs: set<string>) {
    operand.SymbolOf? && operand.name in fs
  }

  /** No call through a value takes its arity from a function of fs. */
  predicate ItemClear(item: Item, fs: set<string>)
    decreases item, 0
  {
    match item
    case Indirect(operand) => !Names(operand, fs)
    case If(_, _, thn, els) => BlockClear(thn, fs) && ElseClear(els, fs)
    case While(_, _, _, body) => BlockClear(body, fs)
    case _ => true
  }

  predicate ElseClear(els: Else, fs: set<string>)
    decreases els, 0
  {
    els.ElseBlock? ==> BlockClear(els.block, fs)
  }

  predicate BlockClear(b: Block, fs: set<string>)
    decreases b, 0
  {
    b.Cons? ==> ItemClear(b.head, fs) && BlockClear(b.tail, fs)
  }

  function DeclaredBy(d: Decl, declared: set<string>): set<string> {
    if d.Ifun? then declared + {d.name} else declared
  }

  function DefinedBy(d: Decl, defined: set<string>): set<string> {
    if d.Fun? then defined + {d.name} else defined
  }

  /** The declaration, followed by rest, takes a location too early: a constant from an early function, the
      arity of a call from one, or the length of an array from one that does not lie at location 0. */
  predicate DeclReadsEarly(d: Decl, rest: Program, declared: set<string>, defined: set<string>, locs: Table) {
    match d
    case Fun(name, _, body) => !BlockClear(body, Early(declared, defined + {name}, rest))
    case Const(_, operand) => Names(operand, Early(declared, defined, rest))
    case Array(_, operand) =>
      Names(operand, Early(declared, defined, rest)) && Named(operand.name) in locs && locs[Named(operand.name)].loc > 0
    case _ => false
  }

  /** Some declaration of p does.  `locs` has the locations that the first pass gives. */
  predicate ReadsEarly(p: Program, declared: set<string>, defined: set<string>, locs: Table) {
    p.Decls? && (DeclReadsEarly(p.head, p.tail, declared, defined, locs)
                 || ReadsEarly(p.tail, DeclaredBy(p.head, declared), DefinedBy(p.head, defined), locs))
  }

  // ----- the table that a program starts with -----

  function DeclaredIn(table: Table): set<string> {
    set sym | sym in table && sym.Named? && Pending(table[sym]) :: sym.name
  }

  function DefinedIn(table: Table): set<string> {
    set sym | sym in table && sym.Named? && !Pending(table[sym]) :: sym.name
  }

  /** The sets are those of the table. */
  ghost predicate Tracks(table: Table, declared: set<string>, defined: set<string>) {
    forall f: string :: TracksName(table, declared, defined, f)
  }

  predicate TracksName(table: Table, declared: set<string>, defined: set<string>, f: string) {
    && ((f in declared && f !in defined) <==> (Named(f) in table && Pending(table[Named(f)])))
    && (f in defined ==> Named(f) in table)
    && (Named(f) in table && table[Named(f)].arity >= 0 && !Pending(table[Named(f)]) ==> f in defined)
  }

  lemma StartTracks(table: Table)
    ensures Tracks(table, DeclaredIn(table), DefinedIn(table))
  {
    forall f: string ensures TracksName(table, DeclaredIn(table), DefinedIn(table), f) {
      if Named(f) in table {
        assert Named(f).name == f;
      }
    }
  }

  // ----- inside a function: names stay, and what is pushed has been emitted -----

  ghost predicate NamesKept(a: Table, b: Table) {
    forall n: string :: Named(n) in b ==> Named(n) in a && b[Named(n)] == a[Named(n)]
  }

  ghost predicate Inner(s: S, r: Option<Out>) {
    r.Some? ==> NamesKept(s.table, r.value.s.table) && |r.value.s.stack| - |s.stack| <= r.value.s.loc - s.loc
  }

  lemma SizesPositive(code: seq<Instr>)
    requires code != []
    ensures Sizes(code) >= 1
  {
  }

  lemma EmitPushInner(s: S, code: seq<Instr>)
    requires code != []
    ensures Inner(s, EmitPush(s, code))
  {
    SizesPositive(code);
  }

  lemma DefineInner(s: S, id: nat, loc: int)
    ensures var r := Define(s, Label(id), loc, VARIABLE); r.Some? ==> NamesKept(s.table, r.value.table)
  {
  }

  lemma RefInner(name: string, addr: bool, s: S)
    ensures Inner(s, RunRef(name, addr, s))
  {
    hide Sizes;
    var pos := Find(s.stack, name);
    if pos != -1 {
      EmitPushInner(s, if addr then [LeaEax(4 * pos), PushEax] else [PushStack(4 * pos)]);
    } else if Named(name) in s.table {
      var e := s.table[Named(name)];
      PopTempsFacts(NoteArity(s, e.arity), e.arity);
      EmitPushInner(s, [PushImm(e.loc)]);
      EmitPushInner(s, [MovEax(e.loc), PushAtEax]);
      if PopTemps(NoteArity(s, e.arity), e.arity).Some? {
        EmitPushInner(PopTemps(NoteArity(s, e.arity), e.arity).value, CallCode(s.loc, e));
      }
    }
  }

  lemma StringInner(bytes: seq<int>, strLab: nat, jmpLab: nat, s: S)
    ensures Inner(s, RunString(bytes, strLab, jmpLab, s))
  {
    hide Define, LabelLoc, Sizes, Grows;
    if RunString(bytes, strLab, jmpLab, s).Some? {
      var s1 := Emit(s, [Jmp(LabelLoc(s, jmpLab).value - (s.loc + 5))]);
      DefineFacts(s1, Label(strLab), s1.loc, VARIABLE);
      DefineInner(s1, strLab, s1.loc);
      var s2 := Emit(Define(s1, Label(strLab), s1.loc, VARIABLE).value, DataBytes(bytes + [0]));
      DefineFacts(s2, Label(jmpLab), s2.loc, VARIABLE);
      DefineInner(s2, jmpLab, s2.loc);
      var s3 := Define(s2, Label(jmpLab), s2.loc, VARIABLE).value;
      EmitPushInner(s3, [PushImm(LabelLoc(s3, strLab).value)]);
    }
  }

  lemma PushInner(p: Push, s: S)
    ensures Inner(s, RunPush(p, s))
  {
    hide RunRef, RunString;
    match p
    case Num(value, _) => EmitPushInner(s, [PushImm(value)]);
    case Ref(name, addr) => RefInner(name, addr, s.(clean := s.clean && name != TEMP));
    case Str(bytes, strLab, jmpLab) => StringInner(bytes, strLab, jmpLab, s);
  }

  lemma {:induction false} PushesInner(ps: Pushes, s: S)
    ensures Inner(s, RunPushes(ps, s))
    decreases ps
  {
    hide RunPush;
    if ps.Then? {
      PushInner(ps.head, s);
      if RunPush(ps.head, s).Some? {
        PushesInner(ps.tail, RunPush(ps.head, s).value.s);
      }
    }
  }

  lemma GuardInner(guard: Pushes, target: nat, s: S)
    ensures Inner(s, RunGuard(guard, target, s))
  {
    hide RunPushes, LabelLoc;
    PushesInner(guard, s);
  }

  lemma SimpleItemInner(item: Item, s: S)
    requires !item.If? && !item.While?
    ensures Inner(s, RunItem(item, s))
  {
    hide RunPush, Sizes;
    match item
    case Expr(p) => PushInner(p, s);
    case Semi => PopTempsFacts(s, s.temps);
    case Ret =>
    case Local(_) => SizesPositive([SubEsp4]);
    case Indirect(operand) =>
      if RunIndirect(operand, s).Some? {
        var arity := Decode(s, operand).value;
        var s1 := PopTemp(NoteArity(NoteOperand(s, operand), arity)).value;
        PopTempsFacts(s1, arity);
        EmitPushInner(PopTemps(s1, arity).value, [PopEax, CallEax, AddEsp(4 * arity), PushEax]);
      }
  }

  lemma {:induction false} ItemInner(item: Item, s: S)
    ensures Inner(s, RunItem(item, s))
    decreases item, 1
  {
    hide RunGuard, RunBlock, RunElse;
    match item
    case If(guard, elseLab, thn, els) =>
      if RunItem(item, s).Some? {
        GuardInner(guard, elseLab, s);
        var g := RunGuard(guard, elseLab, s).value;
        BlockInner(thn, g.s);
        ElseInner(elseLab, els, RunBlock(thn, g.s).value.s);
      }
    case While(_, _, _, _) => WhileInner(item, s);
    case _ => SimpleItemInner(item, s);
  }

  lemma {:induction false} WhileInner(item: Item, s: S)
    requires item.While?
    ensures Inner(s, RunItem(item, s))
    decreases item, 0
  {
    hide RunGuard, RunBlock, Define, LabelLoc, Sizes, Grows;
    if RunItem(item, s).Some? {
      DefineFacts(s, Label(item.restartLab), s.loc, VARIABLE);
      DefineInner(s, item.restartLab, s.loc);
      var s1 := Define(s, Label(item.restartLab), s.loc, VARIABLE).value;
      GuardInner(item.guard, item.endLab, s1);
      var n := NoteLoop(s, RunGuard(item.guard, item.endLab, s1).value.s);
      BlockInner(item.body, n);
      var b := RunBlock(item.body, n).value;
      var s2 := Emit(b.s, [Jmp(LabelLoc(b.s, item.restartLab).value - (b.s.loc + 5))]);
      DefineFacts(s2, Label(item.endLab), s2.loc, VARIABLE);
      DefineInner(s2, item.endLab, s2.loc);
    }
  }

  lemma {:induction false} ElseInner(elseLab: nat, els: Else, s: S)
    ensures Inner(s, RunElse(elseLab, els, s))
    decreases els, 2
  {
    hide RunBlock, Define, LabelLoc, Sizes, Grows;
    if RunElse(elseLab, els, s).Some? {
      match els
      case NoElse =>
        DefineFacts(s, Label(elseLab), s.loc, VARIABLE);
        DefineInner(s, elseLab, s.loc);
      case ElseBlock(fiLab, block) =>
        var s1 := Emit(s, [Jmp(LabelLoc(s, fiLab).value - (s.loc + 5))]);
        DefineFacts(s1, Label(elseLab), s1.loc, VARIABLE);
        DefineInner(s1, elseLab, s1.loc);
        var s2 := Define(s1, Label(elseLab), s1.loc, VARIABLE).value;
        BlockInner(block, s2);
        var b := RunBlock(block, s2).value;
        DefineFacts(b.s, Label(fiLab), b.s.loc, VARIABLE);
        DefineInner(b.s, fiLab, b.s.loc);
    }
  }

  lemma {:induction false} BlockInner(b: Block, s: S)
    ensures Inner(s, RunBlock(b, s))
    ensures RunBlock(b, s).Some? ==> |RunBlock(b, s).value.s.stack| == |s.stack|
    decreases b, 1
  {
    hide RunItems;
    ItemsInner(b, s);
    BlockFacts(b, s);
  }

  lemma {:induction false} ItemsInner(b: Block, s: S)
    ensures Inner(s, RunItems(b, s))
    decreases b, 0
  {
    hide RunItem;
    if b.Cons? {
      ItemInner(b.head, s);
      if RunItem(b.head, s).Some? {
        ItemsInner(b.tail, RunItem(b.head, s).value.s);
      }
    }
  }

  // ----- what becomes of a pending function -----

  lemma PendingKept(a: Table, b: Table, f: string)
    requires Grows(a, b) && NamesKept(a, b) && Named(f) in a
    ensures Named(f) in b && b[Named(f)] == a[Named(f)]
  {
  }

  /** Only its own definition changes the entry of a declared function. */
  lemma DeclOther(d: Decl, s: S, f: string)
    requires s.stage == 0 && RunDecl(d, s).Some? && !(d.Fun? && d.name == f) && Named(f) in s.table
    ensures Named(f) in RunDecl(d, s).value.s.table && RunDecl(d, s).value.s.table[Named(f)] == s.table[Named(f)]
  {
    hide RunBlock;
    match d
    case Fun(name, arity, body) =>
      var s1 := Emit(Fix(s, name, s.loc, arity).value, [PushEbp, MovEbpEsp]);
      assert s1.table[Named(f)] == s.table[Named(f)];
      BlockFacts(body, s1);
      BlockInner(body, s1);
      PendingKept(s1.table, RunBlock(body, s1).value.s.table, f);
    case _ =>
  }

  lemma FunDefines(d: Decl, s: S)
    requires d.Fun? && s.stage == 0 && RunDecl(d, s).Some?
    ensures Named(d.name) in RunDecl(d, s).value.s.table && RunDecl(d, s).value.s.table[Named(d.name)] == Entry(s.loc, d.arity)
  {
    hide RunBlock;
    var s1 := Emit(Fix(s, d.name, s.loc, d.arity).value, [PushEbp, MovEbpEsp]);
    BlockFacts(d.body, s1);
  }

  /** A pending function gets a location if and only if it is defined in what follows, and then one that lies
      there. */
  lemma {:induction false} PendingLater(p: Program, s: S, f: string)
    requires s.stage == 0 && RunProgram(p, s).Some? && Named(f) in s.table && Pending(s.table[Named(f)])
    ensures var t := RunProgram(p, s).value.s.table;
            Named(f) in t && if FunIn(p, f) then t[Named(f)].loc >= s.loc else t[Named(f)] == s.table[Named(f)]
    decreases p
  {
    hide RunDecl;
    if p.Decls? {
      var o := RunDecl(p.head, s).value;
      DeclFacts(p.head, s);
      ProgramFacts(p.tail, o.s);
      if p.head.Fun? && p.head.name == f {
        FunDefines(p.head, s);
      } else {
        DeclOther(p.head, s, f);
        PendingLater(p.tail, o.s, f);
      }
    }
  }

  /** The sets follow the table. */
  lemma DeclTracks(d: Decl, s: S, declared: set<string>, defined: set<string>)
    requires s.stage == 0 && RunDecl(d, s).Some? && Tracks(s.table, declared, defined)
    ensures Tracks(RunDecl(d, s).value.s.table, DeclaredBy(d, declared), DefinedBy(d, defined))
  {
    hide Tracks, RunDecl;
    var t := RunDecl(d, s).value.s.table;
    forall f: string ensures TracksName(t, DeclaredBy(d, declared), DefinedBy(d, defined), f) {
      TracksOne(s.table, declared, defined, f);
      NameTracked(d, s, declared, defined, f);
    }
    TracksAll(t, DeclaredBy(d, declared), DefinedBy(d, defined));
  }

  lemma TracksOne(table: Table, declared: set<string>, defined: set<string>, f: string)
    requires Tracks(table, declared, defined)
    ensures TracksName(table, declared, defined, f)
  {
  }

  lemma TracksAll(table: Table, declared: set<string>, defined: set<string>)
    requires forall f: string :: TracksName(table, declared, defined, f)
    ensures Tracks(table, declared, defined)
  {
  }

  lemma NameTracked(d: Decl, s: S, declared: set<string>, defined: set<string>, f: string)
    requires s.stage == 0 && RunDecl(d, s).Some? && TracksName(s.table, declared, defined, f)
    ensures TracksName(RunDecl(d, s).value.s.table, DeclaredBy(d, declared), DefinedBy(d, defined), f)
  {
    hide RunBlock;
    match d
    case Fun(name, arity, body) =>
      if name == f {
        FunDefines(d, s);
      } else {
        FunKeeps(d, s, f);
      }
    case _ =>
  }

  lemma FunKeeps(d: Decl, s: S, f: string)
    requires d.Fun? && d.name != f && s.stage == 0 && RunDecl(d, s).Some?
    ensures var t := RunDecl(d, s).value.s.table;
            (Named(f) in t <==> Named(f) in s.table) && (Named(f) in t ==> t[Named(f)] == s.table[Named(f)])
  {
    hide RunBlock;
    var s1 := Emit(Fix(s, d.name, s.loc, d.arity).value, [PushEbp, MovEbpEsp]);
    BlockInner(d.body, s1);
    if Named(f) in s.table {
      DeclOther(d, s, f);
    }
  }

  // ----- a pass that keeps to the rules takes nothing early -----

  /** The functions of fs are pending. */
  ghost predicate AllPending(table: Table, fs: set<string>) {
    forall f :: f in fs ==> Named(f) in table && Pending(table[Named(f)])
  }

  lemma StillPending(s: S, s': S, fs: set<string>)
    requires AllPending(s.table, fs) && Grows(s.table, s'.table) && NamesKept(s.table, s'.table)
    ensures AllPending(s'.table, fs)
  {
    forall f | f in fs ensures Named(f) in s'.table && Pending(s'.table[Named(f)]) {
      PendingKept(s.table, s'.table, f);
    }
  }

  lemma {:induction false} CleanItem(item: Item, s: S, fs: set<string>)
    requires RunItem(item, s).Some? && RunItem(item, s).value.s.clean && AllPending(s.table, fs)
    ensures ItemClear(item, fs)
    decreases item, 1
  {
    hide RunGuard, RunBlock, RunElse, AllPending, Grows, NamesKept, BlockClear, ElseClear, Names;
    match item
    case Indirect(operand) => CleanIndirect(operand, s, fs);
    case If(guard, elseLab, thn, els) =>
      var g := RunGuard(guard, elseLab, s).value;
      var t := RunBlock(thn, g.s).value;
      GuardFacts(guard, elseLab, s);
      GuardInner(guard, elseLab, s);
      BlockFacts(thn, g.s);
      BlockInner(thn, g.s);
      ElseFacts(elseLab, els, t.s);
      StillPending(s, g.s, fs);
      StillPending(g.s, t.s, fs);
      CleanBlock(thn, g.s, fs);
      CleanElse(elseLab, els, t.s, fs);
    case While(_, _, _, _) => CleanWhile(item, s, fs);
    case _ =>
  }

  lemma CleanIndirect(operand: Operand, s: S, fs: set<string>)
    requires RunIndirect(operand, s).Some? && RunIndirect(operand, s).value.s.clean && AllPending(s.table, fs)
    ensures !Names(operand, fs)
  {
    PopTempsFacts(PopTemp(NoteArity(NoteOperand(s, operand), Decode(s, operand).value)).value, Decode(s, operand).value);
  }

  lemma {:induction false} CleanWhile(item: Item, s: S, fs: set<string>)
    requires item.While? && RunItem(item, s).Some? && RunItem(item, s).value.s.clean && AllPending(s.table, fs)
    ensures ItemClear(item, fs)
    decreases item, 0
  {
    hide RunGuard, RunBlock, AllPending, Grows, NamesKept, BlockClear, Define, LabelLoc;
    DefineFacts(s, Label(item.restartLab), s.loc, VARIABLE);
    DefineInner(s, item.restartLab, s.loc);
    var s1 := Define(s, Label(item.restartLab), s.loc, VARIABLE).value;
    var g := RunGuard(item.guard, item.endLab, s1).value;
    GuardFacts(item.guard, item.endLab, s1);
    GuardInner(item.guard, item.endLab, s1);
    var n := NoteLoop(s, g.s);
    BlockFacts(item.body, n);
    var b := RunBlock(item.body, n).value;
    var s2 := Emit(b.s, [Jmp(LabelLoc(b.s, item.restartLab).value - (b.s.loc + 5))]);
    DefineFacts(s2, Label(item.endLab), s2.loc, VARIABLE);
    StillPending(s, s1, fs);
    StillPending(s1, n, fs);
    CleanBlock(item.body, n, fs);
  }

  lemma {:induction false} CleanElse(elseLab: nat, els: Else, s: S, fs: set<string>)
    requires RunElse(elseLab, els, s).Some? && RunElse(elseLab, els, s).value.s.clean && AllPending(s.table, fs)
    ensures ElseClear(els, fs)
    decreases els, 2
  {
    hide RunBlock, AllPending, Grows, NamesKept, BlockClear, Define, LabelLoc;
    if els.ElseBlock? {
      var s1 := Emit(s, [Jmp(LabelLoc(s, els.fiLab).value - (s.loc + 5))]);
      DefineFacts(s1, Label(elseLab), s1.loc, VARIABLE);
      DefineInner(s1, elseLab, s1.loc);
      var s2 := Define(s1, Label(elseLab), s1.loc, VARIABLE).value;
      var b := RunBlock(els.block, s2).value;
      DefineFacts(b.s, Label(els.fiLab), b.s.loc, VARIABLE);
      StillPending(s1, s2, fs);
      CleanBlock(els.block, s2, fs);
    }
  }

  lemma {:induction false} CleanBlock(b: Block, s: S, fs: set<string>)
    requires RunBlock(b, s).Some? && RunBlock(b, s).value.s.clean && AllPending(s.table, fs)
    ensures BlockClear(b, fs)
    decreases b, 1
  {
    hide RunItems, AllPending, BlockClear;
    CleanItems(b, s, fs);
  }

  lemma {:induction false} CleanItems(b: Block, s: S, fs: set<string>)
    requires RunItems(b, s).Some? && RunItems(b, s).value.s.clean && AllPending(s.table, fs)
    ensures BlockClear(b, fs)
    decreases b, 0
  {
    hide RunItem, AllPending, Grows, NamesKept, ItemClear;
    if b.Cons? {
      var o := RunItem(b.head, s).value;
      ItemFacts(b.head, s);
      ItemInner(b.head, s);
      ItemsFacts(b.tail, o.s);
      StillPending(s, o.s, fs);
      CleanItem(b.head, s, fs);
      CleanItems(b.tail, o.s, fs);
    }
  }

  lemma CleanDecl(d: Decl, rest: Program, s: S, declared: set<string>, defined: set<string>, locs: Table)
    requires s.stage == 0 && RunDecl(d, s).Some? && RunDecl(d, s).value.s.clean && Tracks(s.table, declared, defined)
    ensures !DeclReadsEarly(d, rest, declared, defined, locs)
  {
    hide RunBlock, BlockClear;
    match d
    case Fun(name, arity, body) =>
      var s1 := Emit(Fix(s, name, s.loc, arity).value, [PushEbp, MovEbpEsp]);
      var fs := Early(declared, defined + {name}, rest);
      forall f | f in fs ensures Named(f) in s1.table && Pending(s1.table[Named(f)]) {
        TracksOne(s.table, declared, defined, f);
      }
      CleanBlock(body, s1, fs);
    case Const(_, operand) =>
      if operand.SymbolOf? {
        TracksOne(s.table, declared, defined, operand.name);
      }
    case Array(name, operand) =>
      if operand.SymbolOf? {
        TracksOne(s.table, declared, defined, operand.name);
      }
    case _ =>
  }

  lemma {:induction false} CleanReadsNothingEarly(p: Program, s: S, declared: set<string>, defined: set<string>, locs: Table)
    requires s.stage == 0 && RunProgram(p, s).Some? && RunProgram(p, s).value.s.clean && Tracks(s.table, declared, defined)
    ensures !ReadsEarly(p, declared, defined, locs)
    decreases p
  {
    hide RunDecl, Tracks, DeclReadsEarly;
    if p.Decls? {
      var o := RunDecl(p.head, s).value;
      DeclFacts(p.head, s);
      ProgramFacts(p.tail, o.s);
      DeclTracks(p.head, s, declared, defined);
      CleanDecl(p.head, p.tail, s, declared, defined, locs);
      CleanReadsNothingEarly(p.tail, o.s, DeclaredBy(p.head, declared), DefinedBy(p.head, defined), locs);
    }
  }
}
