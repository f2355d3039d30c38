/** What the first pass of the G compiler accepts (attic/gstaging.c): for each piece of a program, exactly
    which of the assertions it can fail. */
module GAccept {
  import opened Options
  import opened GSyntax
  import opened GCompile

  /** Room for one more variable after n have gone. */
  predicate RoomAfter(s: S, n: int) {
    |s.stack| - n < 1024
  }

  /** So many temporaries can be popped; none for a negative number. */
  predicate CanPop(s: S, n: int) {
    n <= s.temps && n <= |s.stack|
  }

  function Taken(n: int): nat {
    if n < 0 then 0 else n
  }

  lemma {:induction false} PopsIff(s: S, n: int)
    ensures PopTemps(s, n).Some? <==> n <= 0 || CanPop(s, n)
    ensures PopTemps(s, n).Some? ==>
              PopTemps(s, n).value == s.(stack := s.stack[..|s.stack| - Taken(n)], temps := s.temps - Taken(n))
    decreases Taken(n)
  {
    if n <= 0 {
      assert s.stack[..|s.stack|] == s.stack;
    } else if s.temps > 0 && |s.stack| > 0 {
      var s' := PopTemp(s).value;
      PopsIff(s', n - 1);
      assert CanPop(s, n) <==> n - 1 <= 0 || CanPop(s', n - 1);
    }
  }

  lemma {:induction false} FoundIff(stack: seq<string>, name: string)
    ensures Find(stack, name) != -1 <==> name in stack
    decreases |stack|
  {
    if stack != [] {
      FoundIff(stack[..|stack| - 1], name);
      assert stack == stack[..|stack| - 1] + [stack[|stack| - 1]];
    }
  }

  // ----- expressions -----

  /** The address of a number or of a constant is refused, and so are names that are not known, calls
      without their arguments, and more variables than there is room for. */
  predicate PushAllowed(p: Push, s: S) {
    match p
    case Num(_, addr) => !addr && RoomAfter(s, 0)
    case Ref(name, addr) =>
      if name in s.stack then RoomAfter(s, 0)
      else if Named(name) !in s.table then false
      else
        var a := s.table[Named(name)].arity;
        if a == -2 then !addr && RoomAfter(s, 0)
        else if a == -1 || addr then RoomAfter(s, 0)
        else CanPop(s, Taken(a)) && RoomAfter(s, Taken(a))
    case Str(_, strLab, jmpLab) =>
      && RoomAfter(s, 0) && strLab != jmpLab && Label(strLab) !in s.table && Label(jmpLab) !in s.table && |s.table| + 2 <= 1024
  }

  /** How the number of temporaries changes. */
  function PushEffect(p: Push, s: S): int {
    if p.Ref? && p.name !in s.stack && Named(p.name) in s.table && s.table[Named(p.name)].arity >= 0 && !p.addr
    then 1 - s.table[Named(p.name)].arity else 1
  }

  lemma RefAccepted(p: Push, s: S)
    requires p.Ref?
    ensures RunPush(p, s).Some? <==> PushAllowed(p, s)
    ensures RunPush(p, s).Some? ==> RunPush(p, s).value.s.temps == s.temps + PushEffect(p, s)
  {
    FoundIff(s.stack, p.name);
    if p.name !in s.stack && Named(p.name) in s.table {
      var e := s.table[Named(p.name)];
      PopsIff(NoteArity(s.(clean := s.clean && p.name != TEMP), e.arity), e.arity);
    }
  }

  lemma StringAccepted(p: Push, s: S)
    requires p.Str? && s.stage == 0
    ensures RunPush(p, s).Some? <==> PushAllowed(p, s)
    ensures RunPush(p, s).Some? ==> RunPush(p, s).value.s.temps == s.temps + 1
  {
    hide Sizes, DataBytes;
    var t := s.table[Label(p.strLab) := Entry(0, VARIABLE)];
    assert Label(p.strLab) !in s.table ==> |t| == |s.table| + 1;
  }

  /** An expression is accepted exactly if it is allowed, and leaves as many temporaries as said. */
  lemma PushAccepted(p: Push, s: S)
    requires s.stage == 0
    ensures RunPush(p, s).Some? <==> PushAllowed(p, s)
    ensures RunPush(p, s).Some? ==> RunPush(p, s).value.s.temps == s.temps + PushEffect(p, s)
  {
    hide RunString, RunRef, PopTemps, Find;
    match p
    case Num(_, _) =>
    case Ref(_, _) => RefAccepted(p, s);
    case Str(_, _, _) => StringAccepted(p, s);
  }

  /** A guard or a row of expressions: each is allowed where those before it leave the stack. */
  predicate PushesAllowed(ps: Pushes, s: S) {
    match ps
    case NoPush => true
    case Then(p, rest) => PushAllowed(p, s) && (RunPush(p, s).Some? ==> PushesAllowed(rest, RunPush(p, s).value.s))
  }

  lemma {:induction false} PushesAccepted(ps: Pushes, s: S)
    requires s.stage == 0
    ensures RunPushes(ps, s).Some? <==> PushesAllowed(ps, s)
    ensures RunPushes(ps, s).Some? ==> RunPushes(ps, s).value.s.stage == 0
    decreases ps
  {
    hide RunPush, PushAllowed;
    if ps.Then? {
      PushAccepted(ps.head, s);
      PushStage(ps.head, s);
      if RunPush(ps.head, s).Some? {
        PushesAccepted(ps.tail, RunPush(ps.head, s).value.s);
      }
    }
  }

  lemma PushStage(p: Push, s: S)
    ensures RunPush(p, s).Some? ==> RunPush(p, s).value.s.stage == s.stage
  {
    hide PopTemps, Find, Sizes, DataBytes;
    if p.Ref? && Named(p.name) in s.table {
      var e := s.table[Named(p.name)];
      PopsIff(NoteArity(s.(clean := s.clean && p.name != TEMP), e.arity), e.arity);
    }
  }

  // ----- statements -----

  predicate Known(operand: Operand, s: S) {
    operand.SymbolOf? ==> Named(operand.name) in s.table
  }

  /** A label is new, and the table has a row left for it. */
  predicate LabelFits(l: nat, s: S) {
    Label(l) !in s.table && |s.table| < 1024
  }

  /** The guard of an `if` or a `while` leaves a value to decide by. */
  predicate GuardAllowed(guard: Pushes, s: S) {
    PushesAllowed(guard, s) && (RunPushes(guard, s).Some? ==> CanPop(RunPushes(guard, s).value.s, 1))
  }

  /** Each part of a statement is allowed in the state that the parts before it leave. */
  predicate ItemAllowed(item: Item, s: S)
    decreases item, 0
  {
    match item
    case Expr(p) => PushAllowed(p, s)
    case Semi => s.temps == 0 || CanPop(s, s.temps)
    case Ret => s.temps == 0 || CanPop(s, 1)
    case Local(name) => 0 < |name| < 128 && s.temps == 0 && RoomAfter(s, 0)
    case Indirect(operand) =>
      var n := Taken(Arity(operand, s));
      Known(operand, s) && CanPop(s, 1 + n) && RoomAfter(s, 1 + n)
    case If(guard, elseLab, thn, els) =>
      && GuardAllowed(guard, s)
      && var g := RunGuard(guard, elseLab, s);
         g.Some? ==>
           BlockAllowed(thn, g.value.s) && (RunBlock(thn, g.value.s).Some? ==> ElseAllowed(elseLab, els, RunBlock(thn, g.value.s).value.s))
    case While(restartLab, endLab, guard, body) =>
      && LabelFits(restartLab, s)
      && var s1 := Define(s, Label(restartLab), s.loc, VARIABLE);
         s1.Some? ==>
           GuardAllowed(guard, s1.value)
           && var g := RunGuard(guard, endLab, s1.value);
              g.Some? ==>
                var s2 := NoteLoop(s, g.value.s);
                BlockAllowed(body, s2) && (RunBlock(body, s2).Some? ==> LabelFits(endLab, RunBlock(body, s2).value.s))
  }

  predicate ElseAllowed(elseLab: nat, els: Else, s: S)
    decreases els, 2
  {
    && LabelFits(elseLab, s)
    && match els
       case NoElse => true
       case ElseBlock(fiLab, block) =>
         var s1 := Define(Emit(s, [Jmp(0 - (s.loc + 5))]), Label(elseLab), s.loc + 5, VARIABLE);
         s1.Some? ==> BlockAllowed(block, s1.value) && (RunBlock(block, s1.value).Some? ==> LabelFits(fiLab, RunBlock(block, s1.value).value.s))
  }

  /** A block does not end with a stack less deep than it began. */
  predicate BlockAllowed(b: Block, s: S)
    decreases b, 1
  {
    ItemsAllowed(b, s) && (RunItems(b, s).Some? ==> |RunItems(b, s).value.s.stack| >= |s.stack|)
  }

  predicate ItemsAllowed(b: Block, s: S)
    decreases b, 0
  {
    match b
    case Nil => true
    case Cons(item, rest) => ItemAllowed(item, s) && (RunItem(item, s).Some? ==> ItemsAllowed(rest, RunItem(item, s).value.s))
  }

  /** What a number or a symbol stands for. */
  function Arity(operand: Operand, s: S): int {
    match operand
    case Literal(v) => v
    case SymbolOf(name) => if Named(name) in s.table then s.table[Named(name)].loc else 0
  }

  /** A statement is accepted exactly if it is allowed. */
  lemma {:induction false} ItemAccepted(item: Item, s: S)
    requires s.stage == 0
    ensures RunItem(item, s).Some? <==> ItemAllowed(item, s)
    ensures RunItem(item, s).Some? ==> RunItem(item, s).value.s.stage == 0
    decreases item, 1
  {
    hide RunPush, PushAllowed, PopTemps, RunItem, ItemAllowed;
    match item
    case Expr(_) => SimpleAccepted(item, s);
    case Semi => SimpleAccepted(item, s);
    case Ret => SimpleAccepted(item, s);
    case Local(_) => SimpleAccepted(item, s);
    case Indirect(operand) => IndirectAccepted(operand, s);
    case If(_, _, _, _) => IfAccepted(item, s);
    case While(_, _, _, _) => WhileAccepted(item, s);
  }

  lemma SimpleAccepted(item: Item, s: S)
    requires s.stage == 0 && (item.Expr? || item.Semi? || item.Ret? || item.Local?)
    ensures RunItem(item, s).Some? <==> ItemAllowed(item, s)
    ensures RunItem(item, s).Some? ==> RunItem(item, s).value.s.stage == 0
  {
    hide RunPush, PushAllowed, PopTemps;
    match item
    case Expr(p) =>
      PushAccepted(p, s);
      PushStage(p, s);
    case Semi => PopsIff(s, s.temps);
    case Ret =>
    case Local(_) =>
  }

  lemma GuardAccepted(guard: Pushes, target: nat, s: S)
    requires s.stage == 0
    ensures RunGuard(guard, target, s).Some? <==> GuardAllowed(guard, s)
    ensures RunGuard(guard, target, s).Some? ==> RunGuard(guard, target, s).value.s.stage == 0
  {
    hide RunPushes, PushesAllowed;
    PushesAccepted(guard, s);
  }

  lemma LabelAccepted(l: nat, s: S, at: int)
    requires s.stage == 0
    ensures Define(s, Label(l), at, VARIABLE).Some? <==> LabelFits(l, s)
    ensures Define(s, Label(l), at, VARIABLE).Some? ==> Define(s, Label(l), at, VARIABLE).value.stage == 0
  {
  }

  lemma {:induction false} IfAccepted(item: Item, s: S)
    requires s.stage == 0 && item.If?
    ensures RunItem(item, s).Some? <==> ItemAllowed(item, s)
    ensures RunItem(item, s).Some? ==> RunItem(item, s).value.s.stage == 0
    decreases item, 0
  {
    hide RunGuard, GuardAllowed, RunBlock, BlockAllowed, RunElse, ElseAllowed;
    GuardAccepted(item.guard, item.elseLab, s);
    var g := RunGuard(item.guard, item.elseLab, s);
    if g.Some? {
      BlockAccepted(item.thn, g.value.s);
      var t := RunBlock(item.thn, g.value.s);
      if t.Some? {
        ElseAccepted(item.elseLab, item.els, t.value.s);
      }
    }
  }

  lemma {:induction false} ElseAccepted(elseLab: nat, els: Else, s: S)
    requires s.stage == 0
    ensures RunElse(elseLab, els, s).Some? <==> ElseAllowed(elseLab, els, s)
    ensures RunElse(elseLab, els, s).Some? ==> RunElse(elseLab, els, s).value.s.stage == 0
    decreases els, 2
  {
    hide RunBlock, BlockAllowed, Define, LabelFits;
    LabelAccepted(elseLab, s, s.loc);
    if els.ElseBlock? {
      var jump := [Jmp(0 - (s.loc + 5))];
      SizesOne(jump[0]);
      var s1 := Emit(s, jump);
      LabelAccepted(elseLab, s1, s1.loc);
      SameTable(elseLab, s, s1);
      var s2 := Define(s1, Label(elseLab), s1.loc, VARIABLE);
      if s2.Some? {
        BlockAccepted(els.block, s2.value);
        var b := RunBlock(els.block, s2.value);
        if b.Some? {
          LabelAccepted(els.fiLab, b.value.s, b.value.s.loc);
        }
      }
    }
  }

  lemma SameTable(l: nat, a: S, b: S)
    requires a.table == b.table
    ensures LabelFits(l, a) == LabelFits(l, b)
  {
  }

  lemma {:induction false} WhileAccepted(item: Item, s: S)
    requires s.stage == 0 && item.While?
    ensures RunItem(item, s).Some? <==> ItemAllowed(item, s)
    ensures RunItem(item, s).Some? ==> RunItem(item, s).value.s.stage == 0
    decreases item, 0
  {
    hide RunGuard, GuardAllowed, RunBlock, BlockAllowed, Define, LabelFits, Sizes;
    LabelAccepted(item.restartLab, s, s.loc);
    var s1 := Define(s, Label(item.restartLab), s.loc, VARIABLE);
    if s1.Some? {
      GuardAccepted(item.guard, item.endLab, s1.value);
      var g := RunGuard(item.guard, item.endLab, s1.value);
      if g.Some? {
        var s2 := NoteLoop(s, g.value.s);
        BlockAccepted(item.body, s2);
        var b := RunBlock(item.body, s2);
        if b.Some? {
          var s3 := Emit(b.value.s, [Jmp(0 - (b.value.s.loc + 5))]);
          LabelAccepted(item.endLab, s3, s3.loc);
          SameTable(item.endLab, b.value.s, s3);
        }
      }
    }
  }

  lemma {:induction false} BlockAccepted(b: Block, s: S)
    requires s.stage == 0
    ensures RunBlock(b, s).Some? <==> BlockAllowed(b, s)
    ensures RunBlock(b, s).Some? ==> RunBlock(b, s).value.s.stage == 0
    decreases b, 1
  {
    hide RunItems, ItemsAllowed;
    ItemsAccepted(b, s);
  }

  lemma {:induction false} ItemsAccepted(b: Block, s: S)
    requires s.stage == 0
    ensures RunItems(b, s).Some? <==> ItemsAllowed(b, s)
    ensures RunItems(b, s).Some? ==> RunItems(b, s).value.s.stage == 0
    decreases b, 0
  {
    hide RunItem, ItemAllowed;
    if b.Cons? {
      ItemAccepted(b.head, s);
      if RunItem(b.head, s).Some? {
        ItemsAccepted(b.tail, RunItem(b.head, s).value.s);
      }
    }
  }

  lemma IndirectAccepted(operand: Operand, s: S)
    ensures RunItem(Indirect(operand), s).Some? <==> ItemAllowed(Indirect(operand), s)
    ensures RunItem(Indirect(operand), s).Some? ==> RunItem(Indirect(operand), s).value.s.stage == s.stage
  {
    hide PopTemps;
    if Known(operand, s) {
      var n := Arity(operand, s);
      var s' := NoteArity(NoteOperand(s, operand), n);
      if PopTemp(s').Some? {
        PopsIff(PopTemp(s').value, n);
      }
    }
  }

  // ----- declarations -----

  /** The name is new and short enough, and the table has a row left for it. */
  predicate Fresh(name: string, s: S) {
    Named(name) !in s.table && 0 < |name| < 128 && |s.table| < 1024
  }

  /** `ifun` may come again with the same number of arguments, and a function may have been declared with as
      many, and not been defined; everything else is new.  What a definition refers to comes before it - but
      the length of an array may be the array itself. */
  predicate DeclAllowed(d: Decl, s: S) {
    match d
    case Ifun(name, arity) => if Named(name) in s.table then s.table[Named(name)].arity == arity else Fresh(name, s)
    case Const(name, operand) => Known(operand, s) && Fresh(name, s)
    case Global(name) => Fresh(name, s)
    case Array(name, operand) => Fresh(name, s) && (Known(operand, s) || operand == SymbolOf(name))
    case Fun(name, arity, body) =>
      && (if Named(name) in s.table
          then s.table[Named(name)].arity == arity && (s.table[Named(name)].loc == -1 || s.table[Named(name)].loc == s.loc)
          else Fresh(name, s))
      && (Fix(s, name, s.loc, arity).Some? ==> BlockAllowed(body, Emit(Fix(s, name, s.loc, arity).value, [PushEbp, MovEbpEsp])))
  }

  lemma DeclAccepted(d: Decl, s: S)
    requires s.stage == 0
    ensures RunDecl(d, s).Some? <==> DeclAllowed(d, s)
    ensures RunDecl(d, s).Some? ==> RunDecl(d, s).value.s.stage == 0
  {
    hide Sizes, Zeros, RunBlock, BlockAllowed;
    if d.Fun? && Fix(s, d.name, s.loc, d.arity).Some? {
      BlockAccepted(d.body, Emit(Fix(s, d.name, s.loc, d.arity).value, [PushEbp, MovEbpEsp]));
    }
  }

  predicate ProgramAllowed(p: Program, s: S) {
    match p
    case End => true
    case Decls(d, rest) => DeclAllowed(d, s) && (RunDecl(d, s).Some? ==> ProgramAllowed(rest, RunDecl(d, s).value.s))
  }

  lemma {:induction false} ProgramAccepted(p: Program, s: S)
    requires s.stage == 0
    ensures RunProgram(p, s).Some? <==> ProgramAllowed(p, s)
    decreases p
  {
    hide RunDecl, DeclAllowed;
    if p.Decls? {
      DeclAccepted(p.head, s);
      if RunDecl(p.head, s).Some? {
        ProgramAccepted(p.tail, RunDecl(p.head, s).value.s);
      }
    }
  }

  /** Main result: the first pass fails exactly where something in the program is not allowed in the state that
      what stands before it has left, or where variables are left at the end. */
  lemma PassAccepted(p: Program, start: nat, table: Table)
    ensures var s := S(0, [], 0, start, table, true);
            RunPass(p, 0, start, table).Some?
            <==> ProgramAllowed(p, s)
                 && (RunProgram(p, s).Some? ==> RunProgram(p, s).value.s.stack == [] && RunProgram(p, s).value.s.temps == 0)
  {
    hide RunProgram, ProgramAllowed;
    ProgramAccepted(p, S(0, [], 0, start, table, true));
  }
}
