/** Whole programs: each function that the two passes compile does what it means. */
module GProgram {
  import opened Options
  import opened GSyntax
  import opened GCompile
  import opened GTwoPass
  import opened GEarly
  import opened GAgree
  import opened GShape
  import opened GMachine
  import opened GSemantics
  import opened GFrame
  import opened GCorrect
  import opened GData
  import opened GLayout

  /** The functions of a program by the addresses that the table gives to their names. */
  function FunsOf(p: Program, table: Table): map<int, FunDef> {
    match p
    case End => map[]
    case Decls(Fun(name, arity, body), rest) =>
      if Named(name) in table then FunsOf(rest, table)[table[Named(name)].loc := FunDef(arity, body)] else FunsOf(rest, table)
    case Decls(_, rest) => FunsOf(rest, table)
  }

  predicate Defines(p: Program, name: string, arity: nat, body: Block) {
    p.Decls? && (p.head == Fun(name, arity, body) || Defines(p.tail, name, arity, body))
  }

  /** Where the second pass stands between two declarations. */
  ghost predicate Between(s: S, table: Table) {
    s.stage == 1 && s.stack == [] && s.temps == 0 && s.table == table && s.clean
  }

  lemma FunctionCompiled(w: World, d: Decl, s: S)
    requires d.Fun? && Between(s, w.table) && RunDecl(d, s).Some? && RunDecl(d, s).value.s.clean
    ensures Named(d.name) in w.table && w.table[Named(d.name)].loc == s.loc
    ensures RunBlock(d.body, FunStart(w, s.loc)).Some? && RunBlock(d.body, FunStart(w, s.loc)).value.s.clean
    ensures RunDecl(d, s).value.code == [PushEbp, MovEbpEsp] + RunBlock(d.body, FunStart(w, s.loc)).value.code + [PopEbp, Return]
    ensures Between(RunDecl(d, s).value.s, w.table) && RunDecl(d, s).value.s.loc > s.loc
  {
    hide RunBlock;
    var s1 := Fix(s, d.name, s.loc, d.arity).value;
    assert s1.table == s.table by { assert s.table[Named(d.name) := s.table[Named(d.name)]] == s.table; }
    SizesTwo(PushEbp, MovEbpEsp);
    var start := FunStart(w, s.loc);
    assert Emit(s1, [PushEbp, MovEbpEsp]) == start;
    BlockFacts(d.body, start);
    assert start.stack == [] + Temps(0);
    ShapeIs(start, []);
    BlockShape(d.body, start);
  }

  lemma DeclBetween(d: Decl, s: S, table: Table)
    requires !d.Fun? && Between(s, table) && RunDecl(d, s).Some? && RunDecl(d, s).value.s.clean
    ensures Between(RunDecl(d, s).value.s, table)
  {
    DeclFacts(d, s);
  }

  /** Every function of the program is in memory, as its body compiles. */
  lemma {:induction false} ProgramLoaded(w: World, img: Image, p: Program, s: S)
    requires Between(s, w.table) && RunProgram(p, s).Some? && RunProgram(p, s).value.s.clean
    requires CodeAt(img, s.loc, RunProgram(p, s).value.code)
    ensures forall a :: a in FunsOf(p, w.table) ==> a >= s.loc && BodyLoaded(w, img, a, FunsOf(p, w.table)[a].body)
    decreases p
  {
    hide RunDecl, BodyLoaded, CodeAt;
    if p.Decls? {
      var o := RunDecl(p.head, s).value;
      ProgramFacts(p.tail, o.s);
      DeclFacts(p.head, s);
      CodeAtSplit(img, s.loc, o.code, RunProgram(p.tail, o.s).value.code);
      if p.head.Fun? {
        FunctionCompiled(w, p.head, s);
        HeadLoaded(w, img, s.loc, p.head.body, o.code);
      } else {
        DeclBetween(p.head, s, w.table);
      }
      ProgramLoaded(w, img, p.tail, o.s);
    }
  }

  lemma HeadLoaded(w: World, img: Image, addr: nat, body: Block, code: seq<Instr>)
    requires RunBlock(body, FunStart(w, addr)).Some? && RunBlock(body, FunStart(w, addr)).value.s.clean
    requires CodeAt(img, addr, code) && code == [PushEbp, MovEbpEsp] + RunBlock(body, FunStart(w, addr)).value.code + [PopEbp, Return]
    ensures BodyLoaded(w, img, addr, body)
  {
  }

  /** Each function is found at the address of its name: no two share one. */
  lemma {:induction false} FunctionFound(p: Program, w: World, s: S, name: string, arity: nat, body: Block)
    requires Between(s, w.table) && RunProgram(p, s).Some? && RunProgram(p, s).value.s.clean && Defines(p, name, arity, body)
    ensures Named(name) in w.table && w.table[Named(name)].loc >= s.loc
    ensures w.table[Named(name)].loc in FunsOf(p, w.table) && FunsOf(p, w.table)[w.table[Named(name)].loc] == FunDef(arity, body)
    decreases p
  {
    hide RunDecl;
    var o := RunDecl(p.head, s).value;
    ProgramFacts(p.tail, o.s);
    DeclFacts(p.head, s);
    if p.head.Fun? {
      FunctionCompiled(w, p.head, s);
    } else {
      DeclBetween(p.head, s, w.table);
    }
    if p.head != Fun(name, arity, body) {
      FunctionFound(p.tail, w, o.s, name, arity, body);
    }
  }

  // ----- calling a compiled function from anywhere -----

  /** A call has just been made with these arguments: the return address is on top, the last argument
      below it, and the program has no memory in that part of the stack. */
  ghost predicate Entry0(w: World, args: seq<Val>, st: Store, m: M) {
    && w.limit <= m.esp - 4 && m.esp + 4 + 4 * |args| <= w.top
    && Agree(st, m.mem) && NoKeys(st, w.limit, m.esp + 4 + 4 * |args|)
    && (forall i :: 0 <= i < |args| ==> Refines(args[i], Load(m.mem, m.esp + 4 + 4 * (|args| - 1 - i))))
  }

  /** The call made at m has returned v: stack and frame pointers are the caller's again, and of the
      caller's stack only the program's own variables may have changed. */
  ghost predicate CameBack(w: World, st: Store, m: M, v: Val, st': Store, m': M) {
    && m'.pc == Load(m.mem, m.esp) && m'.esp == m.esp + 4 && m'.ebp == m.ebp
    && Refines(v, m'.eax) && Agree(st', m'.mem) && Kept(w, m.esp, st, m.mem, st', m'.mem)
  }

  /** The meaning of a call: what the body returns, or nothing in particular if it falls off its end. */
  function CallMeaning(w: World, body: Block, args: seq<Val>, st: Store, m: M, fuel: nat): Option<(Val, Store)> {
    match EvalBlock(w, body, Frame(m.esp - 4, args, [], []), st, fuel)
    case Stuck => None
    case Next(_, st') => Some((Undef, st'))
    case Done(v, st') => Some((v, st'))
  }

  lemma Prologue(w: World, img: Image, addr: nat, body: Block, args: seq<Val>, st: Store, m: M) returns (m3: M)
    requires BodyLoaded(w, img, addr, body) && m.pc == addr && Entry0(w, args, st, m)
    ensures Reaches(img, m, m3) && At(w, FunStart(w, addr), Frame(m.esp - 4, args, [], []), st, m3)
    ensures m3.mem == m.mem[m.esp - 4 := m.ebp]
    ensures CodeAt(img, addr + 3, RunBlock(body, FunStart(w, addr)).value.code)
    ensures CodeAt(img, RunBlock(body, FunStart(w, addr)).value.s.loc, [PopEbp, Return])
  {
    hide Reaches, CodeAt, RunBlock;
    var code := RunBlock(body, FunStart(w, addr)).value.code;
    BlockFacts(body, FunStart(w, addr));
    CodeAtSplit3(img, addr, [PushEbp, MovEbpEsp], code, [PopEbp, Return]);
    SizesTwo(PushEbp, MovEbpEsp);
    var m1 := PushWord(m, m.ebp).(pc := addr + 1);
    m3 := m1.(ebp := m1.esp, pc := addr + 3);
    Exec2(img, m, PushEbp, m1, MovEbpEsp, m3);
    var fr := Frame(m.esp - 4, args, [], []);
    forall i | 0 <= i < |args| ensures Refines(args[i], Load(m3.mem, fr.bp + 8 + 4 * (|args| - 1 - i))) {
      assert fr.bp + 8 + 4 * (|args| - 1 - i) == m.esp + 4 + 4 * (|args| - 1 - i);
    }
    assert Agree(st, m3.mem);
    assert [] + Temps(0) == [];
  }

  lemma CallReturns(w: World, st: Store, m: M, m3: M, v: Val, st': Store, m': M)
    requires m3.mem == m.mem[m.esp - 4 := m.ebp] && Returned(w, m.esp - 4, st, m3, v, st', m')
    ensures CameBack(w, st, m, v, st', m')
  {
  }

  /** Any function in memory, called from anywhere, does what it means. */
  lemma FunctionCorrect(w: World, img: Image, addr: int, args: seq<Val>, st: Store, m: M, fuel: nat)
    requires Linked(w, img) && addr in w.funs && m.pc == addr && Entry0(w, args, st, m)
    ensures var r := CallMeaning(w, w.funs[addr].body, args, st, m, fuel);
            r.Some? ==> exists m' :: Reaches(img, m, m') && CameBack(w, st, m, r.value.0, r.value.1, m')
  {
    hide Reaches, Returned, CameBack, BodyLoaded, EvalBlock, RunBlock, CodeAt, At, Entry0, LibraryOk, Follows;
    assert FunLoaded(w, img, addr);
    FunLoadedParts(w, img, addr);
    var body := w.funs[addr].body;
    var fr := Frame(m.esp - 4, args, [], []);
    var m3 := Prologue(w, img, addr, body, args, st, m);
    AtParts(w, FunStart(w, addr), fr, st, m3);
    var m4 := BlockCorrect(w, img, body, FunStart(w, addr), fr, st, m3, fuel);
    match EvalBlock(w, body, fr, st, fuel)
    case Stuck =>
    case Next(_, st') =>
      var m' := LeaveFunction(w, img, fr, st, m3, addr, EvalBlock(w, body, fr, st, fuel), m4);
      ReachesTrans(img, m, m3, m');
      CallReturns(w, st, m, m3, Undef, st', m');
    case Done(v, st') =>
      DoneReturned(w, img, fr, st, m3, RunBlock(body, FunStart(w, addr)).value.s, v, st', m4);
      ReachesTrans(img, m, m3, m4);
      CallReturns(w, st, m, m3, v, st', m4);
  }

  /** The compiler is correct.  Take a program that the first pass accepts and that keeps to the rules.
      The second pass then accepts it too; load what it emits, beside a run-time library that does what
      it should.  Names mean what the text of the program says: constants their numbers, and functions,
      globals, arrays and strings the places that the compiler has chosen for them.  A call of any of the
      program's functions by its name, with any arguments, in any memory, does what the body of that function
      means, and comes back. */
  lemma CompilerCorrect(p: Program, start: nat, table: Table, w: World, img: Image,
                        name: string, arity: nat, body: Block, args: seq<Val>, st: Store, m: M, fuel: nat)
    requires RunPass(p, 0, start, table).Some? && RunPass(p, 0, start, table).value.s.clean
    requires w.table == SymbolsOf(p, table, RunPass(p, 0, start, table).value.s.table) && w.funs == FunsOf(p, w.table)
    requires RunPass(p, 1, start, w.table).Some? ==> CodeAt(img, start, RunPass(p, 1, start, w.table).value.code)
    requires RuntimeOk(w, img)
    requires Defines(p, name, arity, body) && Named(name) in w.table && m.pc == w.table[Named(name)].loc
    requires Entry0(w, args, st, m)
    ensures RunPass(p, 1, start, w.table).Some?
    ensures var r := CallMeaning(w, body, args, st, m, fuel);
            r.Some? ==> exists m' :: Reaches(img, m, m') && CameBack(w, st, m, r.value.0, r.value.1, m')
  {
    hide RunProgram, ReadsEarly, SymbolsOf, RuntimeOk, CodeAt, BodyLoaded, Entry0, CallMeaning, Reaches, CameBack, FunsOf, Defines;
    TableIsText(p, start, table);
    SecondPassAgrees(p, start, table);
    CleanAgrees(p, start, table);
    var s := S(1, [], 0, start, w.table, true);
    ProgramLoaded(w, img, p, s);
    FunctionFound(p, w, s, name, arity, body);
    FunctionCorrect(w, img, m.pc, args, st, m, fuel);
  }

  /** A call without arguments has been made with a fresh stack, which lies apart from the program, in memory
      as it was loaded. */
  ghost predicate Fresh(w: World, img: Image, from: int, to: int, m: M) {
    && w.limit <= m.esp - 4 && m.esp + 4 <= w.top && (to <= w.limit || m.esp + 4 <= from) && Loaded(img, m.mem)
  }

  lemma FreshEntry(p: Program, start: nat, w: World, img: Image, m: M)
    requires Accepted(p, start, w.table, img) && Fresh(w, img, start, AcceptedEnd(p, start, w.table, img), m)
    ensures Entry0(w, [], DataStore(p, w.table), m)
  {
    hide RunPass, DataStore, Loaded, CodeAt, Agree;
    StoreLoaded(p, start, w.table, img, m.mem);
  }

  /** So it is for a program that has just been loaded: a call of one of its functions, `main` say, does what its
      body means when all globals and arrays are zero. */
  lemma ProgramStarts(p: Program, start: nat, table: Table, w: World, img: Image, name: string, body: Block, m: M, fuel: nat)
    requires RunPass(p, 0, start, table).Some? && RunPass(p, 0, start, table).value.s.clean
    requires w.table == SymbolsOf(p, table, RunPass(p, 0, start, table).value.s.table) && w.funs == FunsOf(p, w.table)
    requires Accepted(p, start, w.table, img) && RuntimeOk(w, img)
    requires Defines(p, name, 0, body) && Named(name) in w.table && m.pc == w.table[Named(name)].loc
    requires Fresh(w, img, start, AcceptedEnd(p, start, w.table, img), m)
    ensures var st := DataStore(p, w.table);
            var r := CallMeaning(w, body, [], st, m, fuel);
            r.Some? ==> exists m' :: Reaches(img, m, m') && CameBack(w, st, m, r.value.0, r.value.1, m')
  {
    hide RunPass, SymbolsOf, DataStore, CodeAt, RuntimeOk, Fresh, Entry0, CallMeaning, Reaches, CameBack, FunsOf, Defines;
    FreshEntry(p, start, w, img, m);
    CompilerCorrect(p, start, table, w, img, name, 0, body, [], DataStore(p, w.table), m, fuel);
  }
}
