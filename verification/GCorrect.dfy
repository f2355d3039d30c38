/** The emitted code does what the program means: from a state of the processor that lays out the
    program's state, running the code of a construct reaches a state that lays out its result. */
module GCorrect {
  import opened Options
  import opened GSyntax
  import opened GCompile
  import opened GTwoPass
  import opened GShape
  import opened GMachine
  import opened GSemantics
  import opened GFrame
  import opened GStrings

  // ----- what is loaded -----

  /** One call of a library routine does what the library promises, and keeps off the stack above it. */
  ghost predicate LibraryCallOk(w: World, img: Image, name: string, vs: seq<Val>, xs: seq<int>, st: Store, mem: Mem, sp: int) {
    && w.library(name, vs, st).Some? && |xs| == |vs| && (forall i :: 0 <= i < |vs| ==> Refines(vs[i], xs[i]))
    && Agree(st, mem) && w.limit <= sp && sp + 4 + 4 * |vs| <= w.top && NoKeys(st, w.limit, sp + 4 + 4 * |vs|)
    ==>
    var (v, st') := w.library(name, vs, st).value;
    var (x, mem') := img.effect(name, xs, mem, sp);
    Refines(v, x) && Agree(st', mem') && Kept(w, sp, st, mem, st', mem') && NoKeys(st', w.limit, sp)
  }

  ghost predicate LibraryOk(w: World, img: Image) {
    forall name, vs, xs, st, mem, sp :: LibraryCallOk(w, img, name, vs, xs, st, mem, sp)
  }

  /** Where the compiler stands after the prologue of the function at `addr`. */
  function FunStart(w: World, addr: nat): S {
    S(1, [], 0, addr + 3, w.table, true)
  }

  /** The code at that address is the function with that body, as compiled, and keeps to the rules. */
  ghost predicate BodyLoaded(w: World, img: Image, addr: int, body: Block) {
    addr >= 0 &&
    var o := RunBlock(body, FunStart(w, addr));
    o.Some? && o.value.s.clean && CodeAt(img, addr, [PushEbp, MovEbpEsp] + o.value.code + [PopEbp, Return])
  }

  ghost predicate FunLoaded(w: World, img: Image, addr: int)
    requires addr in w.funs
  {
    BodyLoaded(w, img, addr, w.funs[addr].body)
  }

  /** What is loaded beside the program is where it should be, and does what it should. */
  ghost predicate RuntimeOk(w: World, img: Image) {
    && img.paramLoc == w.paramLoc && img.routines == w.routines
    && w.paramLoc !in img.code && (forall a :: a in w.routines ==> a !in img.code && a != w.paramLoc)
    && LibraryOk(w, img)
  }

  ghost predicate Linked(w: World, img: Image) {
    RuntimeOk(w, img) && (forall a :: a in w.funs ==> FunLoaded(w, img, a))
  }

  // ----- the relation -----

  /** The compiler's symbolic stack is the frame's. */
  ghost predicate Tracks(w: World, s: S, fr: Frame) {
    && s.stage == 1 && s.table == w.table
    && s.stack == fr.names + Temps(|fr.temps|) && s.temps == |fr.temps| && TEMP !in fr.names
  }

  ghost predicate At(w: World, s: S, fr: Frame, st: Store, m: M) {
    Tracks(w, s, fr) && Laid(w, fr, st, m) && m.pc == s.loc
  }

  /** m', reached from m, has left the function whose frame is at bp, with the value v. */
  ghost predicate Returned(w: World, bp: int, st: Store, m: M, v: Val, st': Store, m': M) {
    && m'.pc == Load(m.mem, bp + 4) && m'.esp == bp + 8 && m'.ebp == Load(m.mem, bp)
    && Refines(v, m'.eax) && Agree(st', m'.mem) && NoKeys(st', w.limit, bp)
    && Kept(w, bp, st, m.mem, st', m'.mem)
  }

  /** The processor follows the meaning r of a construct whose code ends where the compiler is in s'. */
  ghost predicate Follows(w: World, img: Image, fr: Frame, st: Store, m: M, s': S, r: Res, m': M) {
    match r
    case Stuck => true
    case Next(fr', st') =>
      Reaches(img, m, m') && At(w, s', fr', st', m') && fr'.bp == fr.bp && Kept(w, fr.bp, st, m.mem, st', m'.mem)
    case Done(v, st') => Reaches(img, m, m') && Returned(w, fr.bp, st, m, v, st', m')
  }

  lemma FollowsThen(w: World, img: Image, fr: Frame, st: Store, m: M, fr1: Frame, st1: Store, m1: M, s': S, r: Res, m': M)
    requires Laid(w, fr, st, m) && Reaches(img, m, m1) && fr1.bp == fr.bp && Kept(w, fr.bp, st, m.mem, st1, m1.mem)
    requires Follows(w, img, fr1, st1, m1, s', r, m')
    ensures Follows(w, img, fr, st, m, s', r, m')
  {
    hide Reaches, At, Laid, Kept, Load, Agree, NoKeys;
    LinkWords(w, fr, st, m);
    match r
    case Stuck =>
    case Next(fr', st') =>
      ReachesTrans(img, m, m1, m');
      KeptTrans(w, fr.bp, st, m.mem, st1, m1.mem, st', m'.mem);
    case Done(v, st') =>
      ReachesTrans(img, m, m1, m');
      KeptTrans(w, fr.bp, st, m.mem, st1, m1.mem, st', m'.mem);
      KeptAt(w, fr.bp, st, m.mem, st1, m1.mem, fr.bp);
      KeptAt(w, fr.bp, st, m.mem, st1, m1.mem, fr.bp + 4);
  }

  // ----- running one, two, three instructions -----

  lemma Exec1(img: Image, m: M, i: Instr, m': M)
    requires CodeAt(img, m.pc, [i]) && Exec(i, m) == Some(m')
    ensures Reaches(img, m, m')
  {
    hide Exec, Reaches;
    CodeFirst(img, m.pc, [i]);
    ReachesOne(img, m, m');
  }

  lemma Exec2(img: Image, m: M, i: Instr, m1: M, j: Instr, m2: M)
    requires CodeAt(img, m.pc, [i, j]) && Exec(i, m) == Some(m1) && m1.pc == m.pc + Size(i) && Exec(j, m1) == Some(m2)
    ensures Reaches(img, m, m2)
  {
    hide Exec, Reaches;
    CodeFirst(img, m.pc, [i, j]);
    assert [i, j][1..] == [j];
    Exec1(img, m1, j, m2);
    ReachesStep(img, m, m1, m2);
  }

  lemma Exec3(img: Image, m: M, i: Instr, m1: M, j: Instr, m2: M, k: Instr, m3: M)
    requires CodeAt(img, m.pc, [i, j, k]) && Exec(i, m) == Some(m1) && m1.pc == m.pc + Size(i)
    requires Exec(j, m1) == Some(m2) && m2.pc == m1.pc + Size(j) && Exec(k, m2) == Some(m3)
    ensures Reaches(img, m, m3)
  {
    hide Exec, Reaches;
    CodeFirst(img, m.pc, [i, j, k]);
    assert [i, j, k][1..] == [j, k];
    Exec2(img, m1, j, m2, k, m3);
    ReachesStep(img, m, m1, m3);
  }

  // ----- names -----

  /** Innermost-first lookup: the distance the compiler finds leads to the local that the name means. */
  lemma {:induction false} FindIndex(names: seq<string>, t: nat, name: string)
    requires name != TEMP
    ensures var k := IndexOf(names, name);
            -1 <= k < |names| && Find(names + Temps(t), name) == if k == -1 then -1 else t + |names| - 1 - k
    decreases t, |names|
  {
    var stack := names + Temps(t);
    if t > 0 {
      assert stack[..|stack| - 1] == names + Temps(t - 1);
      FindIndex(names, t - 1, name);
    } else {
      assert stack == names;
      if names != [] {
        assert names[..|names| - 1] + Temps(0) == names[..|names| - 1];
        FindIndex(names[..|names| - 1], 0, name);
      }
    }
  }

  // ----- the compiler's side of stack moves -----

  lemma TracksPush(w: World, s: S, fr: Frame, code: seq<Instr>, v: Val)
    requires Tracks(w, s, fr) && EmitPush(s, code).Some?
    ensures Tracks(w, EmitPush(s, code).value.s, fr.(temps := fr.temps + [v]))
  {
    assert Temps(|fr.temps|) + [TEMP] == Temps(|fr.temps| + 1);
  }

  lemma TracksPop(w: World, s: S, fr: Frame)
    requires Tracks(w, s, fr) && PopTemp(s).Some?
    ensures fr.temps != [] && Tracks(w, PopTemp(s).value, fr.(temps := fr.temps[..|fr.temps| - 1]))
  {
    assert s.stack[..|s.stack| - 1] == fr.names + Temps(|fr.temps| - 1);
  }

  lemma TracksPops(w: World, s: S, fr: Frame, n: nat)
    requires Tracks(w, s, fr) && PopTemps(s, n).Some?
    ensures n <= |fr.temps| && Tracks(w, PopTemps(s, n).value, fr.(temps := fr.temps[..|fr.temps| - n]))
  {
    PopTempsFacts(s, n);
    assert s.stack[..|s.stack| - n] == fr.names + Temps(|fr.temps| - n);
  }

  /** Code that ends by pushing a rendering of v. */
  lemma PushedVal(w: World, img: Image, s: S, fr: Frame, st: Store, m: M, code: seq<Instr>, v: Val, x: int, m': M)
    requires At(w, s, fr, st, m) && EmitPush(s, code).Some? && Reaches(img, m, m')
    requires Refines(v, x) && m'.mem == m.mem[m.esp - 4 := x] && m'.esp == m.esp - 4 && m'.ebp == m.ebp
    requires m'.pc == s.loc + Sizes(code)
    ensures Follows(w, img, fr, st, m, EmitPush(s, code).value.s, PushVal(w, fr, st, v), m')
  {
    hide Reaches, Laid, Kept, Sizes;
    TracksPush(w, s, fr, code, v);
    if Room(w, fr, 1) {
      LaidPush(w, fr, st, m, v, m');
    }
  }

  // ----- expressions -----

  lemma NumCorrect(w: World, img: Image, value: int, s: S, fr: Frame, st: Store, m: M, v: Val) returns (m': M)
    requires At(w, s, fr, st, m) && EmitPush(s, [PushImm(value)]).Some? && CodeAt(img, s.loc, [PushImm(value)])
    requires Refines(v, value)
    ensures Follows(w, img, fr, st, m, EmitPush(s, [PushImm(value)]).value.s, PushVal(w, fr, st, v), m')
  {
    hide Reaches, Laid, Kept, Follows, PushVal;
    m' := PushWord(m, value).(pc := m.pc + 5);
    Exec1(img, m, PushImm(value), m');
    SizesOne(PushImm(value));
    PushedVal(w, img, s, fr, st, m, [PushImm(value)], v, value, m');
  }

  lemma LocalCorrect(w: World, img: Image, name: string, addr: bool, s: S, fr: Frame, st: Store, m: M, fuel: nat) returns (m': M)
    requires At(w, s, fr, st, m) && name != TEMP && Find(s.stack, name) != -1 && RunRef(name, addr, s).Some?
    requires CodeAt(img, s.loc, RunRef(name, addr, s).value.code)
    ensures Follows(w, img, fr, st, m, RunRef(name, addr, s).value.s, EvalPush(w, Ref(name, addr), fr, st, fuel), m')
  {
    hide Reaches, Kept, Follows, PushVal, Find, IndexOf, CodeAt;
    FindIndex(fr.names, |fr.temps|, name);
    var pos := Find(s.stack, name);
    var k := IndexOf(fr.names, name);
    assert m.esp + 4 * pos == Cell(fr, k);
    if addr {
      var m1 := m.(eax := m.esp + 4 * pos, pc := m.pc + 7);
      m' := PushWord(m1, m1.eax).(pc := m.pc + 8);
      assert RunRef(name, addr, s).value.code == [LeaEax(4 * pos), PushEax];
      SizesTwo(LeaEax(4 * pos), PushEax);
      Exec2(img, m, LeaEax(4 * pos), m1, PushEax, m');
      PushedVal(w, img, s, fr, st, m, [LeaEax(4 * pos), PushEax], Word(Cell(fr, k)), m1.eax, m');
    } else if Cell(fr, k) in st {
      m' := PushWord(m, Load(m.mem, m.esp + 4 * pos)).(pc := m.pc + 7);
      Exec1(img, m, PushStack(4 * pos), m');
      PushedVal(w, img, s, fr, st, m, [PushStack(4 * pos)], st[Cell(fr, k)], Load(m.mem, Cell(fr, k)), m');
    } else {
      m' := m;
      assert Follows(w, img, fr, st, m, RunRef(name, addr, s).value.s, Stuck, m') by { StuckFollows(w, img, fr, st, m, RunRef(name, addr, s).value.s, m'); }
    }
  }

  lemma StuckFollows(w: World, img: Image, fr: Frame, st: Store, m: M, s': S, m': M)
    ensures Follows(w, img, fr, st, m, s', Stuck, m')
  {
  }

  lemma StringCorrect(w: World, img: Image, bytes: seq<int>, strLab: nat, jmpLab: nat, s: S, fr: Frame, st: Store, m: M, fuel: nat) returns (m': M)
    requires At(w, s, fr, st, m) && RunString(bytes, strLab, jmpLab, s).Some?
    requires CodeAt(img, s.loc, RunString(bytes, strLab, jmpLab, s).value.code)
    ensures Follows(w, img, fr, st, m, RunString(bytes, strLab, jmpLab, s).value.s, EvalPush(w, Str(bytes, strLab, jmpLab), fr, st, fuel), m')
    ensures StringAt(img, w.table, Str(bytes, strLab, jmpLab))
  {
    hide Reaches, Laid, Kept, Follows, PushVal, CodeAt, Sizes, StringAt;
    StringLoaded(img, Str(bytes, strLab, jmpLab), s);
    var end := w.table[Label(jmpLab)].loc;
    var jump := [Jmp(end - (s.loc + 5))];
    var data := DataBytes(bytes + [0]);
    var s4 := s.(loc := s.loc + Sizes(jump) + Sizes(data));
    SizesOne(jump[0]);
    var push := [PushImm(w.table[Label(strLab)].loc)];
    assert s4.loc == end && RunString(bytes, strLab, jmpLab, s).value == Out(EmitPush(s4, push).value.s, jump + data + push);
    CodeAtSplit3(img, s.loc, jump, data, push);
    var m1 := m.(pc := end);
    Exec1(img, m, jump[0], m1);
    LaidSame(w, fr, st, m, m1);
    KeptSelf(w, fr.bp, st, m.mem);
    m' := NumCorrect(w, img, push[0].value, s4, fr, st, m1, Word(push[0].value));
    FollowsThen(w, img, fr, st, m, fr, st, m1, EmitPush(s4, push).value.s, PushVal(w, fr, st, Word(push[0].value)), m');
  }

  // ----- calls -----

  /** A call made with the frame fr laid out at m0, returning to `ret`, has come back. */
  ghost predicate CallDone(w: World, img: Image, fr: Frame, st: Store, m0: M, addr: int, n: int, ret: int, r: Res, m': M) {
    r.Next? ==>
      && Reaches(img, PushWord(m0, ret).(pc := addr), m') && m'.pc == ret
      && 0 <= n <= |fr.temps|
      && Laid(w, fr, r.mem, m') && Kept(w, fr.bp, st, m0.mem, r.mem, m'.mem)
      && (exists v :: r == PushVal(w, fr.(temps := fr.temps[..|fr.temps| - n]), r.mem, v) && Refines(v, m'.eax))
  }

  /** The return address goes where nothing of the program is. */
  lemma ReturnAddress(w: World, fr: Frame, st: Store, m0: M, ret: int)
    requires Laid(w, fr, st, m0) && Room(w, fr, 1)
    ensures Agree(st, PushWord(m0, ret).mem) && Kept(w, m0.esp, st, m0.mem, st, PushWord(m0, ret).mem)
    ensures NoKeys(st, w.limit, m0.esp) && m0.esp <= fr.bp && m0.esp - 4 < w.top
  {
  }

  lemma ParamCall(w: World, img: Image, fr: Frame, st: Store, m0: M, n: int, ret: int, fuel: nat) returns (m': M)
    requires Linked(w, img) && Laid(w, fr, st, m0) && w.paramLoc !in w.funs
    ensures CallDone(w, img, fr, st, m0, w.paramLoc, n, ret, EvalCall(w, w.paramLoc, n, fr, st, fuel), m')
  {
    hide Reaches, Kept, LibraryOk, Agree, NoKeys, TempsHold;
    var m1 := PushWord(m0, ret).(pc := w.paramLoc);
    if EvalCall(w, w.paramLoc, n, fr, st, fuel).Next? {
      var k := fr.temps[|fr.temps| - 1].value;
      LaidTop(w, fr, st, m0);
      assert Load(m1.mem, m1.esp + 4) == k;
      m' := m1.(eax := Load(m1.mem, m1.ebp + 4 * k + 8), pc := ret, esp := m0.esp);
      ReachesOne(img, m1, m');
      ReturnAddress(w, fr, st, m0, ret);
      LaidKept(w, fr, st, m0, st, m');
      KeptAbove(w, m0.esp, fr.bp, st, m0.mem, st, m'.mem);
      var v := fr.args[|fr.args| - 1 - k];
      assert Refines(v, Load(m0.mem, fr.bp + 8 + 4 * (|fr.args| - 1 - (|fr.args| - 1 - k))));
      assert Refines(v, m'.eax);
    } else {
      m' := m0;
    }
  }

  /** The words on the stack render the values passed. */
  lemma ArgsRefined(w: World, fr: Frame, st: Store, m0: M, n: nat, ret: int, m1: M)
    requires Laid(w, fr, st, m0) && n <= |fr.temps|
    requires m1.esp == m0.esp - 4 && m1.mem == m0.mem[m0.esp - 4 := ret]
    ensures var xs := StackArgs(m1, n);
            forall i :: 0 <= i < n ==> Refines(fr.temps[|fr.temps| - n..][i], xs[i])
  {
    hide TempsHold, ArgsHold, Agree, NoKeys;
    var xs := StackArgs(m1, n);
    forall i | 0 <= i < n ensures Refines(fr.temps[|fr.temps| - n..][i], xs[i]) {
      LaidTemp(w, fr, st, m0, |fr.temps| - n + i);
      var a := m0.esp + 4 * (n - 1 - i);
      assert a == m0.esp + 4 * (|fr.temps| - 1 - (|fr.temps| - n + i));
      assert xs[i] == Load(m1.mem, m1.esp + 4 * (n - i)) == Load(m0.mem, a);
    }
  }

  /** What the library promises of one call. */
  lemma LibraryCall(w: World, img: Image, name: string, vs: seq<Val>, xs: seq<int>, st: Store, mem: Mem, sp: int)
    requires LibraryOk(w, img) && w.library(name, vs, st).Some? && |xs| == |vs|
    requires forall i :: 0 <= i < |vs| ==> Refines(vs[i], xs[i])
    requires Agree(st, mem) && w.limit <= sp && sp + 4 + 4 * |vs| <= w.top && NoKeys(st, w.limit, sp + 4 + 4 * |vs|)
    ensures var (v, st') := w.library(name, vs, st).value;
            var (x, mem') := img.effect(name, xs, mem, sp);
            && Refines(v, x) && Agree(st', mem') && Kept(w, sp, st, mem, st', mem') && NoKeys(st', w.limit, sp)
            && Load(mem', sp) == Load(mem, sp)
  {
    hide Agree, NoKeys, Load, Kept;
    assert LibraryCallOk(w, img, name, vs, xs, st, mem, sp);
    var (v, st') := w.library(name, vs, st).value;
    var (x, mem') := img.effect(name, xs, mem, sp);
    KeptAt(w, sp, st, mem, st', mem', sp) by { NoKeysAt(st, w.limit, sp + 4 + 4 * |vs|, sp); }
  }

  lemma NoKeysAt(st: Store, lo: int, hi: int, a: int)
    requires NoKeys(st, lo, hi) && lo <= a < hi
    ensures a !in st
  {
  }

  lemma NoKeysJoin(st: Store, lo: int, mid: int, hi: int)
    requires NoKeys(st, lo, mid) && NoKeys(st, mid, hi)
    ensures NoKeys(st, lo, hi)
  {
  }

  lemma NoKeysWithin(st: Store, lo: int, hi: int, lo': int, hi': int)
    requires NoKeys(st, lo, hi) && lo <= lo' && hi' <= hi
    ensures NoKeys(st, lo', hi')
  {
  }

  lemma RoutineCall(w: World, img: Image, fr: Frame, st: Store, m0: M, addr: int, n: int, ret: int, fuel: nat) returns (m': M)
    requires Linked(w, img) && Laid(w, fr, st, m0) && addr in w.routines && addr !in w.funs
    ensures CallDone(w, img, fr, st, m0, addr, n, ret, EvalCall(w, addr, n, fr, st, fuel), m')
  {
    hide Reaches, Kept, Agree, TempsHold, ArgsHold, Refines, LibraryOk, NoKeys;
    var r := EvalCall(w, addr, n, fr, st, fuel);
    if r.Next? {
      var m1 := PushWord(m0, ret).(pc := addr);
      var name := w.routines[addr].name;
      var vs := fr.temps[|fr.temps| - n..];
      var xs := StackArgs(m1, n);
      ArgsRefined(w, fr, st, m0, n, ret, m1);
      ReturnAddress(w, fr, st, m0, ret);
      NoKeysWithin(st, w.limit, fr.bp - 4 * |fr.names|, w.limit, m1.esp + 4 + 4 * n);
      LibraryCall(w, img, name, vs, xs, st, m1.mem, m1.esp);
      var (v, st') := w.library(name, vs, st).value;
      var (x, mem') := img.effect(name, xs, m1.mem, m1.esp);
      m' := m1.(eax := x, mem := mem', pc := ret, esp := m0.esp);
      ReachesOne(img, m1, m') by { assert Load(m1.mem, m1.esp) == ret; }
      KeptAbove(w, m1.esp, m0.esp, st, m1.mem, st', mem');
      KeptTrans(w, m0.esp, st, m0.mem, st, m1.mem, st', mem');
      NoKeysWithin(st, w.limit, m0.esp, m1.esp, m0.esp);
      KeptNoKeys(w, m1.esp, st, m1.mem, st', mem', m0.esp);
      NoKeysJoin(st', w.limit, m1.esp, m0.esp);
      LaidKept(w, fr, st, m0, st', m');
      KeptAbove(w, m0.esp, fr.bp, st, m0.mem, st', mem');
    } else {
      m' := m0;
    }
  }

  /** The callee's frame. */
  function CalleeFrame(fr: Frame, n: nat): Frame
    requires n <= |fr.temps|
  {
    Frame(fr.bp - 4 * Depth(fr) - 8, fr.temps[|fr.temps| - n..], [], [])
  }

  /** The state after the call and the prologue. */
  function Entered(m0: M, addr: int, ret: int): M {
    m0.(pc := addr + 3, esp := m0.esp - 8, ebp := m0.esp - 8, mem := m0.mem[m0.esp - 4 := ret][m0.esp - 8 := m0.ebp])
  }

  lemma EnterFunction(w: World, img: Image, fr: Frame, st: Store, m0: M, addr: int, n: nat, ret: int)
    requires Linked(w, img) && Laid(w, fr, st, m0) && addr in w.funs && n <= |fr.temps| && Room(w, fr, 2)
    ensures FunLoaded(w, img, addr)
    ensures Reaches(img, PushWord(m0, ret).(pc := addr), Entered(m0, addr, ret))
    ensures At(w, FunStart(w, addr), CalleeFrame(fr, n), st, Entered(m0, addr, ret))
    ensures Kept(w, m0.esp, st, m0.mem, st, Entered(m0, addr, ret).mem)
    ensures Load(Entered(m0, addr, ret).mem, m0.esp - 8) == m0.ebp && Load(Entered(m0, addr, ret).mem, m0.esp - 4) == ret
    ensures CodeAt(img, addr + 3, RunBlock(w.funs[addr].body, FunStart(w, addr)).value.code)
    ensures CodeAt(img, RunBlock(w.funs[addr].body, FunStart(w, addr)).value.s.loc, [PopEbp, Return])
  {
    hide Reaches, Laid, Kept, LibraryOk, CodeAt, RunBlock;
    var m1 := PushWord(m0, ret).(pc := addr);
    var m2 := PushWord(m1, m1.ebp).(pc := addr + 1);
    var m3 := Entered(m0, addr, ret);
    var code := RunBlock(w.funs[addr].body, FunStart(w, addr)).value.code;
    BlockFacts(w.funs[addr].body, FunStart(w, addr));
    CodeAtSplit3(img, addr, [PushEbp, MovEbpEsp], code, [PopEbp, Return]);
    SizesTwo(PushEbp, MovEbpEsp);
    Exec2(img, m1, PushEbp, m2, MovEbpEsp, m3);
    LaidFacts(w, fr, st, m0);
    LaidCallee(w, fr, st, m0, n, ret, m3);
    assert [] + Temps(0) == [];
  }

  lemma LaidFacts(w: World, fr: Frame, st: Store, m: M)
    requires Laid(w, fr, st, m)
    ensures m.ebp == fr.bp && m.esp == fr.bp - 4 * Depth(fr) && m.esp <= fr.bp < w.top
    ensures NoKeys(st, w.limit, fr.bp - 4 * |fr.names|)
  {
  }

  /** A body that runs to its closing brace has neither locals nor values left. */
  lemma BodyEnds(w: World, addr: nat, fr: Frame, b: Block)
    requires RunBlock(b, FunStart(w, addr)).Some? && RunBlock(b, FunStart(w, addr)).value.s.clean
    requires Tracks(w, RunBlock(b, FunStart(w, addr)).value.s, fr)
    ensures fr.names == [] && fr.temps == []
  {
    hide RunBlock;
    var s := FunStart(w, addr);
    assert s.stack == [] + Temps(0);
    ShapeIs(s, []);
    BlockShape(b, s);
    assert fr.names + Temps(|fr.temps|) == [];
  }

  /** The epilogue takes a body that fell off its end back to the caller, with nothing in eax. */
  lemma LeaveFunction(w: World, img: Image, fr: Frame, st: Store, m3: M, addr: nat, r: Res, m4: M) returns (m': M)
    requires addr in w.funs && FunLoaded(w, img, addr) && Laid(w, fr, st, m3) && r.Next?
    requires Follows(w, img, fr, st, m3, RunBlock(w.funs[addr].body, FunStart(w, addr)).value.s, r, m4)
    requires CodeAt(img, RunBlock(w.funs[addr].body, FunStart(w, addr)).value.s.loc, [PopEbp, Return])
    ensures Reaches(img, m3, m') && Returned(w, fr.bp, st, m3, Undef, r.mem, m')
  {
    hide Reaches, Kept, RunBlock, Agree, NoKeys, TempsHold, ArgsHold, CodeAt;
    BodyEnds(w, addr, r.fr, w.funs[addr].body);
    LinkWords(w, fr, st, m3);
    KeptAt(w, fr.bp, st, m3.mem, r.mem, m4.mem, fr.bp);
    KeptAt(w, fr.bp, st, m3.mem, r.mem, m4.mem, fr.bp + 4);
    var m5 := m4.(ebp := Load(m4.mem, m4.esp), esp := m4.esp + 4, pc := m4.pc + 1);
    m' := m5.(pc := Load(m5.mem, m5.esp), esp := m5.esp + 4);
    Exec2(img, m4, PopEbp, m5, Return, m');
    ReachesTrans(img, m3, m4, m');
  }

  /** Back in the caller. */
  lemma BackInCaller(w: World, img: Image, fr: Frame, st: Store, m0: M, addr: int, n: nat, ret: int, v: Val, st': Store, m': M, r: Res)
    requires Laid(w, fr, st, m0) && n <= |fr.temps| && Room(w, fr, 2)
    requires Reaches(img, PushWord(m0, ret).(pc := addr), Entered(m0, addr, ret))
    requires Kept(w, m0.esp, st, m0.mem, st, Entered(m0, addr, ret).mem)
    requires Load(Entered(m0, addr, ret).mem, m0.esp - 8) == m0.ebp && Load(Entered(m0, addr, ret).mem, m0.esp - 4) == ret
    requires Reaches(img, Entered(m0, addr, ret), m') && Returned(w, m0.esp - 8, st, Entered(m0, addr, ret), v, st', m')
    requires r == PushVal(w, fr.(temps := fr.temps[..|fr.temps| - n]), st', v)
    ensures CallDone(w, img, fr, st, m0, addr, n, ret, r, m')
  {
    hide Reaches, Kept, Agree, NoKeys, Laid, Refines;
    LaidFacts(w, fr, st, m0);
    var m3 := Entered(m0, addr, ret);
    ReachesTrans(img, PushWord(m0, ret).(pc := addr), m3, m');
    NoKeysWithin(st, w.limit, fr.bp - 4 * |fr.names|, m0.esp - 8, m0.esp);
    KeptNoKeys(w, m0.esp - 8, st, m3.mem, st', m'.mem, m0.esp);
    NoKeysJoin(st', w.limit, m0.esp - 8, m0.esp);
    KeptAbove(w, m0.esp - 8, m0.esp, st, m3.mem, st', m'.mem);
    KeptTrans(w, m0.esp, st, m0.mem, st, m3.mem, st', m'.mem);
    LaidKept(w, fr, st, m0, st', m');
    KeptAbove(w, m0.esp, fr.bp, st, m0.mem, st', m'.mem);
  }

  /** After the call: drop the arguments, push what it returned. */
  lemma AfterCall(w: World, img: Image, s1: S, fr: Frame, st: Store, m0: M, addr: int, n: int, ret: int, r: Res, m1: M,
                  code: seq<Instr>) returns (m': M)
    requires CallDone(w, img, fr, st, m0, addr, n, ret, r, m1) && CodeAt(img, ret, [AddEsp(4 * n), PushEax]) && !r.Done?
    requires 0 <= n <= |fr.temps| && Tracks(w, s1, fr.(temps := fr.temps[..|fr.temps| - n])) && EmitPush(s1, code).Some?
    requires s1.loc + Sizes(code) == ret + 7
    ensures r.Next? ==> Reaches(img, PushWord(m0, ret).(pc := addr), m') && Kept(w, fr.bp, st, m0.mem, r.mem, m'.mem)
    ensures r.Next? ==> At(w, EmitPush(s1, code).value.s, r.fr, r.mem, m') && r.fr.bp == fr.bp
  {
    hide Reaches, Kept, Laid, CodeAt, Sizes, Refines;
    m' := m1;
    if r.Next? {
      var fr1 := fr.(temps := fr.temps[..|fr.temps| - n]);
      var v :| r == PushVal(w, fr1, r.mem, v) && Refines(v, m1.eax);
      LaidFacts(w, fr, r.mem, m1);
      var m2 := m1.(esp := m1.esp + 4 * n, pc := ret + 6);
      LaidDrop(w, fr, r.mem, m1, |fr.temps| - n, m2);
      m' := PushWord(m2, m2.eax).(pc := ret + 7);
      Exec2(img, m1, AddEsp(4 * n), m2, PushEax, m');
      ReachesTrans(img, PushWord(m0, ret).(pc := addr), m1, m');
      TracksPush(w, s1, fr1, code, v);
      assert m'.mem == m2.mem[m2.esp - 4 := m2.eax];
      LaidPush(w, fr1, r.mem, m2, v, m');
      KeptTrans(w, fr.bp, st, m0.mem, r.mem, m1.mem, r.mem, m'.mem);
    }
  }

  // ----- the main induction: on fuel and on the program -----

  lemma {:induction false} CallCorrect(w: World, img: Image, fr: Frame, st: Store, m0: M, addr: int, n: int, ret: int, fuel: nat)
    returns (m1: M)
    requires Linked(w, img) && Laid(w, fr, st, m0)
    ensures CallDone(w, img, fr, st, m0, addr, n, ret, EvalCall(w, addr, n, fr, st, fuel), m1)
    decreases fuel, 0, 0, 0
  {
    hide Laid, Reaches, LibraryOk, FunLoaded, RunBlock, Follows, Kept, At, Returned, CodeAt, LibraryOk, Refines;
    m1 := m0;
    if EvalCall(w, addr, n, fr, st, fuel).Next? {
      if addr in w.funs {
        EnterFunction(w, img, fr, st, m0, addr, n, ret);
        var m3 := Entered(m0, addr, ret);
        var fr3 := CalleeFrame(fr, n);
        FunLoadedParts(w, img, addr);
        AtParts(w, FunStart(w, addr), fr3, st, m3);
        LaidFacts(w, fr, st, m0);
        var r := EvalBlock(w, w.funs[addr].body, fr3, st, fuel - 1);
        var m4 := BlockCorrect(w, img, w.funs[addr].body, FunStart(w, addr), fr3, st, m3, fuel - 1);
        match r {
          case Next(_, _) =>
            m1 := LeaveFunction(w, img, fr3, st, m3, addr, r, m4);
            BackInCaller(w, img, fr, st, m0, addr, n, ret, Undef, r.mem, m1, EvalCall(w, addr, n, fr, st, fuel));
          case Done(v, st') =>
            m1 := m4;
            DoneReturned(w, img, fr3, st, m3, RunBlock(w.funs[addr].body, FunStart(w, addr)).value.s, v, st', m4);
            BackInCaller(w, img, fr, st, m0, addr, n, ret, v, st', m1, EvalCall(w, addr, n, fr, st, fuel));
        }
      } else if addr == w.paramLoc {
        m1 := ParamCall(w, img, fr, st, m0, n, ret, fuel);
      } else {
        m1 := RoutineCall(w, img, fr, st, m0, addr, n, ret, fuel);
      }
    }
  }

  lemma AtParts(w: World, s: S, fr: Frame, st: Store, m: M)
    requires At(w, s, fr, st, m)
    ensures Tracks(w, s, fr) && Laid(w, fr, st, m) && m.pc == s.loc
  {
  }

  lemma FunLoadedParts(w: World, img: Image, addr: int)
    requires addr in w.funs && FunLoaded(w, img, addr)
    ensures addr >= 0 && RunBlock(w.funs[addr].body, FunStart(w, addr)).Some?
    ensures RunBlock(w.funs[addr].body, FunStart(w, addr)).value.s.clean
  {
  }

  lemma DoneReturned(w: World, img: Image, fr: Frame, st: Store, m: M, s: S, v: Val, st': Store, m': M)
    requires Follows(w, img, fr, st, m, s, Done(v, st'), m')
    ensures Reaches(img, m, m') && Returned(w, fr.bp, st, m, v, st', m')
  {
  }

  /** A call in an expression. */
  lemma {:induction false} CallExprCorrect(w: World, img: Image, e: Entry, s: S, fr: Frame, st: Store, m: M, fuel: nat) returns (m': M)
    requires Linked(w, img) && At(w, s, fr, st, m) && PopTemps(s, e.arity).Some?
    requires EmitPush(PopTemps(s, e.arity).value, CallCode(s.loc, e)).Some? && CodeAt(img, s.loc, CallCode(s.loc, e))
    ensures Follows(w, img, fr, st, m, EmitPush(PopTemps(s, e.arity).value, CallCode(s.loc, e)).value.s,
                    EvalCall(w, e.loc, e.arity, fr, st, fuel), m')
    decreases fuel, 0, 0, 1
  {
    hide Laid, Reaches, Linked, Kept, CodeAt, Refines, EvalCall, CallDone, Sizes;
    m' := m;
    if EvalCall(w, e.loc, e.arity, fr, st, fuel).Next? {
      var s1 := PopTemps(s, e.arity).value;
      var ret := s.loc + 5;
      CallArity(w, e.loc, e.arity, fr, st, fuel);
      TracksPops(w, s, fr, e.arity);
      PopTempsFacts(s, e.arity);
      CodeAtSplit(img, s.loc, [Call(e.loc - ret)], [AddEsp(4 * e.arity), PushEax]) by {
        assert CallCode(s.loc, e) == [Call(e.loc - ret)] + [AddEsp(4 * e.arity), PushEax];
      }
      SizesOne(Call(e.loc - ret));
      CallCodeSize(s.loc, e);
      Exec1(img, m, Call(e.loc - ret), PushWord(m, ret).(pc := e.loc));
      var m1 := CallCorrect(w, img, fr, st, m, e.loc, e.arity, ret, fuel);
      m' := AfterCall(w, img, s1, fr, st, m, e.loc, e.arity, ret, EvalCall(w, e.loc, e.arity, fr, st, fuel), m1, CallCode(s.loc, e));
      ReachesTrans(img, m, PushWord(m, ret).(pc := e.loc), m');
    }
  }

  lemma CallArity(w: World, addr: int, n: int, fr: Frame, st: Store, fuel: nat)
    requires EvalCall(w, addr, n, fr, st, fuel).Next?
    ensures 0 <= n <= |fr.temps|
  {
  }

  lemma {:induction false} GlobalCorrect(w: World, img: Image, name: string, addr: bool, s: S, fr: Frame, st: Store, m: M, fuel: nat) returns (m': M)
    requires Linked(w, img) && At(w, s, fr, st, m) && name != TEMP && Find(s.stack, name) == -1 && RunRef(name, addr, s).Some?
    requires CodeAt(img, s.loc, RunRef(name, addr, s).value.code)
    ensures Follows(w, img, fr, st, m, RunRef(name, addr, s).value.s, EvalPush(w, Ref(name, addr), fr, st, fuel), m')
    decreases fuel, 0, 0, 2
  {
    hide Laid, Reaches, Linked, Kept, CodeAt, Refines, EvalCall, PushVal, Follows, Find, IndexOf;
    FindIndex(fr.names, |fr.temps|, name);
    var e := w.table[Named(name)];
    if addr || e.arity == CONSTANT {
      m' := NumCorrect(w, img, e.loc, s, fr, st, m, Word(e.loc)) by { WordRefines(e.loc); }
    } else if e.arity == VARIABLE {
      m' := VariableCorrect(w, img, e.loc, s, fr, st, m);
    } else {
      m' := CallExprCorrect(w, img, e, NoteArity(s, e.arity), fr, st, m, fuel);
    }
  }

  lemma WordRefines(x: int)
    ensures Refines(Word(x), x)
  {
  }

  lemma VariableCorrect(w: World, img: Image, loc: int, s: S, fr: Frame, st: Store, m: M) returns (m': M)
    requires At(w, s, fr, st, m) && EmitPush(s, [MovEax(loc), PushAtEax]).Some? && CodeAt(img, s.loc, [MovEax(loc), PushAtEax])
    ensures Follows(w, img, fr, st, m, EmitPush(s, [MovEax(loc), PushAtEax]).value.s,
                    if loc in st then PushVal(w, fr, st, st[loc]) else Stuck, m')
  {
    hide Reaches, Kept, PushVal, CodeAt, Sizes, Refines;
    m' := m;
    if loc in st {
      var m1 := m.(eax := loc, pc := m.pc + 5);
      m' := PushWord(m1, Load(m.mem, loc)).(pc := m.pc + 7);
      Exec2(img, m, MovEax(loc), m1, PushAtEax, m');
      SizesTwo(MovEax(loc), PushAtEax);
      PushedVal(w, img, s, fr, st, m, [MovEax(loc), PushAtEax], st[loc], Load(m.mem, loc), m');
    }
  }

  lemma {:induction false} PushCorrect(w: World, img: Image, p: Push, s: S, fr: Frame, st: Store, m: M, fuel: nat) returns (m': M)
    requires Linked(w, img) && At(w, s, fr, st, m) && RunPush(p, s).Some? && RunPush(p, s).value.s.clean
    requires CodeAt(img, s.loc, RunPush(p, s).value.code)
    ensures Follows(w, img, fr, st, m, RunPush(p, s).value.s, EvalPush(w, p, fr, st, fuel), m')
    decreases fuel, 0, 1
  {
    hide Laid, Reaches, Linked, Kept, CodeAt, EvalCall, PushVal, Follows, Find, IndexOf, RunRef, RunString;
    match p
    case Num(value, addr) =>
      m' := NumCorrect(w, img, value, s, fr, st, m, Word(value));
    case Str(bytes, strLab, jmpLab) =>
      m' := StringCorrect(w, img, bytes, strLab, jmpLab, s, fr, st, m, fuel);
    case Ref(name, addr) =>
      var t := s.(clean := s.clean && name != TEMP);
      RefFacts(name, addr, t);
      if Find(t.stack, name) != -1 {
        m' := LocalCorrect(w, img, name, addr, t, fr, st, m, fuel);
      } else {
        m' := GlobalCorrect(w, img, name, addr, t, fr, st, m, fuel);
      }
  }

  lemma {:induction false} PushesCorrect(w: World, img: Image, ps: Pushes, s: S, fr: Frame, st: Store, m: M, fuel: nat) returns (m': M)
    requires Linked(w, img) && At(w, s, fr, st, m) && RunPushes(ps, s).Some? && RunPushes(ps, s).value.s.clean
    requires CodeAt(img, s.loc, RunPushes(ps, s).value.code)
    ensures Follows(w, img, fr, st, m, RunPushes(ps, s).value.s, EvalPushes(w, ps, fr, st, fuel), m')
    decreases fuel, 0, 2, ps
  {
    hide Laid, Reaches, Linked, Kept, CodeAt, EvalPush, RunPush, Tracks;
    match ps
    case NoPush =>
      m' := m;
      ReachesSelf(img, m);
      KeptSelf(w, fr.bp, st, m.mem);
    case Then(p, rest) =>
      PushFacts(p, s);
      var o := RunPush(p, s).value;
      PushesFacts(rest, o.s);
      CodeAtSplit(img, s.loc, o.code, RunPushes(rest, o.s).value.code);
      m' := PushCorrect(w, img, p, s, fr, st, m, fuel);
      var r := EvalPush(w, p, fr, st, fuel);
      if r.Next? {
        var m1 := m';
        m' := PushesCorrect(w, img, rest, o.s, r.fr, r.mem, m1, fuel);
        FollowsThen(w, img, fr, st, m, r.fr, r.mem, m1, RunPushes(rest, o.s).value.s, EvalPushes(w, rest, r.fr, r.mem, fuel), m');
      }
  }

  /** The guard r of an `if` or a `while`, taken off the stack, has sent the processor on, or to the label. */
  ghost predicate Branched(w: World, img: Image, fr: Frame, st: Store, m: M, s': S, target: nat, r: Res, m': M) {
    r.Next? && r.fr.temps != [] && r.fr.temps[|r.fr.temps| - 1].Word? ==>
      var rest := r.fr.(temps := r.fr.temps[..|r.fr.temps| - 1]);
      && Reaches(img, m, m') && Tracks(w, s', rest) && Laid(w, rest, r.mem, m') && Kept(w, fr.bp, st, m.mem, r.mem, m'.mem)
      && Label(target) in w.table
      && m'.pc == if r.fr.temps[|r.fr.temps| - 1].value != 0 then s'.loc else w.table[Label(target)].loc
  }

  lemma {:induction false} GuardCorrect(w: World, img: Image, guard: Pushes, target: nat, s: S, fr: Frame, st: Store, m: M, fuel: nat)
    returns (m': M)
    requires Linked(w, img) && At(w, s, fr, st, m) && RunGuard(guard, target, s).Some? && RunGuard(guard, target, s).value.s.clean
    requires CodeAt(img, s.loc, RunGuard(guard, target, s).value.code)
    ensures Branched(w, img, fr, st, m, RunGuard(guard, target, s).value.s, target, EvalPushes(w, guard, fr, st, fuel), m')
    decreases fuel, 0, 3
  {
    hide Reaches, Linked, Kept, CodeAt, EvalPushes, RunPushes, Agree, NoKeys, TempsHold, ArgsHold, Sizes;
    PushesFacts(guard, s);
    var o := RunPushes(guard, s).value;
    var s1 := PopTemp(o.s).value;
    var loc := LabelLoc(s1, target).value;
    var tail := [PopEax, CmpEax0, Je(loc - (s1.loc + 10))];
    CodeAtSplit(img, s.loc, o.code, tail);
    m' := PushesCorrect(w, img, guard, s, fr, st, m, fuel);
    var r := EvalPushes(w, guard, fr, st, fuel);
    if r.Next? && r.fr.temps != [] && r.fr.temps[|r.fr.temps| - 1].Word? {
      var m0 := m';
      LaidTop(w, r.fr, r.mem, m0);
      var m1 := m0.(eax := Load(m0.mem, m0.esp), esp := m0.esp + 4, pc := m0.pc + 1);
      var m2 := m1.(zf := m1.eax == 0, pc := m0.pc + 4);
      m' := m2.(pc := if m2.zf then loc else m0.pc + 10);
      Exec3(img, m0, PopEax, m1, CmpEax0, m2, tail[2], m');
      ReachesTrans(img, m, m0, m');
      SizesThree(PopEax, CmpEax0, tail[2]);
      TracksPop(w, o.s, r.fr);
      LaidDrop(w, r.fr, r.mem, m0, |r.fr.temps| - 1, m');
    }
  }

  // ----- statements -----

  lemma SemiCorrect(w: World, img: Image, s: S, fr: Frame, st: Store, m: M, fuel: nat) returns (m': M)
    requires At(w, s, fr, st, m) && RunItem(Semi, s).Some? && CodeAt(img, s.loc, RunItem(Semi, s).value.code)
    ensures Follows(w, img, fr, st, m, RunItem(Semi, s).value.s, EvalItem(w, Semi, fr, st, fuel), m')
  {
    hide Reaches, Laid, Kept, CodeAt, Sizes;
    LaidFacts(w, fr, st, m);
    TracksPops(w, s, fr, s.temps);
    PopTempsFacts(s, s.temps);
    m' := m.(esp := m.esp + 4 * s.temps, pc := m.pc + 6);
    Exec1(img, m, AddEsp(4 * s.temps), m');
    SizesOne(AddEsp(4 * s.temps));
    LaidDrop(w, fr, st, m, 0, m');
    KeptSelf(w, fr.bp, st, m.mem);
  }

  lemma DeclareCorrect(w: World, img: Image, name: string, s: S, fr: Frame, st: Store, m: M, fuel: nat) returns (m': M)
    requires At(w, s, fr, st, m) && RunItem(Local(name), s).Some? && RunItem(Local(name), s).value.s.clean
    requires CodeAt(img, s.loc, RunItem(Local(name), s).value.code)
    ensures Follows(w, img, fr, st, m, RunItem(Local(name), s).value.s, EvalItem(w, Local(name), fr, st, fuel), m')
  {
    hide Reaches, Laid, Kept, CodeAt, Sizes;
    LaidFacts(w, fr, st, m);
    m' := m.(esp := m.esp - 4, pc := m.pc + 3);
    Exec1(img, m, SubEsp4, m');
    SizesOne(SubEsp4);
    if Room(w, fr, 1) {
      LaidLocal(w, fr, st, m, name, m');
      assert fr.names + Temps(0) + [name] == fr.names + [name] + Temps(0);
    }
  }

  lemma RetCorrect(w: World, img: Image, s: S, fr: Frame, st: Store, m: M, fuel: nat) returns (m': M)
    requires At(w, s, fr, st, m) && RunRet(s).Some? && CodeAt(img, s.loc, RunRet(s).value.code)
    ensures Follows(w, img, fr, st, m, RunRet(s).value.s, EvalItem(w, Ret, fr, st, fuel), m')
  {
    hide Reaches, Laid, Kept, CodeAt, Refines, EvalItem, Sizes, Follows;
    LaidFacts(w, fr, st, m);
    var m1 := m;
    var v := if fr.temps == [] then Undef else fr.temps[|fr.temps| - 1];
    RetIs(w, s, fr, st, fuel);
    if s.temps > 0 {
      m1 := m.(eax := Load(m.mem, m.esp), esp := m.esp + 4, pc := m.pc + 1);
      LaidTop(w, fr, st, m);
      Exec1Of4(img, m, PopEax, m1, RunRet(s).value.code);
      assert RunRet(s).value.code[1..] == [AddEsp(4 * (|s.stack| - 1)), PopEbp, Return];
    } else {
      ReachesSelf(img, m);
      UndefRefines(m.eax);
    }
    m' := LeaveCorrect(w, img, fr, st, m, v, m1, 4 * (if s.temps > 0 then |s.stack| - 1 else |s.stack|), RunRet(s).value.s);
  }

  /** add esp, n; pop ebp; ret: with the value already in eax. */
  lemma LeaveCorrect(w: World, img: Image, fr: Frame, st: Store, m: M, v: Val, m1: M, n: int, s': S) returns (m': M)
    requires Laid(w, fr, st, m) && Reaches(img, m, m1) && CodeAt(img, m1.pc, [AddEsp(n), PopEbp, Return])
    requires m1.mem == m.mem && m1.esp + n == fr.bp && Refines(v, m1.eax)
    ensures Follows(w, img, fr, st, m, s', Done(v, Forget(st, Cell(fr, |fr.names| - 1), fr.bp)), m')
  {
    hide Reaches, Laid, Kept, CodeAt, Agree, NoKeys, Refines;
    var m2 := m1.(esp := fr.bp, pc := m1.pc + 6);
    var m3 := m2.(ebp := Load(m.mem, fr.bp), esp := fr.bp + 4, pc := m2.pc + 1);
    m' := m3.(pc := Load(m.mem, fr.bp + 4), esp := fr.bp + 8);
    Exec3(img, m1, AddEsp(n), m2, PopEbp, m3, Return, m');
    ReachesTrans(img, m, m1, m');
    ForgetAll(w, fr, st, m);
  }

  lemma Exec1Of4(img: Image, m: M, i: Instr, m1: M, code: seq<Instr>)
    requires code != [] && code[0] == i && CodeAt(img, m.pc, code) && Exec(i, m) == Some(m1) && m1.pc == m.pc + Size(i)
    ensures Reaches(img, m, m1) && CodeAt(img, m1.pc, code[1..])
  {
    hide Exec, Reaches;
    CodeFirst(img, m.pc, code);
    ReachesOne(img, m, m1);
  }

  lemma UndefRefines(x: int)
    ensures Refines(Undef, x)
  {
  }

  /** A return forgets the locals of the frame. */
  lemma ForgetAll(w: World, fr: Frame, st: Store, m: M)
    requires Laid(w, fr, st, m)
    ensures var st' := Forget(st, Cell(fr, |fr.names| - 1), fr.bp);
            Agree(st', m.mem) && NoKeys(st', w.limit, fr.bp) && Kept(w, fr.bp, st, m.mem, st', m.mem)
  {
  }

  lemma {:induction false} IndirectCorrect(w: World, img: Image, operand: Operand, s: S, fr: Frame, st: Store, m: M, fuel: nat)
    returns (m': M)
    requires Linked(w, img) && At(w, s, fr, st, m) && RunIndirect(operand, s).Some?
    requires CodeAt(img, s.loc, RunIndirect(operand, s).value.code)
    ensures Follows(w, img, fr, st, m, RunIndirect(operand, s).value.s, EvalItem(w, Indirect(operand), fr, st, fuel), m')
    decreases fuel, 0, 4
  {
    hide Laid, Reaches, Linked, Kept, CodeAt, EvalCall, CallDone, Sizes;
    m' := m;
    if EvalItem(w, Indirect(operand), fr, st, fuel).Next? {
      var n := Decode(s, operand).value;
      var t := NoteArity(NoteOperand(s, operand), n);
      var s1 := PopTemp(t).value;
      var s2 := PopTemps(s1, n).value;
      var code := [PopEax, CallEax, AddEsp(4 * n), PushEax];
      var fr1 := fr.(temps := fr.temps[..|fr.temps| - 1]);
      var addr := fr.temps[|fr.temps| - 1].value;
      var ret := s.loc + 3;
      CallArity(w, addr, n, fr1, st, fuel);
      TracksPop(w, t, fr);
      TracksPops(w, s1, fr1, n);
      PopTempsFacts(s1, n);
      var m0 := IndirectJump(w, img, s, fr, st, m, addr, n);
      SizesConcat([PopEax, CallEax], [AddEsp(4 * n), PushEax]);
      assert code == [PopEax, CallEax] + [AddEsp(4 * n), PushEax];
      SizesTwo(PopEax, CallEax);
      SizesTwo(AddEsp(4 * n), PushEax);
      var m1 := CallCorrect(w, img, fr1, st, m0, addr, n, ret, fuel);
      m' := AfterCall(w, img, s2, fr1, st, m0, addr, n, ret, EvalCall(w, addr, n, fr1, st, fuel), m1, code);
      ReachesTrans(img, m, PushWord(m0, ret).(pc := addr), m');
    }
  }

  /** pop eax; call eax: m0 is the state between the two. */
  lemma IndirectJump(w: World, img: Image, s: S, fr: Frame, st: Store, m: M, addr: int, n: int) returns (m0: M)
    requires At(w, s, fr, st, m) && fr.temps != [] && fr.temps[|fr.temps| - 1] == Word(addr)
    requires CodeAt(img, s.loc, [PopEax, CallEax, AddEsp(4 * n), PushEax])
    ensures Reaches(img, m, PushWord(m0, s.loc + 3).(pc := addr)) && CodeAt(img, s.loc + 3, [AddEsp(4 * n), PushEax])
    ensures Laid(w, fr.(temps := fr.temps[..|fr.temps| - 1]), st, m0) && m0.mem == m.mem
  {
    hide Laid, Reaches, CodeAt, Sizes;
    LaidFacts(w, fr, st, m);
    LaidTop(w, fr, st, m);
    m0 := m.(eax := addr, esp := m.esp + 4, pc := m.pc + 1);
    LaidDrop(w, fr, st, m, |fr.temps| - 1, m0);
    assert [PopEax, CallEax, AddEsp(4 * n), PushEax] == [PopEax, CallEax] + [AddEsp(4 * n), PushEax];
    CodeAtSplit(img, s.loc, [PopEax, CallEax], [AddEsp(4 * n), PushEax]);
    SizesTwo(PopEax, CallEax);
    Exec2(img, m, PopEax, m0, CallEax, PushWord(m0, s.loc + 3).(pc := addr));
  }

  lemma {:induction false} ItemCorrect(w: World, img: Image, item: Item, s: S, fr: Frame, st: Store, m: M, fuel: nat) returns (m': M)
    requires Linked(w, img) && At(w, s, fr, st, m) && RunItem(item, s).Some? && RunItem(item, s).value.s.clean
    requires CodeAt(img, s.loc, RunItem(item, s).value.code)
    ensures Follows(w, img, fr, st, m, RunItem(item, s).value.s, EvalItem(w, item, fr, st, fuel), m')
    decreases fuel, 1, item, 1
  {
    hide Laid, Reaches, Linked, Kept, CodeAt, EvalItem, RunItem, Follows, At;
    match item
    case Expr(p) => ExprIs(w, p, s, fr, st, fuel); m' := PushCorrect(w, img, p, s, fr, st, m, fuel);
    case Semi => m' := SemiCorrect(w, img, s, fr, st, m, fuel);
    case Ret => RetIs(w, s, fr, st, fuel); m' := RetCorrect(w, img, s, fr, st, m, fuel);
    case Local(name) => m' := DeclareCorrect(w, img, name, s, fr, st, m, fuel);
    case Indirect(operand) => IndirectIs(operand, s); m' := IndirectCorrect(w, img, operand, s, fr, st, m, fuel);
    case If(_, _, _, _) => m' := IfCorrect(w, img, item, s, fr, st, m, fuel);
    case While(_, _, _, _) => m' := WhileCorrect(w, img, item, s, fr, st, m, fuel);
  }

  lemma ExprIs(w: World, p: Push, s: S, fr: Frame, st: Store, fuel: nat)
    ensures RunItem(Expr(p), s) == RunPush(p, s) && EvalItem(w, Expr(p), fr, st, fuel) == EvalPush(w, p, fr, st, fuel)
  {
  }

  lemma RetIs(w: World, s: S, fr: Frame, st: Store, fuel: nat)
    ensures RunItem(Ret, s) == RunRet(s)
    ensures EvalItem(w, Ret, fr, st, fuel) == Done(if fr.temps == [] then Undef else fr.temps[|fr.temps| - 1],
                                                   Forget(st, Cell(fr, |fr.names| - 1), fr.bp))
  {
  }

  lemma IndirectIs(operand: Operand, s: S)
    ensures RunItem(Indirect(operand), s) == RunIndirect(operand, s)
  {
  }

  // ----- if -----

  /** Where the first block of an `if` falls through, the jump over the second leads to the end. */
  lemma SkipElse(w: World, img: Image, elseLab: nat, els: Else, s: S, fr: Frame, st: Store, m: M) returns (m': M)
    requires At(w, s, fr, st, m) && RunElse(elseLab, els, s).Some? && RunElse(elseLab, els, s).value.s.clean
    requires CodeAt(img, s.loc, RunElse(elseLab, els, s).value.code)
    ensures Reaches(img, m, m') && At(w, RunElse(elseLab, els, s).value.s, fr, st, m') && m'.mem == m.mem
  {
    hide Reaches, CodeAt, RunBlock, Agree, NoKeys, TempsHold, ArgsHold;
    ShapeIs(s, fr.names);
    ElseFacts(elseLab, els, s);
    ElseShape(elseLab, els, s);
    match els
    case NoElse =>
      m' := m;
      ReachesSelf(img, m);
    case ElseBlock(fiLab, block) =>
      var fi := w.table[Label(fiLab)].loc;
      var jump := [Jmp(fi - (s.loc + 5))];
      var s1 := Emit(s, jump);
      BlockFacts(block, s1);
      CodeAtSplit(img, s.loc, jump, RunBlock(block, s1).value.code);
      m' := m.(pc := fi);
      Exec1(img, m, jump[0], m');
  }

  function EvalElse(w: World, els: Else, fr: Frame, st: Store, fuel: nat): Res {
    match els
    case NoElse => Next(fr, st)
    case ElseBlock(_, block) => EvalBlock(w, block, fr, st, fuel)
  }

  /** The code at the label of the `else`. */
  lemma {:induction false} ElseCorrect(w: World, img: Image, elseLab: nat, els: Else, s: S, fr: Frame, st: Store, m: M, fuel: nat)
    returns (m': M)
    requires Linked(w, img) && Tracks(w, s, fr) && Laid(w, fr, st, m) && RunElse(elseLab, els, s).Some? && RunElse(elseLab, els, s).value.s.clean
    requires Label(elseLab) in w.table && m.pc == w.table[Label(elseLab)].loc && CodeAt(img, s.loc, RunElse(elseLab, els, s).value.code)
    ensures Follows(w, img, fr, st, m, RunElse(elseLab, els, s).value.s, EvalElse(w, els, fr, st, fuel), m')
    decreases fuel, 1, els, 0
  {
    hide Reaches, CodeAt, RunBlock, EvalBlock, Laid, Linked, Kept, Returned;
    match els
    case NoElse =>
      m' := m;
      ReachesSelf(img, m);
      KeptSelf(w, fr.bp, st, m.mem);
    case ElseBlock(fiLab, block) =>
      var jump := [Jmp(w.table[Label(fiLab)].loc - (s.loc + 5))];
      var s1 := Emit(s, jump);
      SizesOne(jump[0]);
      BlockFacts(block, s1);
      CodeAtSplit(img, s.loc, jump, RunBlock(block, s1).value.code);
      m' := BlockCorrect(w, img, block, s1, fr, st, m, fuel);
  }

  lemma {:induction false} IfCorrect(w: World, img: Image, item: Item, s: S, fr: Frame, st: Store, m: M, fuel: nat) returns (m': M)
    requires item.If? && Linked(w, img) && At(w, s, fr, st, m) && RunItem(item, s).Some? && RunItem(item, s).value.s.clean
    requires CodeAt(img, s.loc, RunItem(item, s).value.code)
    ensures Follows(w, img, fr, st, m, RunItem(item, s).value.s, EvalItem(w, item, fr, st, fuel), m')
    decreases fuel, 1, item, 0
  {
    hide Reaches, CodeAt, RunBlock, EvalBlock, Laid, Linked, Kept, Returned, RunGuard, RunElse, EvalPushes, WellShaped;
    var If(guard, elseLab, thn, els) := item;
    var g := RunGuard(guard, elseLab, s).value;
    var t := RunBlock(thn, g.s).value;
    var e := RunElse(elseLab, els, t.s).value;
    GuardFacts(guard, elseLab, s);
    BlockFacts(thn, g.s);
    ElseFacts(elseLab, els, t.s);
    CodeAtSplit3(img, s.loc, g.code, t.code, e.code);
    m' := GuardCorrect(w, img, guard, elseLab, s, fr, st, m, fuel);
    var r := EvalPushes(w, guard, fr, st, fuel);
    if r.Next? && r.fr.temps != [] && r.fr.temps[|r.fr.temps| - 1].Word? {
      var rest := r.fr.(temps := r.fr.temps[..|r.fr.temps| - 1]);
      var m1 := m';
      if r.fr.temps[|r.fr.temps| - 1].value != 0 {
        m' := ThenCorrect(w, img, elseLab, thn, els, g.s, rest, r.mem, m1, fuel);
        FollowsThen(w, img, fr, st, m, rest, r.mem, m1, e.s, EvalBlock(w, thn, rest, r.mem, fuel), m');
      } else {
        ShapeIs(g.s, rest.names);
        BlockShape(thn, g.s);
        m' := ElseCorrect(w, img, elseLab, els, t.s, rest, r.mem, m1, fuel);
        FollowsThen(w, img, fr, st, m, rest, r.mem, m1, e.s, EvalElse(w, els, rest, r.mem, fuel), m');
      }
    }
  }

  /** The first block, and the way over the second. */
  lemma {:induction false} ThenCorrect(w: World, img: Image, elseLab: nat, thn: Block, els: Else, s: S, fr: Frame, st: Store, m: M, fuel: nat)
    returns (m': M)
    requires Linked(w, img) && At(w, s, fr, st, m) && RunBlock(thn, s).Some? && RunBlock(thn, s).value.s.clean
    requires RunElse(elseLab, els, RunBlock(thn, s).value.s).Some? && RunElse(elseLab, els, RunBlock(thn, s).value.s).value.s.clean
    requires CodeAt(img, s.loc, RunBlock(thn, s).value.code)
    requires CodeAt(img, RunBlock(thn, s).value.s.loc, RunElse(elseLab, els, RunBlock(thn, s).value.s).value.code)
    ensures Follows(w, img, fr, st, m, RunElse(elseLab, els, RunBlock(thn, s).value.s).value.s, EvalBlock(w, thn, fr, st, fuel), m')
    decreases fuel, 1, thn, 3
  {
    hide Reaches, CodeAt, RunBlock, EvalBlock, Laid, Linked, Kept, Returned, RunElse, At;
    AtParts(w, s, fr, st, m);
    var t := RunBlock(thn, s).value;
    m' := BlockCorrect(w, img, thn, s, fr, st, m, fuel);
    var r := EvalBlock(w, thn, fr, st, fuel);
    if r.Next? {
      var m1 := m';
      m' := SkipElse(w, img, elseLab, els, t.s, r.fr, r.mem, m1);
      KeptSelf(w, fr.bp, r.mem, m1.mem);
      FollowsThen(w, img, fr, st, m, r.fr, r.mem, m1, RunElse(elseLab, els, t.s).value.s, r, m');
    }
  }

  // ----- while -----

  lemma NextFollows(w: World, img: Image, fr: Frame, st: Store, m: M, s': S, fr': Frame, st': Store, m': M)
    requires Reaches(img, m, m') && Tracks(w, s', fr') && Laid(w, fr', st', m') && m'.pc == s'.loc
    requires fr'.bp == fr.bp && Kept(w, fr.bp, st, m.mem, st', m'.mem)
    ensures Follows(w, img, fr, st, m, s', Next(fr', st'), m')
  {
  }

  /** The jump at the end of a loop's body leads back to its guard, with everything in place. */
  lemma BackEdge(w: World, img: Image, s: S, fr: Frame, st: Store, m: M, s': S, r: Res, m1: M, m2: M)
    requires r.Next? && Follows(w, img, fr, st, m, s', r, m1) && CodeAt(img, s'.loc, [Jmp(s.loc - (s'.loc + 5))])
    requires m2 == m1.(pc := s.loc)
    requires s.stage == 1 && s.table == w.table && s'.stack == s.stack && s'.temps == s.temps
    ensures Reaches(img, m, m2) && At(w, s, r.fr, r.mem, m2) && Kept(w, fr.bp, st, m.mem, r.mem, m2.mem) && r.fr.bp == fr.bp
  {
    hide Reaches, Laid, Kept, CodeAt;
    Exec1(img, m1, Jmp(s.loc - (s'.loc + 5)), m2);
    ReachesTrans(img, m, m1, m2);
    LaidSame(w, r.fr, r.mem, m1, m2);
  }

  lemma DoneFollows(w: World, img: Image, fr: Frame, st: Store, m: M, s: S, s': S, r: Res, m': M)
    requires r.Done? && Follows(w, img, fr, st, m, s, r, m')
    ensures Follows(w, img, fr, st, m, s', r, m')
  {
  }

  lemma {:induction false} WhileCorrect(w: World, img: Image, item: Item, s: S, fr: Frame, st: Store, m: M, fuel: nat) returns (m': M)
    requires item.While? && Linked(w, img) && At(w, s, fr, st, m) && RunItem(item, s).Some? && RunItem(item, s).value.s.clean
    requires CodeAt(img, s.loc, RunItem(item, s).value.code)
    ensures Follows(w, img, fr, st, m, RunItem(item, s).value.s, EvalItem(w, item, fr, st, fuel), m')
    decreases fuel, 1, item, 0
  {
    hide Reaches, CodeAt, RunBlock, EvalBlock, Laid, Linked, Kept, Returned, RunGuard, EvalPushes, WellShaped, Follows;
    WhileParts(item, s);
    var While(restartLab, endLab, guard, body) := item;
    var g := RunGuard(guard, endLab, s).value;
    var n := NoteLoop(s, g.s);
    var b := RunBlock(body, n).value;
    var restart := w.table[Label(restartLab)].loc;
    var jump := [Jmp(restart - (b.s.loc + 5))];
    var o := RunItem(item, s).value;
    GuardFacts(guard, endLab, s);
    BlockFacts(body, n);
    CodeAtSplit3(img, s.loc, g.code, b.code, jump);
    m' := GuardCorrect(w, img, guard, endLab, s, fr, st, m, fuel);
    var r := EvalPushes(w, guard, fr, st, fuel);
    if r.Next? && r.fr.temps != [] && r.fr.temps[|r.fr.temps| - 1].Word? {
      var rest := r.fr.(temps := r.fr.temps[..|r.fr.temps| - 1]);
      var m1 := m';
      LoopStack(item, s, fr.names);
      if r.fr.temps[|r.fr.temps| - 1].value == 0 {
        NextFollows(w, img, fr, st, m, o.s, rest, r.mem, m1);
      } else {
        m' := BlockCorrect(w, img, body, n, rest, r.mem, m1, fuel);
        var r2 := EvalBlock(w, body, rest, r.mem, fuel);
        if r2.Next? && fuel > 0 {
          var m2 := m'.(pc := restart);
          BackEdge(w, img, s, rest, r.mem, m1, b.s, r2, m', m2);
          m' := ItemCorrect(w, img, item, s, r2.fr, r2.mem, m2, fuel - 1);
          FollowsThen(w, img, rest, r.mem, m1, r2.fr, r2.mem, m2, o.s, EvalItem(w, item, r2.fr, r2.mem, fuel - 1), m');
          FollowsThen(w, img, fr, st, m, rest, r.mem, m1, o.s, EvalItem(w, item, r2.fr, r2.mem, fuel - 1), m');
        } else if r2.Done? {
          DoneFollows(w, img, rest, r.mem, m1, b.s, o.s, r2, m');
          FollowsThen(w, img, fr, st, m, rest, r.mem, m1, o.s, r2, m');
        } else {
          StuckFollows(w, img, fr, st, m, o.s, m');
        }
      }
    } else {
      StuckFollows(w, img, fr, st, m, o.s, m');
    }
  }

  // ----- blocks -----

  lemma {:induction false} ItemsCorrect(w: World, img: Image, b: Block, s: S, fr: Frame, st: Store, m: M, fuel: nat) returns (m': M)
    requires Linked(w, img) && At(w, s, fr, st, m) && RunItems(b, s).Some? && RunItems(b, s).value.s.clean
    requires CodeAt(img, s.loc, RunItems(b, s).value.code)
    ensures Follows(w, img, fr, st, m, RunItems(b, s).value.s, EvalItems(w, b, fr, st, fuel), m')
    decreases fuel, 1, b, 1
  {
    hide Laid, Reaches, Linked, Kept, CodeAt, EvalItem, RunItem, Tracks, Returned;
    match b
    case Nil =>
      m' := m;
      ReachesSelf(img, m);
      KeptSelf(w, fr.bp, st, m.mem);
    case Cons(item, rest) =>
      ItemFacts(item, s);
      var o := RunItem(item, s).value;
      ItemsFacts(rest, o.s);
      CodeAtSplit(img, s.loc, o.code, RunItems(rest, o.s).value.code);
      m' := ItemCorrect(w, img, item, s, fr, st, m, fuel);
      var r := EvalItem(w, item, fr, st, fuel);
      var s' := RunItems(rest, o.s).value.s;
      if r.Next? {
        var m1 := m';
        m' := ItemsCorrect(w, img, rest, o.s, r.fr, r.mem, m1, fuel);
        FollowsThen(w, img, fr, st, m, r.fr, r.mem, m1, s', EvalItems(w, rest, r.fr, r.mem, fuel), m');
      } else if r.Done? {
        DoneFollows(w, img, fr, st, m, o.s, s', r, m');
      }
  }

  /** The code of the closing brace takes the locals of the block off the stack. */
  lemma CloseCorrect(w: World, img: Image, s: S, fr: Frame, o: Out, fr1: Frame, st1: Store, m1: M) returns (m': M)
    requires Tracks(w, s, fr) && At(w, o.s, fr1, st1, m1) && fr1.bp == fr.bp && |fr.names| <= |fr1.names|
    requires CloseBlock(s, o).Some? && CloseBlock(s, o).value.s.clean
    requires CodeAt(img, o.s.loc, [AddEsp(4 * (|o.s.stack| - |s.stack|))])
    ensures var st' := Forget(st1, Cell(fr, |fr1.names| - 1), Cell(fr, |fr.names| - 1));
            && Reaches(img, m1, m') && Kept(w, fr.bp, st1, m1.mem, st', m'.mem)
            && At(w, CloseBlock(s, o).value.s, fr1.(names := fr1.names[..|fr.names|]), st', m')
  {
    hide Reaches, Laid, Kept, CodeAt, Sizes;
    LaidFacts(w, fr1, st1, m1);
    var n := 4 * (|o.s.stack| - |s.stack|);
    m' := m1.(esp := m1.esp + n, pc := m1.pc + 6);
    Exec1(img, m1, AddEsp(n), m');
    SizesOne(AddEsp(n));
    LaidForget(w, fr1, st1, m1, |fr.names|, m');
    assert Cell(fr, |fr1.names| - 1) == Cell(fr1, |fr1.names| - 1) && Cell(fr, |fr.names| - 1) == Cell(fr1, |fr.names| - 1);
    assert o.s.stack[..|s.stack|] == fr1.names[..|fr.names|] + Temps(|fr1.temps|);
  }

  lemma {:induction false} BlockCorrect(w: World, img: Image, b: Block, s: S, fr: Frame, st: Store, m: M, fuel: nat) returns (m': M)
    requires Linked(w, img) && At(w, s, fr, st, m) && RunBlock(b, s).Some? && RunBlock(b, s).value.s.clean
    requires CodeAt(img, s.loc, RunBlock(b, s).value.code)
    ensures Follows(w, img, fr, st, m, RunBlock(b, s).value.s, EvalBlock(w, b, fr, st, fuel), m')
    decreases fuel, 1, b, 2
  {
    hide Laid, Reaches, Linked, Kept, CodeAt, EvalItems, RunItems, Tracks, Returned, Forget;
    ItemsFacts(b, s);
    var o := RunItems(b, s).value;
    var s' := RunBlock(b, s).value.s;
    CodeAtSplit(img, s.loc, o.code, [AddEsp(4 * (|o.s.stack| - |s.stack|))]);
    m' := ItemsCorrect(w, img, b, s, fr, st, m, fuel);
    var r := EvalItems(w, b, fr, st, fuel);
    if r.Next? && |fr.names| <= |r.fr.names| {
      var m1 := m';
      m' := CloseCorrect(w, img, s, fr, o, r.fr, r.mem, m1);
      ReachesTrans(img, m, m1, m');
      KeptTrans(w, fr.bp, st, m.mem, r.mem, m1.mem, EvalBlock(w, b, fr, st, fuel).mem, m'.mem);
    } else if r.Done? {
      DoneFollows(w, img, fr, st, m, o.s, s', r, m');
    }
  }
}
