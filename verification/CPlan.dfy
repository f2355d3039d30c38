/** What the C compiler orders for a statement, the same in all its stages (asmg/c_compile.g): which labels
    it makes, fixes and jumps to, and how it moves the stack.  An expression is one order: it pushes and pops
    as much as it should, and the labels of its own that it makes are left out.  Its order notes how deep the
    stack is then, as lctx_stack_pos tells. */
module CPlan {
  import opened Options
  import opened CPaths
  import opened CStatements

  /** Go and GoIfZero are jumps out of depth `depth`; they bring the stack to the depth of the label if
      `rewind` is set. */
  datatype Order =
    | Push(bytes: nat)
    | Pop(bytes: nat)
    | Do(id: nat, depth: nat)
    | Fix(lab: Label, depth: nat)
    | Go(lab: Label, depth: nat, rewind: bool)
    | GoIfZero(lab: Label, depth: nat, rewind: bool, test: Test)
    | Finish

  /** The number of the next label, the depth of the variables in scope, and the labels in force. */
  datatype Locals = Locals(
    next: nat, depth: nat, brk: Option<nat>, cont: Option<nat>, ret: nat,
    dflt: Option<nat>, cases: Option<seq<nat>>, gotos: map<string, nat>)

  datatype Planned = Planned(st: Locals, orders: seq<Order>)

  /** An expression that may be left out. */
  function Eval(e: Option<nat>, d: nat): seq<Order> {
    if e.Some? then [Do(e.value, d)] else []
  }

  /** The test of a guard that may be left out. */
  function TestOf(guard: Option<nat>, d: nat): Test {
    if guard.Some? then Guard(guard.value, d) else One
  }

  // ----- loops -----

  /** A loop that makes its labels from n on has `continue` go to n and `break` to n + 1. */
  function LoopLabels(kind: Kind): nat {
    match kind
    case For(_, _, _) => 4
    case While(_) => 2
    case DoWhile(_) => 3
  }

  /** From where the turns of a loop start up to its body; a `for` has its iteration expression there, between
      the label for `continue` and the jump to the check. */
  function Head(kind: Kind, n: nat, d: nat): seq<Order> {
    match kind
    case For(_, check, step) =>
      [Fix(At(n + 2), d), GoIfZero(At(n + 1), d, false, TestOf(check, d)), Go(At(n + 3), d, false), Fix(At(n), d)]
      + Eval(step, d) + [Go(At(n + 2), d, false), Fix(At(n + 3), d)]
    case While(guard) => [Fix(At(n), d), GoIfZero(At(n + 1), d, false, Guard(guard, d))]
    case DoWhile(_) => [Fix(At(n + 2), d)]
  }

  function Tail(kind: Kind, n: nat, d: nat): seq<Order> {
    match kind
    case DoWhile(guard) =>
      [Fix(At(n), d), GoIfZero(At(n + 1), d, false, Guard(guard, d)), Go(At(n + 2), d, false), Fix(At(n + 1), d)]
    case _ => [Go(At(n), d, false), Fix(At(n + 1), d)]
  }

  // ----- switches -----

  /** One comparison: the case value is pushed and popped, then the value, then the jump, and the value is
      pushed again. */
  function Compare(l: nat, d: nat): seq<Order> {
    [Push(8), Pop(8), Pop(8), GoIfZero(At(l), d, true, Equals), Push(8)]
  }

  /** The comparisons of a switch at depth d, and the end of its value. */
  function Comparisons(labs: seq<nat>, d: nat): seq<Order> {
    if labs == [] then [Pop(8)] else Compare(labs[0], d) + Comparisons(labs[1..], d)
  }

  function Dispatch(labs: seq<nat>, dflt: Option<nat>, d: nat): seq<Order> {
    Comparisons(labs, d) + if dflt.Some? then [Go(At(dflt.value), d, true)] else []
  }

  lemma {:induction false} ComparisonsFixNone(labs: seq<nat>, d: nat)
    ensures forall o :: o in Comparisons(labs, d) ==> !o.Fix?
    decreases |labs|
  {
    if labs != [] {
      ComparisonsFixNone(labs[1..], d);
    }
  }

  // ----- statements -----

  /** The label of that name: a new one the first time that it is met. */
  function Name(st: Locals, x: string): (r: (nat, Locals)) {
    if x in st.gotos then (st.gotos[x], st)
    else (st.next, st.(next := st.next + 1, gotos := st.gotos[x := st.next]))
  }

  /** What no statement changes; labels are only added. */
  predicate Kept(st: Locals, r: Locals) {
    && r.next >= st.next && r.brk == st.brk && r.cont == st.cont && r.ret == st.ret
    && (r.cases.Some? <==> st.cases.Some?)
  }

  // For each construct that has parts: the locals that its parts see, and what it makes of their plans.

  function AsBlock(st: Locals, p: Option<Planned>): Option<Planned>
    requires p.Some? ==> p.value.st.depth >= st.depth
  {
    if p.None? then None
    else Some(Planned(p.value.st.(depth := st.depth), p.value.orders + [Pop(p.value.st.depth - st.depth)]))
  }

  function InIf(st: Locals): Locals {
    st.(next := st.next + 2)
  }

  function IfOrders(guard: nat, n: nat, d: nat, p: seq<Order>, q: seq<Order>): seq<Order> {
    [GoIfZero(At(n), d, false, Guard(guard, d))] + p + [Go(At(n + 1), d, false), Fix(At(n), d)] + q + [Fix(At(n + 1), d)]
  }

  function AsIf(guard: nat, st: Locals, p: Planned, q: Option<Planned>): Option<Planned> {
    if q.None? then None else Some(Planned(q.value.st, IfOrders(guard, st.next, st.depth, p.orders, q.value.orders)))
  }

  function InLoop(kind: Kind, st: Locals): Locals {
    st.(next := st.next + LoopLabels(kind), cont := Some(st.next), brk := Some(st.next + 1))
  }

  function AsLoop(kind: Kind, st: Locals, p: Option<Planned>): Option<Planned> {
    if p.None? then None
    else Some(Planned(p.value.st.(cont := st.cont, brk := st.brk),
                      Eval(Before(kind), st.depth) + (Head(kind, st.next, st.depth) + p.value.orders + Tail(kind, st.next, st.depth))))
  }

  function InSwitch(st: Locals): Locals {
    st.(next := st.next + 2, brk := Some(st.next), dflt := None, cases := Some([]))
  }

  function SwitchOrders(on: nat, n: nat, d: nat, body: seq<Order>, dispatch: seq<Order>): seq<Order> {
    [Do(on, d), Push(8), Go(AtValue(n + 1), d, false)] + body + [Go(At(n), d, false), Fix(AtValue(n + 1), d)] + dispatch + [Fix(At(n), d)]
  }

  function AsSwitch(on: nat, st: Locals, p: Option<Planned>): Option<Planned>
    requires p.Some? ==> p.value.st.cases.Some?
  {
    if p.None? then None
    else Some(Planned(p.value.st.(brk := st.brk, dflt := st.dflt, cases := st.cases),
                      SwitchOrders(on, st.next, st.depth, p.value.orders,
                                   Dispatch(p.value.st.cases.value, p.value.st.dflt, st.depth))))
  }

  function InCase(st: Locals): Locals
    requires st.cases.Some?
  {
    st.(next := st.next + 1, cases := Some(st.cases.value + [st.next]))
  }

  function InDefault(st: Locals): Locals {
    st.(next := st.next + 1, dflt := Some(st.next))
  }

  /** Behind the label l. */
  function Behind(l: nat, st: Locals, p: Option<Planned>): Option<Planned> {
    if p.None? then None else Some(Planned(p.value.st, [Fix(At(l), st.depth)] + p.value.orders))
  }

  /** cctx_compile_statement; None where a check fails, or there is nothing to leave or to continue. */
  function PlanStmt(s: Stmt, st: Locals): (r: Option<Planned>)
    ensures r.Some? ==> r.value.st.depth == st.depth && Kept(st, r.value.st)
    decreases s
  {
    var d := st.depth;
    match s
    case Empty => Some(Planned(st, []))
    case Expr(id) => Some(Planned(st, [Do(id, d)]))
    case Compound(items) => AsBlock(st, PlanItems(items, st))
    case Return(value) => Some(Planned(st, Eval(value, d) + [Go(At(st.ret), d, true)]))
    case Break => if st.brk.None? then None else Some(Planned(st, [Go(At(st.brk.value), d, true)]))
    case Continue => if st.cont.None? then None else Some(Planned(st, [Go(At(st.cont.value), d, true)]))
    case If(guard, thn, els) =>
      var p := PlanStmt(thn, InIf(st));
      if p.None? then None else AsIf(guard, st, p.value, PlanStmt(els, p.value.st))
    case Loop(kind, body) => AsLoop(kind, st, PlanStmt(body, InLoop(kind, st)))
    case Switch(on, body) => AsSwitch(on, st, PlanStmt(body, InSwitch(st)))
    case Case(stmt) => if st.cases.None? then None else Behind(st.next, st, PlanStmt(stmt, InCase(st)))
    case Default(stmt) =>
      if st.cases.None? || st.dflt.Some? then None else Behind(st.next, st, PlanStmt(stmt, InDefault(st)))
    case Goto(x) =>
      var (l, st') := Name(st, x);
      Some(Planned(st', [Go(At(l), d, true)]))
    case Labeled(x, stmt) =>
      var (l, st') := Name(st, x);
      Behind(l, st, PlanStmt(stmt, st'))
  }

  /** The loop of cctx_compile_block. */
  function PlanItems(items: Items, st: Locals): (r: Option<Planned>)
    ensures r.Some? ==> r.value.st.depth >= st.depth && Kept(st, r.value.st)
    decreases items
  {
    match items
    case End => Some(Planned(st, []))
    case Declare(footprint, init, rest) =>
      (match PlanItems(rest, st.(depth := st.depth + footprint))
       case None => None
       case Some(p) => Some(Planned(p.st, [Push(footprint)] + (Eval(init, st.depth + footprint) + p.orders))))
    case Then(head, rest) =>
      (match PlanStmt(head, st)
       case None => None
       case Some(p) =>
         match PlanItems(rest, p.st)
         case None => None
         case Some(q) => Some(Planned(q.st, p.orders + q.orders)))
  }

  /** The locals of a function whose labels are made from n on; the first is where `return` goes. */
  function Fresh(n: nat): Locals {
    Locals(n + 1, 0, None, None, n, None, None, map[])
  }

  /** cctx_compile_function, on the body of a function. */
  function PlanFunction(body: Items, n: nat): Option<Planned> {
    match PlanStmt(Compound(body), Fresh(n))
    case None => None
    case Some(p) => Some(Planned(p.st, p.orders + [Fix(At(n), 0), Finish]))
  }

  // ----- the code -----

  /** cctx_gen_label_jump works out how far to move the stack from the recorded position; in the last stage,
      the only one that stores code, all positions are known. */
  function Moved(pos: Positions, l: Label, depth: nat, rewind: bool): int {
    if rewind && l.id < |pos| && pos[l.id].Some? then depth - pos[l.id].value else 0
  }

  function Coded(o: Order, pos: Positions): Instr {
    match o
    case Push(n) => Grow(n)
    case Pop(n) => Shrink(n)
    case Do(id, depth) => Act(id, depth)
    case Fix(l, _) => Mark(l)
    case Go(l, depth, rewind) => Jump(l, Moved(pos, l, depth, rewind))
    case GoIfZero(l, depth, rewind, test) => JumpIfZero(l, Moved(pos, l, depth, rewind), test)
    case Finish => Leave
  }

  function Code(orders: seq<Order>, pos: Positions): seq<Instr> {
    seq(|orders|, i requires 0 <= i < |orders| => Coded(orders[i], pos))
  }

  lemma CodeConcat(a: seq<Order>, b: seq<Order>, pos: Positions)
    ensures Code(a + b, pos) == Code(a, pos) + Code(b, pos)
  {
  }

  // ----- which statements get a plan -----

  /** The statement has a plan exactly if the language admits where its parts stand, and the plan notes its
      default label. */
  predicate PlannedRight(s: Stmt, st: Locals) {
    var seen := if st.dflt.Some? then 1 else 0;
    && (PlanStmt(s, st).Some? <==> Scoped(s, st.brk.Some?, st.cont.Some?, st.cases.Some?) && seen + Defaults(s) <= 1)
    && (PlanStmt(s, st).Some? ==> (if PlanStmt(s, st).value.st.dflt.Some? then 1 else 0) == seen + Defaults(s))
  }

  lemma {:induction false} PlannedIffScoped(s: Stmt, st: Locals)
    ensures PlannedRight(s, st)
    decreases s, 1
  {
    hide PlannedRight;
    match s {
      case Compound(_) => BlockPlannedRight(s, st);
      case If(_, _, _) => IfPlannedRight(s, st);
      case Loop(_, _) => LoopPlannedRight(s, st);
      case Switch(_, _) => SwitchPlannedRight(s, st);
      case Case(_) => LabelPlannedRight(s, st);
      case Default(_) => LabelPlannedRight(s, st);
      case Labeled(_, _) => LabelPlannedRight(s, st);
      case _ => JumpPlannedRight(s, st);
    }
  }

  lemma JumpPlannedRight(s: Stmt, st: Locals)
    requires s.Empty? || s.Expr? || s.Return? || s.Break? || s.Continue? || s.Goto?
    ensures PlannedRight(s, st)
  {
  }

  lemma {:induction false} BlockPlannedRight(s: Stmt, st: Locals)
    requires s.Compound?
    ensures PlannedRight(s, st)
    decreases s, 0
  {
    ItemsPlannedIffScoped(s.items, st);
  }

  lemma {:induction false} IfPlannedRight(s: Stmt, st: Locals)
    requires s.If?
    ensures PlannedRight(s, st)
    decreases s, 0
  {
    var st' := InIf(st);
    PlannedIffScoped(s.thn, st');
    if PlanStmt(s.thn, st').Some? {
      PlannedIffScoped(s.els, PlanStmt(s.thn, st').value.st);
    }
  }

  lemma {:induction false} LoopPlannedRight(s: Stmt, st: Locals)
    requires s.Loop?
    ensures PlannedRight(s, st)
    decreases s, 0
  {
    hide Head, Tail;
    PlannedIffScoped(s.body, InLoop(s.kind, st));
  }

  lemma {:induction false} SwitchPlannedRight(s: Stmt, st: Locals)
    requires s.Switch?
    ensures PlannedRight(s, st)
    decreases s, 0
  {
    hide Dispatch;
    PlannedIffScoped(s.body, InSwitch(st));
  }

  lemma {:induction false} LabelPlannedRight(s: Stmt, st: Locals)
    requires s.Case? || s.Default? || s.Labeled?
    ensures PlannedRight(s, st)
    decreases s, 0
  {
    var n := st.next;
    match s {
      case Case(stmt) =>
        if st.cases.Some? {
          PlannedIffScoped(stmt, InCase(st));
        }
      case Default(stmt) => PlannedIffScoped(stmt, InDefault(st));
      case Labeled(x, stmt) => PlannedIffScoped(stmt, Name(st, x).1);
    }
  }

  lemma {:induction false} ItemsPlannedIffScoped(items: Items, st: Locals)
    ensures var seen := if st.dflt.Some? then 1 else 0;
            && (PlanItems(items, st).Some?
                <==> ScopedIn(items, st.brk.Some?, st.cont.Some?, st.cases.Some?) && seen + DefaultsIn(items) <= 1)
            && (PlanItems(items, st).Some? ==>
                  (if PlanItems(items, st).value.st.dflt.Some? then 1 else 0) == seen + DefaultsIn(items))
    decreases items
  {
    hide PlanStmt;
    match items {
      case End =>
      case Declare(footprint, _, rest) => ItemsPlannedIffScoped(rest, st.(depth := st.depth + footprint));
      case Then(head, rest) =>
        PlannedIffScoped(head, st);
        if PlanStmt(head, st).Some? {
          ItemsPlannedIffScoped(rest, PlanStmt(head, st).value.st);
        }
    }
  }

  /** A function does, if it is scoped: outside switches there is no default. */
  lemma FunctionPlanned(body: Items, n: nat)
    ensures PlanFunction(body, n).Some? <==> ScopedIn(body, false, false, false)
  {
    PlannedIffScoped(Compound(body), Fresh(n));
    assert Scoped(Compound(body), false, false, false) == ScopedIn(body, false, false, false);
    if ScopedIn(body, false, false, false) {
      NoDefaultsIn(body, false, false);
    }
  }

  lemma {:induction false} NoDefaults(s: Stmt, brk: bool, cont: bool)
    requires Scoped(s, brk, cont, false)
    ensures Defaults(s) == 0
    decreases s
  {
    match s {
      case Compound(items) => NoDefaultsIn(items, brk, cont);
      case If(_, thn, els) =>
        NoDefaults(thn, brk, cont);
        NoDefaults(els, brk, cont);
      case Loop(_, body) => NoDefaults(body, true, true);
      case Labeled(_, stmt) => NoDefaults(stmt, brk, cont);
      case _ =>
    }
  }

  lemma {:induction false} NoDefaultsIn(items: Items, brk: bool, cont: bool)
    requires ScopedIn(items, brk, cont, false)
    ensures DefaultsIn(items) == 0
    decreases items
  {
    match items {
      case End =>
      case Declare(_, _, rest) => NoDefaultsIn(rest, brk, cont);
      case Then(s, rest) =>
        NoDefaults(s, brk, cont);
        NoDefaultsIn(rest, brk, cont);
    }
  }
}
