/** The planned code does what the statements mean: the same expressions in the same order, whatever the
    guards decide, by fall-through, break, continue, return, goto and the dispatch of switches - and where it
    keeps its depths, each with the stack just as deep as the variables in scope (asmg/c_compile.g). */
module CFollows {
  import opened Options
  import opened CPaths
  import opened CStatements
  import opened CPlan
  import opened CLabels
  import opened CProgram
  import opened M = CMeaning

  // ----- the processor -----

  /** Where control is, the decisions to come, and the expressions so far with the depths noted beside them. */
  datatype Conf = Conf(i: nat, dec: seq<bool>, trace: seq<Event>)

  /** Where the label stands, or the end. */
  function Where(code: seq<Instr>, l: Label): nat {
    if code == [] then 0 else if code[0] == Mark(l) then 0 else 1 + Where(code[1..], l)
  }

  function Next(code: seq<Instr>, c: Conf): Option<Conf> {
    if c.i >= |code| then None
    else
      match code[c.i]
      case Grow(_) => Some(c.(i := c.i + 1))
      case Shrink(_) => Some(c.(i := c.i + 1))
      case Mark(_) => Some(c.(i := c.i + 1))
      case Act(id, depth) => Some(c.(i := c.i + 1, trace := c.trace + [Event(id, depth)]))
      case Jump(l, _) => Some(c.(i := Where(code, l)))
      case JumpIfZero(l, _, test) =>
        if test.One? then Some(c.(i := c.i + 1))
        else if c.dec == [] then None
        else Some(Conf(if c.dec[0] then Where(code, l) else c.i + 1, c.dec[1..], c.trace + if test.Guard? then [Event(test.id, test.depth)] else []))
      case Leave => None
  }

  function Steps(code: seq<Instr>, c: Conf, n: nat): Option<Conf>
    decreases n
  {
    if n == 0 then Some(c)
    else
      match Next(code, c)
      case None => None
      case Some(d) => Steps(code, d, n - 1)
  }

  ghost predicate Reaches(code: seq<Instr>, c: Conf, d: Conf) {
    exists n: nat :: Steps(code, c, n) == Some(d)
  }

  lemma {:induction false} StepsAdd(code: seq<Instr>, c: Conf, n: nat, m: nat)
    ensures Steps(code, c, n + m)
         == match Steps(code, c, n)
            case None => None
            case Some(d) => Steps(code, d, m)
    decreases n
  {
    if n > 0 {
      match Next(code, c)
      case None =>
      case Some(d) => StepsAdd(code, d, n - 1, m);
    }
  }

  lemma ReachesSelf(code: seq<Instr>, c: Conf)
    ensures Reaches(code, c, c)
  {
    assert Steps(code, c, 0) == Some(c);
  }

  lemma ReachesOn(code: seq<Instr>, c: Conf, d: Conf, e: Conf)
    requires Reaches(code, c, d) && Reaches(code, d, e)
    ensures Reaches(code, c, e)
  {
    var n: nat :| Steps(code, c, n) == Some(d);
    var m: nat :| Steps(code, d, m) == Some(e);
    StepsAdd(code, c, n, m);
  }

  lemma Stepping(code: seq<Instr>, c: Conf, d: Conf)
    requires Next(code, c) == Some(d)
    ensures Reaches(code, c, d)
  {
    assert Steps(code, d, 0) == Some(d);
    assert Steps(code, c, 1) == Some(d);
  }

  lemma StepOn(code: seq<Instr>, c: Conf, d: Conf, e: Conf)
    requires Next(code, c) == Some(d) && Reaches(code, d, e)
    ensures Reaches(code, c, e)
  {
    hide Reaches, Next;
    Stepping(code, c, d);
    ReachesOn(code, c, d, e);
  }

  // ----- how deep the stack is along a run -----

  /** What an instruction adds to the depth of the stack. */
  function Moves(i: Instr): int {
    match i
    case Grow(n) => n
    case Shrink(n) => 0 - n
    case Jump(_, n) => 0 - n
    case JumpIfZero(_, n, _) => 0 - n
    case _ => 0
  }

  /** The points that n steps from c, at some depth, lead through. */
  function RunFrom(code: seq<Instr>, c: Conf, depth: int, n: nat): (run: seq<Point>)
    requires Steps(code, c, n).Some?
    ensures |run| == n + 1
    decreases n
  {
    [Point(c.i, depth)]
    + if n == 0 then [] else RunFrom(code, Next(code, c).value, depth + Moves(code[c.i]), n - 1)
  }

  /** The expression that an instruction evaluates, when the stack is so deep: whatever depth is noted in it. */
  function Evaluates(i: Instr, depth: int): seq<Event> {
    match i
    case Act(id, _) => [Event(id, depth)]
    case JumpIfZero(_, _, Guard(id, _)) => [Event(id, depth)]
    case _ => []
  }

  /** The expressions that n steps from c evaluate, with how deep the stack is each time. */
  function Met(code: seq<Instr>, c: Conf, depth: int, n: nat): seq<Event>
    requires Steps(code, c, n).Some?
    decreases n
  {
    if n == 0 then []
    else Evaluates(code[c.i], depth) + Met(code, Next(code, c).value, depth + Moves(code[c.i]), n - 1)
  }

  lemma {:induction false} WhereStands(code: seq<Instr>, l: Label)
    requires Where(code, l) < |code|
    ensures code[Where(code, l)] == Mark(l)
    decreases |code|
  {
    if code[0] != Mark(l) {
      WhereStands(code[1..], l);
    }
  }

  lemma NextSteps(code: seq<Instr>, c: Conf, depth: int)
    requires Next(code, c).Some? && Next(code, c).value.i < |code|
    ensures Step(code, c.i, depth, Next(code, c).value.i, depth + Moves(code[c.i]))
  {
    hide Where;
    match code[c.i]
    case Jump(l, _) => WhereStands(code, l);
    case JumpIfZero(l, _, test) =>
      if !test.One? && c.dec[0] {
        WhereStands(code, l);
      }
    case _ =>
  }

  /** A run that does not end behind the code has taken no jump to a label that does not stand, so its points
      are those of a path. */
  lemma {:induction false} RunSteps(code: seq<Instr>, c: Conf, depth: int, n: nat)
    requires Steps(code, c, n).Some? && Steps(code, c, n).value.i < |code|
    ensures var run := RunFrom(code, c, depth, n);
            && |run| == n + 1 && run[0] == Point(c.i, depth) && run[n].i == Steps(code, c, n).value.i
            && forall k :: 0 <= k < n ==> Step(code, run[k].i, run[k].depth, run[k + 1].i, run[k + 1].depth)
    decreases n
  {
    hide Step, Next, Moves;
    if n > 0 {
      var d := Next(code, c).value;
      NextInside(code, c);
      if n > 1 {
        NextInside(code, d);
      }
      NextSteps(code, c, depth);
      RunSteps(code, d, depth + Moves(code[c.i]), n - 1);
    }
  }

  lemma NextInside(code: seq<Instr>, c: Conf)
    requires Next(code, c).Some?
    ensures c.i < |code|
  {
  }

  /** Where the code keeps its depths on every path, each run of it - those by which it does what the function
      means among them - meets every label, and the epilogue, with the stack as deep as recorded, and every
      expression with the stack as deep as noted beside it. */
  lemma RunsKeepDepths(code: seq<Instr>, pos: Positions, dec: seq<bool>, n: nat)
    requires Disciplined(code, pos) && Steps(code, Conf(0, dec, []), n).Some? && Steps(code, Conf(0, dec, []), n).value.i < |code|
    ensures var run := RunFrom(code, Conf(0, dec, []), 0, n);
            run[n].i == Steps(code, Conf(0, dec, []), n).value.i && forall k :: 0 <= k <= n ==> GoodAt(code, pos, run[k])
    ensures Steps(code, Conf(0, dec, []), n).value.trace == Met(code, Conf(0, dec, []), 0, n)
  {
    hide Disciplined, GoodAt, Steps, RunFrom, Met;
    var c := Conf(0, dec, []);
    var run := RunFrom(code, c, 0, n);
    RunSteps(code, c, 0, n);
    assert Path(code, run);
    forall k | 0 <= k <= n ensures GoodAt(code, pos, run[k]) {
      GoodOnPath(code, pos, run, k);
    }
    MetAsNoted(code, pos, c, 0, n);
    assert [] + Met(code, c, 0, n) == Met(code, c, 0, n);
  }

  /** Along a run with nothing wrong, expressions are met as deep as noted. */
  lemma {:induction false} MetAsNoted(code: seq<Instr>, pos: Positions, c: Conf, depth: int, n: nat)
    requires Steps(code, c, n).Some? && AllGood(code, pos, RunFrom(code, c, depth, n))
    ensures Steps(code, c, n).value.trace == c.trace + Met(code, c, depth, n)
    decreases n
  {
    hide AllGood, GoodAt, Next, Moves, Evaluates;
    if n > 0 {
      var d := Next(code, c).value;
      NextInside(code, c);
      var e := depth + Moves(code[c.i]);
      AllGoodOn(code, pos, c, depth, n);
      MetAsNoted(code, pos, d, e, n - 1);
      NotedThere(code, pos, c, depth);
      assert c.trace + Evaluates(code[c.i], depth) + Met(code, d, e, n - 1) == c.trace + Met(code, c, depth, n);
    }
  }

  predicate AllGood(code: seq<Instr>, pos: Positions, run: seq<Point>) {
    forall k :: 0 <= k < |run| ==> GoodAt(code, pos, run[k])
  }

  lemma AllGoodOn(code: seq<Instr>, pos: Positions, c: Conf, depth: int, n: nat)
    requires n > 0 && Steps(code, c, n).Some? && c.i < |code| && AllGood(code, pos, RunFrom(code, c, depth, n))
    ensures GoodAt(code, pos, Point(c.i, depth))
    ensures AllGood(code, pos, RunFrom(code, Next(code, c).value, depth + Moves(code[c.i]), n - 1))
  {
    hide GoodAt, Next, Moves;
    var run := RunFrom(code, c, depth, n);
    var more := RunFrom(code, Next(code, c).value, depth + Moves(code[c.i]), n - 1);
    assert run == [Point(c.i, depth)] + more && run[0] == Point(c.i, depth);
    forall k | 0 <= k < |more| ensures GoodAt(code, pos, more[k]) {
      assert more[k] == run[k + 1];
    }
  }

  lemma NotedThere(code: seq<Instr>, pos: Positions, c: Conf, depth: int)
    requires Next(code, c).Some? && c.i < |code| && GoodAt(code, pos, Point(c.i, depth))
    ensures Next(code, c).value.trace == c.trace + Evaluates(code[c.i], depth)
  {
    hide Where;
  }

  // ----- where things stand -----

  /** No label stands twice. */
  predicate Unique(code: seq<Instr>) {
    forall i, j :: 0 <= i < j < |code| && code[i].Mark? ==> code[i] != code[j]
  }

  lemma {:induction false} WhereIs(code: seq<Instr>, i: nat)
    requires Unique(code) && i < |code| && code[i].Mark?
    ensures Where(code, code[i].lab) == i
    decreases |code|
  {
    if i > 0 {
      assert code[0] != Mark(code[i].lab);
      assert Unique(code[1..]) by {
        forall a, b | 0 <= a < b < |code[1..]| && code[1..][a].Mark? ensures code[1..][a] != code[1..][b] {
          assert code[a + 1] != code[b + 1];
        }
      }
      WhereIs(code[1..], i - 1);
    }
  }

  /** The code of these orders lies in the code from `at` on. */
  predicate Holds(code: seq<Instr>, pos: Positions, at: nat, orders: seq<Order>) {
    at + |orders| <= |code| && forall i :: 0 <= i < |orders| ==> code[at + i] == Coded(orders[i], pos)
  }

  lemma HoldsParts(code: seq<Instr>, pos: Positions, at: nat, a: seq<Order>, b: seq<Order>)
    requires Holds(code, pos, at, a + b)
    ensures Holds(code, pos, at, a) && Holds(code, pos, at + |a|, b)
  {
    forall i | 0 <= i < |a| ensures code[at + i] == Coded(a[i], pos) {
      assert (a + b)[i] == a[i];
    }
    forall i | 0 <= i < |b| ensures code[at + |a| + i] == Coded(b[i], pos) {
      assert (a + b)[|a| + i] == b[i];
    }
  }

  lemma HoldsAt(code: seq<Instr>, pos: Positions, at: nat, orders: seq<Order>, i: nat)
    requires Holds(code, pos, at, orders) && i < |orders|
    ensures at + i < |code| && code[at + i] == Coded(orders[i], pos)
    ensures Unique(code) && orders[i].Fix? ==> Where(code, orders[i].lab) == at + i
  {
    hide Unique, Where;
    if Unique(code) && orders[i].Fix? {
      WhereIs(code, at + i);
    }
  }

  /** Labels that are fixed at most once stand at most once. */
  lemma OnceUnique(orders: seq<Order>, pos: Positions)
    requires forall l: nat :: Fixed(orders, l) <= 1
    ensures Unique(Code(orders, pos))
  {
    hide Fixed;
    var code := Code(orders, pos);
    forall i, j | 0 <= i < j < |code| && code[i].Mark? ensures code[i] != code[j] {
      if code[i] == code[j] {
        FixedTwice(orders, i, j);
      }
    }
  }

  lemma FixedTwice(orders: seq<Order>, i: nat, j: nat)
    requires i < j < |orders| && orders[i].Fix? && orders[j].Fix? && orders[i].lab == orders[j].lab
    ensures Fixed(orders, orders[i].lab.id) >= 2
  {
    hide Fixed;
    var l := orders[i].lab.id;
    assert orders == orders[..j] + orders[j..] && orders[j..] == [orders[j]] + orders[j + 1..];
    FixedParts(orders[..j], orders[j..], l);
    FixedParts([orders[j]], orders[j + 1..], l);
    FixedOne(orders[j], l);
    assert orders[..j] == orders[..i] + orders[i..j] && orders[i..j] == [orders[i]] + orders[i + 1..j];
    FixedParts(orders[..i], orders[i..j], l);
    FixedParts([orders[i]], orders[i + 1..j], l);
    FixedOne(orders[i], l);
  }

  // ----- labels that statements leave behind -----

  /** Case labels are added one by one, and the default label once. */
  predicate CasesAdded(s: Stmt, st: Locals, r: Locals) {
    && (st.cases.Some? && r.cases.Some? ==> st.cases.value <= r.cases.value && |r.cases.value| == |st.cases.value| + Cases(s))
    && (Defaults(s) == 0 ==> r.dflt == st.dflt) && (Defaults(s) > 0 ==> st.dflt.None? && r.dflt.Some?)
  }

  predicate CasesAddedIn(items: Items, st: Locals, r: Locals) {
    && (st.cases.Some? && r.cases.Some? ==> st.cases.value <= r.cases.value && |r.cases.value| == |st.cases.value| + CasesIn(items))
    && (DefaultsIn(items) == 0 ==> r.dflt == st.dflt) && (DefaultsIn(items) > 0 ==> st.dflt.None? && r.dflt.Some?)
  }

  lemma {:induction false} CasesGrow(s: Stmt, st: Locals)
    requires PlanStmt(s, st).Some?
    ensures CasesAdded(s, st, PlanStmt(s, st).value.st)
    decreases s, 1
  {
    hide PlanStmt, CasesAdded;
    match s {
      case Compound(_) => BlockCasesGrow(s, st);
      case If(_, _, _) => IfCasesGrow(s, st);
      case Loop(_, _) => LoopCasesGrow(s, st);
      case Case(_) => LabelCasesGrow(s, st);
      case Default(_) => LabelCasesGrow(s, st);
      case Labeled(_, _) => LabelCasesGrow(s, st);
      case _ => OtherCasesStay(s, st);
    }
  }

  lemma OtherCasesStay(s: Stmt, st: Locals)
    requires !s.Compound? && !s.If? && !s.Loop? && !s.Case? && !s.Default? && !s.Labeled? && PlanStmt(s, st).Some?
    ensures CasesAdded(s, st, PlanStmt(s, st).value.st)
  {
  }

  lemma {:induction false} BlockCasesGrow(s: Stmt, st: Locals)
    requires s.Compound? && PlanStmt(s, st).Some?
    ensures CasesAdded(s, st, PlanStmt(s, st).value.st)
    decreases s, 0
  {
    ItemsCasesGrow(s.items, st);
  }

  lemma {:induction false} IfCasesGrow(s: Stmt, st: Locals)
    requires s.If? && PlanStmt(s, st).Some?
    ensures CasesAdded(s, st, PlanStmt(s, st).value.st)
    decreases s, 0
  {
    hide IfOrders;
    CasesGrow(s.thn, InIf(st));
    CasesGrow(s.els, PlanStmt(s.thn, InIf(st)).value.st);
  }

  lemma {:induction false} LoopCasesGrow(s: Stmt, st: Locals)
    requires s.Loop? && PlanStmt(s, st).Some?
    ensures CasesAdded(s, st, PlanStmt(s, st).value.st)
    decreases s, 0
  {
    hide Head, Tail;
    CasesGrow(s.body, InLoop(s.kind, st));
  }

  lemma {:induction false} LabelCasesGrow(s: Stmt, st: Locals)
    requires (s.Case? || s.Default? || s.Labeled?) && PlanStmt(s, st).Some?
    ensures CasesAdded(s, st, PlanStmt(s, st).value.st)
    decreases s, 0
  {
    match s {
      case Case(stmt) => CasesGrow(stmt, InCase(st));
      case Default(stmt) => CasesGrow(stmt, InDefault(st));
      case Labeled(x, stmt) => CasesGrow(stmt, Name(st, x).1);
    }
  }

  lemma {:induction false} ItemsCasesGrow(items: Items, st: Locals)
    requires PlanItems(items, st).Some?
    ensures CasesAddedIn(items, st, PlanItems(items, st).value.st)
    decreases items
  {
    hide PlanStmt;
    match items {
      case End =>
      case Declare(footprint, _, rest) => ItemsCasesGrow(rest, st.(depth := st.depth + footprint));
      case Then(head, rest) =>
        CasesGrow(head, st);
        ItemsCasesGrow(rest, PlanStmt(head, st).value.st);
    }
  }

  // ----- what it is to follow a statement -----

  /** The label that belongs to an entry. */
  predicate Entered(e: Entry, st: Locals, r: Locals, later: Locals, lab: nat) {
    match e
    case Start => true
    case AtName(x) => x in later.gotos && later.gotos[x] == lab
    case AtCase(k) =>
      && st.cases.Some? && r.cases.Some? && |st.cases.value| + k < |r.cases.value|
      && r.cases.value[|st.cases.value| + k] == lab
    case AtDefault => r.dflt == Some(lab)
  }

  function From(code: seq<Instr>, at: nat, e: Entry, lab: nat): nat {
    if e.Start? then at else Where(code, At(lab))
  }

  function LabelAt(code: seq<Instr>, l: Option<nat>): nat {
    if l.None? then 0 else Where(code, At(l.value))
  }

  /** Where control goes on. */
  function Target(code: seq<Instr>, end: nat, st: Locals, later: Locals, out: Outcome): nat {
    match out
    case Normal => end
    case Broke => LabelAt(code, st.brk)
    case Continued => LabelAt(code, st.cont)
    case Returned => Where(code, At(st.ret))
    case Went(x) => if x in later.gotos then Where(code, At(later.gotos[x])) else 0
  }

  /** From i, the code does what r says, and goes on as r ends. */
  ghost predicate Does(code: seq<Instr>, i: nat, end: nat, st: Locals, later: Locals, dec: seq<bool>, t: seq<Event>, r: Res) {
    r.Res? ==> Reaches(code, Conf(i, dec, t), Conf(Target(code, end, st, later, r.out), r.rest, t + r.trace))
  }

  /** Where the same labels are in force, control goes on at the same places. */
  lemma SameTarget(code: seq<Instr>, end: nat, a: Locals, b: Locals, later: Locals, out: Outcome)
    requires a.brk == b.brk && a.cont == b.cont && a.ret == b.ret
    ensures Target(code, end, a, later, out) == Target(code, end, b, later, out)
  {
  }

  /** First some steps, then the rest. */
  lemma After(code: seq<Instr>, i: nat, dec: seq<bool>, j: nat, dec': seq<bool>, end: nat, st: Locals, later: Locals, t: seq<Event>, r: Res)
    requires Reaches(code, Conf(i, dec, t), Conf(j, dec', t)) && Does(code, j, end, st, later, dec', t, r)
    ensures Does(code, i, end, st, later, dec, t, r)
  {
    hide Reaches, Target;
    if r.Res? {
      ReachesOn(code, Conf(i, dec, t), Conf(j, dec', t), Conf(Target(code, end, st, later, r.out), r.rest, t + r.trace));
    }
  }

  /** From the end of a part, more steps to the end of the whole. */
  lemma ThenSteps(code: seq<Instr>, i: nat, mid: nat, end: nat, st: Locals, later: Locals, dec: seq<bool>, t: seq<Event>, r: Res)
    requires Does(code, i, mid, st, later, dec, t, r)
    requires forall dec: seq<bool>, t: seq<Event> {:trigger Conf(mid, dec, t)} :: Reaches(code, Conf(mid, dec, t), Conf(end, dec, t))
    ensures Does(code, i, end, st, later, dec, t, r)
  {
    hide Reaches;
    if r.Res? && r.out.Normal? {
      assert Reaches(code, Conf(mid, r.rest, t + r.trace), Conf(end, r.rest, t + r.trace));
      ReachesOn(code, Conf(i, dec, t), Conf(mid, r.rest, t + r.trace), Conf(end, r.rest, t + r.trace));
    }
  }

  /** From the end of a part, another part. */
  lemma ThenPart(code: seq<Instr>, i: nat, mid: nat, end: nat, st: Locals, later: Locals, dec: seq<bool>, t: seq<Event>, r: Res, q: Res)
    requires r.Res? && r.out.Normal? && Does(code, i, mid, st, later, dec, t, r)
    requires Does(code, mid, end, st, later, r.rest, t + r.trace, q)
    ensures Does(code, i, end, st, later, dec, t, Prefixed(r.trace, q))
  {
    hide Reaches;
    if q.Res? {
      assert t + r.trace + q.trace == t + (r.trace + q.trace);
      ReachesOn(code, Conf(i, dec, t), Conf(mid, r.rest, t + r.trace),
                Conf(Target(code, end, st, later, q.out), q.rest, t + r.trace + q.trace));
    }
  }

  /** What goes on with a trace of tr, and then does q, does both. */
  lemma ThenAgain(code: seq<Instr>, i: nat, dec: seq<bool>, t: seq<Event>, tr: seq<Event>, at: nat, rest: seq<bool>, end: nat,
                  st: Locals, later: Locals, q: Res)
    requires Reaches(code, Conf(i, dec, t), Conf(at, rest, t + tr)) && Does(code, at, end, st, later, rest, t + tr, q)
    ensures Does(code, i, end, st, later, dec, t, Prefixed(tr, q))
  {
    hide Reaches;
    if q.Res? {
      assert t + tr + q.trace == t + (tr + q.trace);
      ReachesOn(code, Conf(i, dec, t), Conf(at, rest, t + tr),
                Conf(Target(code, end, st, later, q.out), q.rest, t + tr + q.trace));
    }
  }

  /** The code of an expression that may be left out. */
  predicate Acts(code: seq<Instr>, i: nat, x: Option<nat>, d: nat) {
    x.Some? ==> i < |code| && code[i] == Act(x.value, d)
  }

  lemma HoldsEval(code: seq<Instr>, pos: Positions, at: nat, x: Option<nat>, d: nat)
    requires Holds(code, pos, at, Eval(x, d))
    ensures Acts(code, at, x, d)
  {
    if x.Some? {
      HoldsAt(code, pos, at, Eval(x, d), 0);
    }
  }

  lemma ActsReach(code: seq<Instr>, at: nat, x: Option<nat>, d: nat, dec: seq<bool>, t: seq<Event>)
    requires Acts(code, at, x, d)
    ensures Reaches(code, Conf(at, dec, t), Conf(at + |Eval(x, d)|, dec, t + Evaluated(x, d)))
  {
    hide Reaches;
    if x.Some? {
      Stepping(code, Conf(at, dec, t), Conf(at + 1, dec, t + [Event(x.value, d)]));
    } else {
      assert t + [] == t;
      ReachesSelf(code, Conf(at, dec, t));
    }
  }

  lemma EvalReaches(code: seq<Instr>, pos: Positions, at: nat, x: Option<nat>, d: nat, dec: seq<bool>, t: seq<Event>)
    requires Holds(code, pos, at, Eval(x, d))
    ensures Reaches(code, Conf(at, dec, t), Conf(at + |Eval(x, d)|, dec, t + Evaluated(x, d)))
  {
    hide Reaches, Holds, Acts, Eval;
    HoldsEval(code, pos, at, x, d);
    ActsReach(code, at, x, d, dec, t);
  }

  // ----- statement by statement -----

  lemma {:induction false} Follows(code: seq<Instr>, pos: Positions, s: Stmt, st: Locals, at: nat, later: Locals,
                                   e: Entry, lab: nat, dec: seq<bool>, fuel: nat, t: seq<Event>)
    requires PlanStmt(s, st).Some? && Enters(s, e) && NamesOk(st) && Unique(code)
    requires Holds(code, pos, at, PlanStmt(s, st).value.orders) && Extends(PlanStmt(s, st).value.st, later)
    requires Entered(e, st, PlanStmt(s, st).value.st, later, lab)
    ensures Does(code, From(code, at, e, lab), at + |PlanStmt(s, st).value.orders|, st, later, dec, t, Exec(s, st.depth, e, dec, fuel))
    decreases fuel, s, 5
  {
    hide PlanStmt, Does, Exec, Unique, Holds, Extends, NamesOk, Entered, Enters, From;
    match s {
      case Compound(_) => BlockFollows(code, pos, s, st, at, later, e, lab, dec, fuel, t);
      case If(_, _, _) => IfFollows(code, pos, s, st, at, later, e, lab, dec, fuel, t);
      case Loop(_, _) => LoopFollows(code, pos, s, st, at, later, e, lab, dec, fuel, t);
      case Switch(_, _) => SwitchFollows(code, pos, s, st, at, later, e, lab, dec, fuel, t);
      case Case(_) => LabelFollows(code, pos, s, st, at, later, e, lab, dec, fuel, t);
      case Default(_) => LabelFollows(code, pos, s, st, at, later, e, lab, dec, fuel, t);
      case Labeled(_, _) => LabelFollows(code, pos, s, st, at, later, e, lab, dec, fuel, t);
      case _ => SimpleFollows(code, pos, s, st, at, later, e, lab, dec, fuel, t);
    }
  }

  lemma SimpleFollows(code: seq<Instr>, pos: Positions, s: Stmt, st: Locals, at: nat, later: Locals,
                      e: Entry, lab: nat, dec: seq<bool>, fuel: nat, t: seq<Event>)
    requires s.Empty? || s.Expr? || s.Return? || s.Break? || s.Continue? || s.Goto?
    requires PlanStmt(s, st).Some? && Enters(s, e) && NamesOk(st)
    requires Holds(code, pos, at, PlanStmt(s, st).value.orders) && Extends(PlanStmt(s, st).value.st, later)
    ensures Does(code, From(code, at, e, lab), at + |PlanStmt(s, st).value.orders|, st, later, dec, t, Exec(s, st.depth, e, dec, fuel))
  {
    hide Reaches, NamesOk, Unique, Where;
    var c := Conf(at, dec, t);
    assert t + [] == t && e.Start?;
    match s {
      case Empty => ReachesSelf(code, c);
      case Expr(id) =>
        HoldsAt(code, pos, at, [Do(id, st.depth)], 0);
        Stepping(code, c, Conf(at + 1, dec, t + [Event(id, st.depth)]));
      case Return(value) => ReturnDoes(code, pos, value, st, at, dec, t);
      case Break =>
        HoldsAt(code, pos, at, [Go(At(st.brk.value), st.depth, true)], 0);
        Stepping(code, c, Conf(Where(code, At(st.brk.value)), dec, t));
      case Continue =>
        HoldsAt(code, pos, at, [Go(At(st.cont.value), st.depth, true)], 0);
        Stepping(code, c, Conf(Where(code, At(st.cont.value)), dec, t));
      case Goto(x) =>
        NameGrows(st, x);
        HoldsAt(code, pos, at, [Go(At(Name(st, x).0), st.depth, true)], 0);
        Stepping(code, c, Conf(Where(code, At(Name(st, x).0)), dec, t));
    }
  }

  lemma ReturnDoes(code: seq<Instr>, pos: Positions, value: Option<nat>, st: Locals, at: nat, dec: seq<bool>, t: seq<Event>)
    requires Holds(code, pos, at, Eval(value, st.depth) + [Go(At(st.ret), st.depth, true)])
    ensures Reaches(code, Conf(at, dec, t), Conf(Where(code, At(st.ret)), dec, t + Evaluated(value, st.depth)))
  {
    hide Reaches, Where, Holds;
    var u, t' := |Eval(value, st.depth)|, t + Evaluated(value, st.depth);
    HoldsParts(code, pos, at, Eval(value, st.depth), [Go(At(st.ret), st.depth, true)]);
    HoldsAt(code, pos, at + u, [Go(At(st.ret), st.depth, true)], 0);
    EvalReaches(code, pos, at, value, st.depth, dec, t);
    Stepping(code, Conf(at + u, dec, t'), Conf(Where(code, At(st.ret)), dec, t'));
    ReachesOn(code, Conf(at, dec, t), Conf(at + u, dec, t'), Conf(Where(code, At(st.ret)), dec, t'));
  }

  lemma {:induction false} BlockFollows(code: seq<Instr>, pos: Positions, s: Stmt, st: Locals, at: nat, later: Locals,
                                        e: Entry, lab: nat, dec: seq<bool>, fuel: nat, t: seq<Event>)
    requires s.Compound? && PlanStmt(s, st).Some? && Enters(s, e) && NamesOk(st) && Unique(code)
    requires Holds(code, pos, at, PlanStmt(s, st).value.orders) && Extends(PlanStmt(s, st).value.st, later)
    requires Entered(e, st, PlanStmt(s, st).value.st, later, lab)
    ensures Does(code, From(code, at, e, lab), at + |PlanStmt(s, st).value.orders|, st, later, dec, t, Exec(s, st.depth, e, dec, fuel))
    decreases fuel, s, 4
  {
    hide Does, Holds, Unique, NamesOk, Reaches, Where, From, PlanItems, ExecItems, Extends;
    var p := PlanItems(s.items, st).value;
    var pop := Pop(p.st.depth - st.depth);
    var mid := at + |p.orders|;
    HoldsParts(code, pos, at, p.orders, [pop]);
    HoldsAt(code, pos, mid, [pop], 0);
    ExtendsDepth(p.st, st.depth, later);
    ItemsFollow(code, pos, s.items, st, at, later, e, lab, dec, fuel, t);
    forall dec: seq<bool>, t: seq<Event> ensures Reaches(code, Conf(mid, dec, t), Conf(mid + 1, dec, t)) {
      Stepping(code, Conf(mid, dec, t), Conf(mid + 1, dec, t));
    }
    ThenSteps(code, From(code, at, e, lab), mid, mid + 1, st, later, dec, t, ExecItems(s.items, st.depth, e, dec, fuel));
  }

  lemma {:induction false} ItemsFollow(code: seq<Instr>, pos: Positions, items: Items, st: Locals, at: nat, later: Locals,
                                       e: Entry, lab: nat, dec: seq<bool>, fuel: nat, t: seq<Event>)
    requires PlanItems(items, st).Some? && EntersIn(items, e) && NamesOk(st) && Unique(code)
    requires Holds(code, pos, at, PlanItems(items, st).value.orders) && Extends(PlanItems(items, st).value.st, later)
    requires Entered(e, st, PlanItems(items, st).value.st, later, lab)
    ensures Does(code, From(code, at, e, lab), at + |PlanItems(items, st).value.orders|, st, later, dec, t,
                 ExecItems(items, st.depth, e, dec, fuel))
    decreases fuel, items, 1
  {
    hide Does, Holds, Unique, NamesOk, Reaches, Where, Extends, PlanStmt;
    match items {
      case End => NothingDone(code, at, st, later, dec, t);
      case Declare(_, _, _) => DeclarationFollows(code, pos, items, st, at, later, e, lab, dec, fuel, t);
      case Then(_, _) => FirstFollows(code, pos, items, st, at, later, e, lab, dec, fuel, t);
    }
  }

  lemma NothingDone(code: seq<Instr>, at: nat, st: Locals, later: Locals, dec: seq<bool>, t: seq<Event>)
    ensures Does(code, at, at, st, later, dec, t, Res(Normal, dec, []))
  {
    hide Reaches;
    assert t + [] == t;
    ReachesSelf(code, Conf(at, dec, t));
  }

  lemma {:induction false} DeclarationFollows(code: seq<Instr>, pos: Positions, items: Items, st: Locals, at: nat, later: Locals,
                                              e: Entry, lab: nat, dec: seq<bool>, fuel: nat, t: seq<Event>)
    requires items.Declare? && PlanItems(items, st).Some? && EntersIn(items, e) && NamesOk(st) && Unique(code)
    requires Holds(code, pos, at, PlanItems(items, st).value.orders) && Extends(PlanItems(items, st).value.st, later)
    requires Entered(e, st, PlanItems(items, st).value.st, later, lab)
    ensures Does(code, From(code, at, e, lab), at + |PlanItems(items, st).value.orders|, st, later, dec, t,
                 ExecItems(items, st.depth, e, dec, fuel))
    decreases fuel, items, 0
  {
    hide Does, Holds, Unique, NamesOk, Reaches, Where, Extends, PlanStmt;
    var st' := st.(depth := st.depth + items.footprint);
    var p := PlanItems(items.rest, st').value;
    var r := ExecItems(items.rest, st'.depth, e, dec, fuel);
    var first := at + 1 + |Eval(items.init, st'.depth)|;
    var end := first + |p.orders|;
    var t' := if e.Start? then t + Evaluated(items.init, st'.depth) else t;
    HoldsParts(code, pos, at, [Push(items.footprint)], Eval(items.init, st'.depth) + p.orders);
    HoldsParts(code, pos, at + 1, Eval(items.init, st'.depth), p.orders);
    HoldsAt(code, pos, at, [Push(items.footprint)], 0);
    ExtendsSame(st, st');
    ItemsFollow(code, pos, items.rest, st', first, later, e, lab, dec, fuel, t');
    SameDoes(code, From(code, first, e, lab), end, st', st, later, dec, t', r);
    if e.Start? {
      EvalReaches(code, pos, at + 1, items.init, st'.depth, dec, t);
      StepOn(code, Conf(at, dec, t), Conf(at + 1, dec, t), Conf(first, dec, t'));
      ThenAgain(code, at, dec, t, Evaluated(items.init, st'.depth), first, dec, end, st, later, r);
    }
  }

  lemma SameDoes(code: seq<Instr>, i: nat, end: nat, a: Locals, b: Locals, later: Locals, dec: seq<bool>, t: seq<Event>, r: Res)
    requires Does(code, i, end, a, later, dec, t, r) && a.brk == b.brk && a.cont == b.cont && a.ret == b.ret
    ensures Does(code, i, end, b, later, dec, t, r)
  {
    if r.Res? {
      SameTarget(code, end, a, b, later, r.out);
    }
  }

  lemma {:induction false} FirstFollows(code: seq<Instr>, pos: Positions, items: Items, st: Locals, at: nat, later: Locals,
                                        e: Entry, lab: nat, dec: seq<bool>, fuel: nat, t: seq<Event>)
    requires items.Then? && PlanItems(items, st).Some? && EntersIn(items, e) && NamesOk(st) && Unique(code)
    requires Holds(code, pos, at, PlanItems(items, st).value.orders) && Extends(PlanItems(items, st).value.st, later)
    requires Entered(e, st, PlanItems(items, st).value.st, later, lab)
    ensures Does(code, From(code, at, e, lab), at + |PlanItems(items, st).value.orders|, st, later, dec, t,
                 ExecItems(items, st.depth, e, dec, fuel))
    decreases fuel, items, 0
  {
    hide Does, Holds, Unique, NamesOk, Reaches, Where, Extends, PlanStmt, PlanItems, From, Entered, Enters, EntersIn, Exec, ExecItems;
    FirstPlanned(items, st);
    FirstMeans(items, st.depth, e, dec, fuel);
    var s, rest := items.head, items.rest;
    var p := PlanStmt(s, st).value;
    var q := PlanItems(rest, p.st).value;
    var mid := at + |p.orders|;
    var end := mid + |q.orders|;
    HoldsParts(code, pos, at, p.orders, q.orders);
    Grows(s, st);
    ItemsGrow(rest, p.st);
    ExtendsOn(p.st, q.st, later);
    CasesGrow(s, st);
    ItemsCasesGrow(rest, p.st);
    if Enters(s, e) {
      var r := Exec(s, st.depth, e, dec, fuel);
      EnteredFirst(s, rest, e, st, p.st, q.st, later, lab);
      Follows(code, pos, s, st, at, later, e, lab, dec, fuel, t);
      if r.Res? && r.out.Normal? {
        ItemsFromStart(code, pos, rest, p.st, mid, later, r.rest, fuel, t + r.trace);
        SameDoes(code, mid, end, p.st, st, later, r.rest, t + r.trace, ExecItems(rest, st.depth, Start, r.rest, fuel));
        ThenPart(code, From(code, at, e, lab), mid, end, st, later, dec, t, r, ExecItems(rest, st.depth, Start, r.rest, fuel));
      } else {
        OtherEnd(code, From(code, at, e, lab), mid, end, st, later, dec, t, r);
      }
    } else {
      EnteredBeyond(s, e, st, p.st, q.st, later, lab);
      ItemsFollow(code, pos, rest, p.st, mid, later, Beyond(e, Cases(s)), lab, dec, fuel, t);
      SameFrom(code, at, mid, e, Cases(s), lab);
      SameDoes(code, From(code, at, e, lab), end, p.st, st, later, dec, t, ExecItems(rest, st.depth, Beyond(e, Cases(s)), dec, fuel));
    }
  }

  lemma FirstPlanned(items: Items, st: Locals)
    requires items.Then? && PlanItems(items, st).Some?
    ensures PlanStmt(items.head, st).Some? && PlanItems(items.rest, PlanStmt(items.head, st).value.st).Some?
    ensures var p := PlanStmt(items.head, st).value;
            var q := PlanItems(items.rest, p.st).value;
            PlanItems(items, st) == Some(Planned(q.st, p.orders + q.orders))
  {
    hide PlanStmt;
  }

  lemma FirstMeans(items: Items, d: nat, e: Entry, dec: seq<bool>, fuel: nat)
    requires items.Then? && EntersIn(items, e)
    ensures if Enters(items.head, e) then
              var r := Exec(items.head, d, e, dec, fuel);
              && EntersIn(items.rest, Start)
              && ExecItems(items, d, e, dec, fuel)
                 == (if !r.Res? || !r.out.Normal? then r else Prefixed(r.trace, ExecItems(items.rest, d, Start, r.rest, fuel)))
            else
              && !e.Start? && EntersIn(items.rest, Beyond(e, Cases(items.head)))
              && ExecItems(items, d, e, dec, fuel) == ExecItems(items.rest, d, Beyond(e, Cases(items.head)), dec, fuel)
  {
    hide Exec;
  }

  lemma {:induction false} ItemsFromStart(code: seq<Instr>, pos: Positions, items: Items, st: Locals, at: nat, later: Locals,
                                          dec: seq<bool>, fuel: nat, t: seq<Event>)
    requires PlanItems(items, st).Some? && NamesOk(st) && Unique(code)
    requires Holds(code, pos, at, PlanItems(items, st).value.orders) && Extends(PlanItems(items, st).value.st, later)
    ensures Does(code, at, at + |PlanItems(items, st).value.orders|, st, later, dec, t, ExecItems(items, st.depth, Start, dec, fuel))
    decreases fuel, items, 2
  {
    hide Does, Holds, Unique, NamesOk, Reaches, Where, Extends, PlanItems, ExecItems;
    ItemsFollow(code, pos, items, st, at, later, Start, 0, dec, fuel, t);
  }

  lemma OtherEnd(code: seq<Instr>, i: nat, mid: nat, end: nat, st: Locals, later: Locals, dec: seq<bool>, t: seq<Event>, r: Res)
    requires Does(code, i, mid, st, later, dec, t, r) && (r.Res? ==> !r.out.Normal?)
    ensures Does(code, i, end, st, later, dec, t, r)
  {
  }

  /** The label of an entry into the first of two parts is one that the first part has left. */
  lemma EnteredFirst(s: Stmt, rest: Items, e: Entry, st: Locals, r: Locals, q: Locals, later: Locals, lab: nat)
    requires Entered(e, st, q, later, lab) && Enters(s, e) && CasesAdded(s, st, r) && CasesAddedIn(rest, r, q)
    requires st.cases.Some? <==> r.cases.Some?
    requires r.cases.Some? <==> q.cases.Some?
    ensures Entered(e, st, r, later, lab)
  {
  }

  /** And one into the second part is one that the second has added. */
  lemma EnteredBeyond(s: Stmt, e: Entry, st: Locals, r: Locals, q: Locals, later: Locals, lab: nat)
    requires Entered(e, st, q, later, lab) && !Enters(s, e) && CasesAdded(s, st, r) && !e.Start?
    requires st.cases.Some? <==> r.cases.Some?
    ensures Entered(Beyond(e, Cases(s)), r, q, later, lab)
  {
  }

  lemma SameFrom(code: seq<Instr>, at: nat, mid: nat, e: Entry, n: nat, lab: nat)
    requires !e.Start?
    ensures From(code, at, e, lab) == From(code, mid, Beyond(e, n), lab)
  {
  }

  // ----- if -----

  lemma {:induction false} IfFollows(code: seq<Instr>, pos: Positions, s: Stmt, st: Locals, at: nat, later: Locals,
                                     e: Entry, lab: nat, dec: seq<bool>, fuel: nat, t: seq<Event>)
    requires s.If? && PlanStmt(s, st).Some? && Enters(s, e) && NamesOk(st) && Unique(code)
    requires Holds(code, pos, at, PlanStmt(s, st).value.orders) && Extends(PlanStmt(s, st).value.st, later)
    requires Entered(e, st, PlanStmt(s, st).value.st, later, lab)
    ensures Does(code, From(code, at, e, lab), at + |PlanStmt(s, st).value.orders|, st, later, dec, t, Exec(s, st.depth, e, dec, fuel))
    decreases fuel, s, 4
  {
    hide Does, Holds, Unique, NamesOk, Reaches, Where, Extends, From, Entered, PlanStmt, Exec, Enters;
    IfPlanned(s, st);
    var p := ThenPlan(s, st);
    var q := PlanStmt(s.els, p.st).value;
    var n, mid := st.next, at + 1 + |p.orders|;
    var end := mid + 3 + |q.orders|;
    IfPoints(code, pos, at, s.guard, n, st.depth, p.orders, q.orders);
    IfGrows(s, st, later);
    if e.Start? {
      StartsThere(code, at, lab);
      IfStart(code, pos, s, st, at, later, dec, fuel, t);
    } else if Enters(s.thn, e) {
      IfEntry(s, e, st, later, lab, dec, fuel);
      Follows(code, pos, s.thn, InIf(st), at + 1, later, e, lab, dec, fuel, t);
      SameFrom(code, at + 1, at, e, 0, lab);
      BeyondNone(e);
      ThnThenEnd(code, From(code, at, e, lab), at, st, later, s.guard, n, |p.orders|, |q.orders|, dec, t, Exec(s.thn, st.depth, e, dec, fuel));
    } else {
      IfEntry(s, e, st, later, lab, dec, fuel);
      var e' := Beyond(e, Cases(s.thn));
      Follows(code, pos, s.els, p.st, mid + 2, later, e', lab, dec, fuel, t);
      SameFrom(code, at, mid + 2, e, Cases(s.thn), lab);
      ElsThenEnd(code, From(code, at, e, lab), mid + 2 + |q.orders|, p.st, st, later, dec, t, Exec(s.els, st.depth, e', dec, fuel));
    }
  }

  function ThenPlan(s: Stmt, st: Locals): Planned
    requires s.If? && PlanStmt(s, st).Some?
  {
    PlanStmt(s.thn, InIf(st)).value
  }

  lemma IfPlanned(s: Stmt, st: Locals)
    requires s.If? && PlanStmt(s, st).Some?
    ensures PlanStmt(s.thn, InIf(st)).Some?
    ensures var p := ThenPlan(s, st);
            && p == PlanStmt(s.thn, InIf(st)).value && PlanStmt(s.els, p.st).Some?
            && PlanStmt(s, st).value.st == PlanStmt(s.els, p.st).value.st
            && PlanStmt(s, st).value.orders == IfOrders(s.guard, st.next, st.depth, p.orders, PlanStmt(s.els, p.st).value.orders)
            && Kept(InIf(st), p.st)
  {
  }

  lemma BeyondNone(e: Entry)
    ensures Beyond(e, 0) == e
  {
  }

  /** What stands between the branches, and the end. */
  predicate IfAround(code: seq<Instr>, at: nat, guard: nat, n: nat, d: nat, p: nat, q: nat) {
    var mid := at + 1 + p;
    && mid + 2 + q < |code|
    && code[at].JumpIfZero? && code[at].lab == At(n) && code[at].test == Guard(guard, d)
    && code[mid].Jump? && code[mid].lab == At(n + 1)
    && code[mid + 1].Mark? && code[mid + 2 + q].Mark?
    && Where(code, At(n)) == mid + 1 && Where(code, At(n + 1)) == mid + 2 + q
  }

  lemma IfPoints(code: seq<Instr>, pos: Positions, at: nat, guard: nat, n: nat, d: nat, p: seq<Order>, q: seq<Order>)
    requires Unique(code) && Holds(code, pos, at, IfOrders(guard, n, d, p, q))
    ensures Holds(code, pos, at + 1, p) && Holds(code, pos, at + 3 + |p|, q)
    ensures IfAround(code, at, guard, n, d, |p|, |q|) && |IfOrders(guard, n, d, p, q)| == |p| + |q| + 4
  {
    hide Unique, Where, Holds;
    var a, m, b := [GoIfZero(At(n), d, false, Guard(guard, d))], [Go(At(n + 1), d, false), Fix(At(n), d)], [Fix(At(n + 1), d)];
    HoldsParts(code, pos, at, a + p + m + q, b);
    HoldsParts(code, pos, at, a + p + m, q);
    HoldsParts(code, pos, at, a + p, m);
    HoldsParts(code, pos, at, a, p);
    HoldsAt(code, pos, at, a, 0);
    HoldsAt(code, pos, at + 1 + |p|, m, 0);
    HoldsAt(code, pos, at + 1 + |p|, m, 1);
    HoldsAt(code, pos, at + 3 + |p| + |q|, b, 0);
  }

  lemma IfGrows(s: Stmt, st: Locals, later: Locals)
    requires s.If? && PlanStmt(s, st).Some? && NamesOk(st) && Extends(PlanStmt(s, st).value.st, later)
    ensures NamesOk(InIf(st)) && NamesOk(ThenPlan(s, st).st) && Extends(ThenPlan(s, st).st, later)
  {
    hide NamesOk, Extends, PlanStmt;
    IfPlanned(s, st);
    ExtendsSame(st, InIf(st));
    Grows(s.thn, InIf(st));
    Grows(s.els, ThenPlan(s, st).st);
    ExtendsOn(ThenPlan(s, st).st, PlanStmt(s, st).value.st, later);
  }

  lemma IfEntry(s: Stmt, e: Entry, st: Locals, later: Locals, lab: nat, dec: seq<bool>, fuel: nat)
    requires s.If? && PlanStmt(s, st).Some? && !e.Start? && Enters(s, e)
    requires Entered(e, st, PlanStmt(s, st).value.st, later, lab)
    ensures var r, q := ThenPlan(s, st).st, PlanStmt(s, st).value.st;
            if Enters(s.thn, e) then Entered(e, InIf(st), r, later, lab) && Exec(s, st.depth, e, dec, fuel) == Exec(s.thn, st.depth, e, dec, fuel)
            else
              && Enters(s.els, Beyond(e, Cases(s.thn))) && Entered(Beyond(e, Cases(s.thn)), r, q, later, lab)
              && Exec(s, st.depth, e, dec, fuel) == Exec(s.els, st.depth, Beyond(e, Cases(s.thn)), dec, fuel)
  {
    hide PlanStmt;
    IfPlanned(s, st);
    CasesGrow(s.thn, InIf(st));
    CasesGrow(s.els, ThenPlan(s, st).st);
  }

  /** From the end of the first branch to the end. */
  lemma ThnThenEnd(code: seq<Instr>, i: nat, at: nat, st: Locals, later: Locals, guard: nat, n: nat, p: nat, q: nat,
                   dec: seq<bool>, t: seq<Event>, r: Res)
    requires IfAround(code, at, guard, n, st.depth, p, q) && Does(code, i, at + 1 + p, InIf(st), later, dec, t, r)
    ensures Does(code, i, at + 4 + p + q, st, later, dec, t, r)
  {
    hide Does, Reaches, Where;
    var mid, last := at + 1 + p, at + 3 + p + q;
    SameDoes(code, i, mid, InIf(st), st, later, dec, t, r);
    forall dec: seq<bool>, t: seq<Event> ensures Reaches(code, Conf(mid, dec, t), Conf(last + 1, dec, t)) {
      Stepping(code, Conf(last, dec, t), Conf(last + 1, dec, t));
      StepOn(code, Conf(mid, dec, t), Conf(last, dec, t), Conf(last + 1, dec, t));
    }
    ThenSteps(code, i, mid, last + 1, st, later, dec, t, r);
  }

  /** One more label behind a part. */
  lemma ElsThenEnd(code: seq<Instr>, i: nat, last: nat, a: Locals, st: Locals, later: Locals, dec: seq<bool>, t: seq<Event>, r: Res)
    requires Does(code, i, last, a, later, dec, t, r) && last < |code| && code[last].Mark?
    requires a.brk == st.brk && a.cont == st.cont && a.ret == st.ret
    ensures Does(code, i, last + 1, st, later, dec, t, r)
  {
    hide Does, Reaches;
    SameDoes(code, i, last, a, st, later, dec, t, r);
    forall dec: seq<bool>, t: seq<Event> ensures Reaches(code, Conf(last, dec, t), Conf(last + 1, dec, t)) {
      Stepping(code, Conf(last, dec, t), Conf(last + 1, dec, t));
    }
    ThenSteps(code, i, last, last + 1, st, later, dec, t, r);
  }

  lemma {:induction false} IfStart(code: seq<Instr>, pos: Positions, s: Stmt, st: Locals, at: nat, later: Locals,
                                   dec: seq<bool>, fuel: nat, t: seq<Event>)
    requires s.If? && PlanStmt(s, st).Some? && NamesOk(st) && Unique(code)
    requires Holds(code, pos, at, PlanStmt(s, st).value.orders) && Extends(PlanStmt(s, st).value.st, later)
    ensures Does(code, at, at + |PlanStmt(s, st).value.orders|, st, later, dec, t, Exec(s, st.depth, Start, dec, fuel))
    decreases fuel, s, 3
  {
    hide Does, Holds, Unique, NamesOk, Reaches, Where, Extends, PlanStmt, Exec;
    IfPlanned(s, st);
    var p := ThenPlan(s, st);
    var q := PlanStmt(s.els, p.st).value;
    var n, mid := st.next, at + 1 + |p.orders|;
    var end := mid + 3 + |q.orders|;
    IfPoints(code, pos, at, s.guard, n, st.depth, p.orders, q.orders);
    IfGrows(s, st, later);
    IfMeans(s, st.depth, dec, fuel);
    if dec == [] {
      ShortDoes(code, at, end, st, later, dec, t);
    } else if dec[0] {
      var r, t' := Exec(s.els, st.depth, Start, dec[1..], fuel), t + [Event(s.guard, st.depth)];
      Follows(code, pos, s.els, p.st, mid + 2, later, Start, 0, dec[1..], fuel, t');
      ElsThenEnd(code, mid + 2, mid + 2 + |q.orders|, p.st, st, later, dec[1..], t', r);
      Stepping(code, Conf(mid + 1, dec[1..], t'), Conf(mid + 2, dec[1..], t'));
      StepOn(code, Conf(at, dec, t), Conf(mid + 1, dec[1..], t'), Conf(mid + 2, dec[1..], t'));
      ThenAgain(code, at, dec, t, [Event(s.guard, st.depth)], mid + 2, dec[1..], end, st, later, r);
    } else {
      var r, t' := Exec(s.thn, st.depth, Start, dec[1..], fuel), t + [Event(s.guard, st.depth)];
      Follows(code, pos, s.thn, InIf(st), at + 1, later, Start, 0, dec[1..], fuel, t');
      ThnThenEnd(code, at + 1, at, st, later, s.guard, n, |p.orders|, |q.orders|, dec[1..], t', r);
      Stepping(code, Conf(at, dec, t), Conf(at + 1, dec[1..], t'));
      ThenAgain(code, at, dec, t, [Event(s.guard, st.depth)], at + 1, dec[1..], end, st, later, r);
    }
  }

  lemma ShortDoes(code: seq<Instr>, i: nat, end: nat, st: Locals, later: Locals, dec: seq<bool>, t: seq<Event>)
    ensures Does(code, i, end, st, later, dec, t, Short) && Does(code, i, end, st, later, dec, t, Wrong)
  {
  }

  lemma IfMeans(s: Stmt, d: nat, dec: seq<bool>, fuel: nat)
    requires s.If?
    ensures Exec(s, d, Start, dec, fuel)
         == if dec == [] then Short
            else Prefixed([Event(s.guard, d)], if dec[0] then Exec(s.els, d, Start, dec[1..], fuel) else Exec(s.thn, d, Start, dec[1..], fuel))
  {
  }

  // ----- labels -----

  lemma {:induction false} LabelFollows(code: seq<Instr>, pos: Positions, s: Stmt, st: Locals, at: nat, later: Locals,
                                        e: Entry, lab: nat, dec: seq<bool>, fuel: nat, t: seq<Event>)
    requires (s.Case? || s.Default? || s.Labeled?) && PlanStmt(s, st).Some? && Enters(s, e) && NamesOk(st) && Unique(code)
    requires Holds(code, pos, at, PlanStmt(s, st).value.orders) && Extends(PlanStmt(s, st).value.st, later)
    requires Entered(e, st, PlanStmt(s, st).value.st, later, lab)
    ensures Does(code, From(code, at, e, lab), at + |PlanStmt(s, st).value.orders|, st, later, dec, t, Exec(s, st.depth, e, dec, fuel))
    decreases fuel, s, 4
  {
    hide Does, Holds, Unique, NamesOk, Reaches, Where, Extends, From, Entered, Enters, PlanStmt, Exec;
    LabelUnfold(s, st);
    var (l, st') := LabelOf(s, st);
    var p := PlanStmt(s.stmt, st').value;
    var e' := if e == EntryOf(s) then Start else if s.Case? then Beyond(e, 1) else e;
    LabelPlanned(s, st, e, later, lab, dec, fuel);
    var r := Exec(s.stmt, st.depth, e', dec, fuel);
    var end := at + 1 + |p.orders|;
    HoldsParts(code, pos, at, [Fix(At(l), st.depth)], p.orders);
    HoldsAt(code, pos, at, [Fix(At(l), st.depth)], 0);
    Follows(code, pos, s.stmt, st', at + 1, later, e', lab, dec, fuel, t);
    SameDoes(code, From(code, at + 1, e', lab), end, st', st, later, dec, t, r);
    if e' == Start {
      FromLabel(code, at, e, l, lab);
      Stepping(code, Conf(at, dec, t), Conf(at + 1, dec, t));
      StartsThere(code, at + 1, lab);
      After(code, at, dec, at + 1, dec, end, st, later, t, r);
    } else {
      SameFrom(code, at, at + 1, e, if s.Case? then 1 else 0, lab);
      BeyondNone(e);
    }
  }

  lemma StartsThere(code: seq<Instr>, at: nat, lab: nat)
    ensures From(code, at, Start, lab) == at
  {
  }

  lemma FromLabel(code: seq<Instr>, at: nat, e: Entry, l: nat, lab: nat)
    requires (e.Start? || l == lab) && Where(code, At(l)) == at
    ensures From(code, at, e, lab) == at
  {
  }

  /** The label of a labeled statement, and the locals behind it. */
  function LabelOf(s: Stmt, st: Locals): (nat, Locals)
    requires (s.Case? && st.cases.Some?) || s.Default? || s.Labeled?
  {
    match s
    case Case(_) => (st.next, InCase(st))
    case Default(_) => (st.next, InDefault(st))
    case Labeled(x, _) => Name(st, x)
  }

  function EntryOf(s: Stmt): Entry
    requires s.Case? || s.Default? || s.Labeled?
  {
    match s
    case Case(_) => AtCase(0)
    case Default(_) => AtDefault
    case Labeled(x, _) => AtName(x)
  }

  lemma LabelPlanned(s: Stmt, st: Locals, e: Entry, later: Locals, lab: nat, dec: seq<bool>, fuel: nat)
    requires (s.Case? || s.Default? || s.Labeled?) && PlanStmt(s, st).Some? && Enters(s, e) && NamesOk(st)
    requires Entered(e, st, PlanStmt(s, st).value.st, later, lab) && Extends(PlanStmt(s, st).value.st, later)
    ensures s.Case? ==> st.cases.Some?
    ensures var (l, st') := LabelOf(s, st);
            var e' := if e == EntryOf(s) then Start else if s.Case? then Beyond(e, 1) else e;
            && PlanStmt(s.stmt, st').Some? && NamesOk(st')
            && PlanStmt(s, st).value == Planned(PlanStmt(s.stmt, st').value.st, [Fix(At(l), st.depth)] + PlanStmt(s.stmt, st').value.orders)
            && Enters(s.stmt, e') && Entered(e', st', PlanStmt(s.stmt, st').value.st, later, lab)
            && Exec(s, st.depth, e, dec, fuel) == Exec(s.stmt, st.depth, e', dec, fuel)
            && (e == EntryOf(s) ==> l == lab) && (e' == Start ==> e.Start? || e == EntryOf(s))
            && st'.brk == st.brk && st'.cont == st.cont && st'.ret == st.ret
  {
    hide NamesOk, Extends;
    LabelUnfold(s, st);
    var (l, st') := LabelOf(s, st);
    CasesGrow(s.stmt, st');
    if s.Labeled? {
      NameGrows(st, s.name);
      Grows(s.stmt, st');
      ExtendsOn(st', PlanStmt(s.stmt, st').value.st, later);
      NameKept(st', later, s.name);
    } else {
      ExtendsSame(st, st');
    }
  }

  lemma LabelUnfold(s: Stmt, st: Locals)
    requires (s.Case? || s.Default? || s.Labeled?) && PlanStmt(s, st).Some?
    ensures s.Case? ==> st.cases.Some?
    ensures s.Default? ==> st.dflt.None?
    ensures var (l, st') := LabelOf(s, st);
            && PlanStmt(s.stmt, st').Some?
            && PlanStmt(s, st).value == Planned(PlanStmt(s.stmt, st').value.st, [Fix(At(l), st.depth)] + PlanStmt(s.stmt, st').value.orders)
  {
  }

  lemma NameKept(a: Locals, b: Locals, x: string)
    requires Extends(a, b) && x in a.gotos
    ensures x in b.gotos && b.gotos[x] == a.gotos[x]
  {
  }

  // ----- loops -----

  /** What stands around the body of a loop, b long; its turns start at `at`. */
  predicate LoopAround(kind: Kind, code: seq<Instr>, at: nat, n: nat, d: nat, b: nat) {
    match kind
    case For(_, check, step) =>
      var u := |Eval(step, d)|;
      var end := at + 6 + u + b;
      && end + 1 < |code| && code[at].Mark? && code[at + 1].JumpIfZero? && code[at + 1].lab == At(n + 1)
      && code[at + 1].test == TestOf(check, d)
      && code[at + 2].Jump? && code[at + 2].lab == At(n + 3) && code[at + 3].Mark? && Acts(code, at + 4, step, d)
      && code[at + 4 + u].Jump? && code[at + 4 + u].lab == At(n + 2) && code[at + 5 + u].Mark?
      && code[end].Jump? && code[end].lab == At(n) && code[end + 1].Mark?
      && Where(code, At(n)) == at + 3 && Where(code, At(n + 1)) == end + 1
      && Where(code, At(n + 2)) == at && Where(code, At(n + 3)) == at + 5 + u
    case While(guard) =>
      var end := at + 2 + b;
      && end + 1 < |code| && code[at].Mark? && code[at + 1].JumpIfZero? && code[at + 1].lab == At(n + 1)
      && code[at + 1].test == Guard(guard, d)
      && code[end].Jump? && code[end].lab == At(n) && code[end + 1].Mark?
      && Where(code, At(n)) == at && Where(code, At(n + 1)) == end + 1
    case DoWhile(guard) =>
      var end := at + 1 + b;
      && end + 3 < |code| && code[at].Mark? && code[end].Mark? && code[end + 1].JumpIfZero? && code[end + 1].lab == At(n + 1)
      && code[end + 1].test == Guard(guard, d)
      && code[end + 2].Jump? && code[end + 2].lab == At(n + 2) && code[end + 3].Mark?
      && Where(code, At(n)) == end && Where(code, At(n + 1)) == end + 3 && Where(code, At(n + 2)) == at
  }

  function HeadSize(kind: Kind, d: nat): nat {
    match kind
    case For(_, _, step) => 6 + |Eval(step, d)|
    case While(_) => 2
    case DoWhile(_) => 1
  }

  function TailSize(kind: Kind): nat {
    if kind.DoWhile? then 4 else 2
  }

  lemma LoopPoints(code: seq<Instr>, pos: Positions, kind: Kind, at: nat, n: nat, d: nat, b: seq<Order>)
    requires Unique(code) && Holds(code, pos, at, Head(kind, n, d) + b + Tail(kind, n, d))
    ensures LoopAround(kind, code, at, n, d, |b|) && Holds(code, pos, at + HeadSize(kind, d), b)
    ensures |Head(kind, n, d) + b + Tail(kind, n, d)| == HeadSize(kind, d) + |b| + TailSize(kind)
  {
    hide Unique, Where, Holds, Acts;
    var h, t := Head(kind, n, d), Tail(kind, n, d);
    var end := at + |h| + |b|;
    HoldsParts(code, pos, at, h + b, t);
    HoldsParts(code, pos, at, h, b);
    HoldsAt(code, pos, at, h, 0);
    HoldsAt(code, pos, end, t, 0);
    HoldsAt(code, pos, end, t, 1);
    match kind {
      case For(_, _, _) => ForPoints(code, pos, kind, at, n, d);
      case While(_) => HoldsAt(code, pos, at, h, 1);
      case DoWhile(_) =>
        HoldsAt(code, pos, end, t, 2);
        HoldsAt(code, pos, end, t, 3);
    }
  }

  lemma ForPoints(code: seq<Instr>, pos: Positions, kind: Kind, at: nat, n: nat, d: nat)
    requires kind.For? && Unique(code) && Holds(code, pos, at, Head(kind, n, d))
    ensures var u := |Eval(kind.step, d)|;
            && at + 5 + u < |code| && code[at].Mark? && code[at + 1].JumpIfZero? && code[at + 1].lab == At(n + 1)
            && code[at + 1].test == TestOf(kind.check, d)
            && code[at + 2].Jump? && code[at + 2].lab == At(n + 3) && code[at + 3].Mark? && Acts(code, at + 4, kind.step, d)
            && code[at + 4 + u].Jump? && code[at + 4 + u].lab == At(n + 2) && code[at + 5 + u].Mark?
            && Where(code, At(n)) == at + 3 && Where(code, At(n + 2)) == at && Where(code, At(n + 3)) == at + 5 + u
  {
    hide Unique, Where, Holds, Acts;
    var a, e := Head(kind, n, d)[..4], Eval(kind.step, d);
    var b := [Go(At(n + 2), d, false), Fix(At(n + 3), d)];
    assert Head(kind, n, d) == a + e + b;
    HoldsParts(code, pos, at, a + e, b);
    HoldsParts(code, pos, at, a, e);
    HoldsAt(code, pos, at, a, 0);
    HoldsAt(code, pos, at, a, 1);
    HoldsAt(code, pos, at, a, 2);
    HoldsAt(code, pos, at, a, 3);
    HoldsEval(code, pos, at + 4, kind.step, d);
    HoldsAt(code, pos, at + 4 + |e|, b, 0);
    HoldsAt(code, pos, at + 4 + |e|, b, 1);
  }

  lemma {:induction false} LoopFollows(code: seq<Instr>, pos: Positions, s: Stmt, st: Locals, at: nat, later: Locals,
                                       e: Entry, lab: nat, dec: seq<bool>, fuel: nat, t: seq<Event>)
    requires s.Loop? && PlanStmt(s, st).Some? && Enters(s, e) && NamesOk(st) && Unique(code)
    requires Holds(code, pos, at, PlanStmt(s, st).value.orders) && Extends(PlanStmt(s, st).value.st, later)
    requires Entered(e, st, PlanStmt(s, st).value.st, later, lab)
    ensures Does(code, From(code, at, e, lab), at + |PlanStmt(s, st).value.orders|, st, later, dec, t, Exec(s, st.depth, e, dec, fuel))
    decreases fuel, s, 4
  {
    hide Does, Holds, Unique, NamesOk, Reaches, Where, Extends, From, Entered, Enters, PlanStmt, Exec, Turns, LoopAround, HeadSize, Eval;
    var st', kind := InLoop(s.kind, st), s.kind;
    LoopPlanned(s, st, e, later, lab);
    var p := PlanStmt(s.body, st').value;
    var top := at + |Eval(Before(kind), st.depth)|;
    var first, n := top + HeadSize(kind, st.depth), st.next;
    var end := first + |p.orders| + TailSize(kind);
    HoldsParts(code, pos, at, Eval(Before(kind), st.depth), Head(kind, n, st.depth) + p.orders + Tail(kind, n, st.depth));
    LoopPoints(code, pos, kind, top, n, st.depth, p.orders);
    LoopMeans(s, st.depth, e, dec, fuel);
    if e.Start? {
      var t' := t + Evaluated(Before(kind), st.depth);
      StartsThere(code, at, lab);
      EvalReaches(code, pos, at, Before(kind), st.depth, dec, t);
      TurnsFollow(code, pos, s, st, at, later, dec, fuel, t');
      ThenAgain(code, at, dec, t, Evaluated(Before(kind), st.depth), top, dec, end, st, later, Turns(kind, s.body, st.depth, dec, fuel));
    } else {
      Follows(code, pos, s.body, st', first, later, e, lab, dec, fuel, t);
      SameFrom(code, first, at, e, 0, lab);
      BeyondNone(e);
      BodyThenOn(code, pos, s, st, at, later, |p.orders|, From(code, at, e, lab), dec, t, Exec(s.body, st.depth, e, dec, fuel), fuel);
    }
  }

  /** From where its turns start. */
  lemma {:induction false} TurnsFollow(code: seq<Instr>, pos: Positions, s: Stmt, st: Locals, at: nat, later: Locals,
                                       dec: seq<bool>, fuel: nat, t: seq<Event>)
    requires s.Loop? && PlanStmt(s, st).Some? && NamesOk(st) && Unique(code)
    requires Holds(code, pos, at, PlanStmt(s, st).value.orders) && Extends(PlanStmt(s, st).value.st, later)
    ensures Does(code, at + |Eval(Before(s.kind), st.depth)|, at + |PlanStmt(s, st).value.orders|, st, later, dec, t,
                 Turns(s.kind, s.body, st.depth, dec, fuel))
    decreases fuel, s, 3
  {
    hide Does, Holds, Unique, NamesOk, Reaches, Where, Extends, From, Entered, Enters, PlanStmt, Exec, LoopAround, AfterBody, HeadSize, Eval;
    var st', kind := InLoop(s.kind, st), s.kind;
    StartEnters(s);
    StartEntered(code, at, st, PlanStmt(s, st).value.st, later);
    LoopPlanned(s, st, Start, later, 0);
    var p := PlanStmt(s.body, st').value;
    var top := at + |Eval(Before(kind), st.depth)|;
    var first, n := top + HeadSize(kind, st.depth), st.next;
    var end := first + |p.orders| + TailSize(kind);
    HoldsParts(code, pos, at, Eval(Before(kind), st.depth), Head(kind, n, st.depth) + p.orders + Tail(kind, n, st.depth));
    LoopPoints(code, pos, kind, top, n, st.depth, p.orders);
    StartsThere(code, first, 0);
    LoopGuard(kind, code, top, n, st.depth, |p.orders|, dec, t);
    if Top(kind).None? {
      var r := Exec(s.body, st.depth, Start, dec, fuel);
      Follows(code, pos, s.body, st', first, later, Start, 0, dec, fuel, t);
      BodyThenOn(code, pos, s, st, at, later, |p.orders|, first, dec, t, r, fuel);
      After(code, top, dec, first, dec, end, st, later, t, AfterBody(kind, s.body, st.depth, r, fuel));
    } else if dec == [] {
      ShortDoes(code, top, end, st, later, dec, t);
    } else {
      var g, rest := Top(kind).value, dec[1..];
      if dec[0] {
        NothingDone(code, end, st, later, rest, t + [Event(g, st.depth)]);
        ThenAgain(code, top, dec, t, [Event(g, st.depth)], end, rest, end, st, later, Res(Normal, rest, []));
      } else {
        var r := Exec(s.body, st.depth, Start, rest, fuel);
        Follows(code, pos, s.body, st', first, later, Start, 0, rest, fuel, t + [Event(g, st.depth)]);
        BodyThenOn(code, pos, s, st, at, later, |p.orders|, first, rest, t + [Event(g, st.depth)], r, fuel);
        ThenAgain(code, top, dec, t, [Event(g, st.depth)], first, rest, end, st, later, AfterBody(kind, s.body, st.depth, r, fuel));
      }
    }
  }

  lemma LoopPlanned(s: Stmt, st: Locals, e: Entry, later: Locals, lab: nat)
    requires s.Loop? && PlanStmt(s, st).Some? && NamesOk(st) && Extends(PlanStmt(s, st).value.st, later) && Enters(s, e)
    requires Entered(e, st, PlanStmt(s, st).value.st, later, lab)
    ensures var st' := InLoop(s.kind, st);
            && PlanStmt(s.body, st').Some? && NamesOk(st') && Extends(PlanStmt(s.body, st').value.st, later)
            && Enters(s.body, e) && Entered(e, st', PlanStmt(s.body, st').value.st, later, lab)
            && PlanStmt(s, st).value.orders
               == Eval(Before(s.kind), st.depth)
                  + (Head(s.kind, st.next, st.depth) + PlanStmt(s.body, st').value.orders + Tail(s.kind, st.next, st.depth))
  {
    hide Head, Tail, Eval, PlanStmt, Entered, NamesOk, Extends;
    LoopUnfold(s, st);
    ExtendsSame(st, InLoop(s.kind, st));
    var r, q := PlanStmt(s, st).value.st, PlanStmt(s.body, InLoop(s.kind, st)).value.st;
    ExtendsSame(q, r);
    ExtendsOn(q, r, later);
    SameEntered(e, st, r, q, later, lab);
    EnteredFrom(e, st, InLoop(s.kind, st), q, later, lab);
  }

  lemma LoopUnfold(s: Stmt, st: Locals)
    requires s.Loop? && PlanStmt(s, st).Some?
    ensures PlanStmt(s.body, InLoop(s.kind, st)).Some?
    ensures PlanStmt(s, st) == AsLoop(s.kind, st, PlanStmt(s.body, InLoop(s.kind, st)))
  {
    hide Head, Tail;
  }

  lemma EnteredFrom(e: Entry, st: Locals, st': Locals, r: Locals, later: Locals, lab: nat)
    requires Entered(e, st, r, later, lab) && st'.cases == st.cases
    ensures Entered(e, st', r, later, lab)
  {
  }

  lemma LoopMeans(s: Stmt, d: nat, e: Entry, dec: seq<bool>, fuel: nat)
    requires s.Loop? && Enters(s, e) && Enters(s.body, e)
    ensures Exec(s, d, e, dec, fuel)
         == if e.Start? then Prefixed(Evaluated(Before(s.kind), d), Turns(s.kind, s.body, d, dec, fuel))
            else AfterBody(s.kind, s.body, d, Exec(s.body, d, e, dec, fuel), fuel)
  {
    hide AfterBody, Turns;
  }

  /** From where the turns of a loop start to its body, or to its end. */
  lemma LoopGuard(kind: Kind, code: seq<Instr>, at: nat, n: nat, d: nat, b: nat, dec: seq<bool>, t: seq<Event>)
    requires LoopAround(kind, code, at, n, d, b)
    ensures Top(kind).None? ==> Reaches(code, Conf(at, dec, t), Conf(at + HeadSize(kind, d), dec, t))
    ensures Top(kind).Some? && dec != [] ==>
              Reaches(code, Conf(at, dec, t),
                      Conf(if dec[0] then at + HeadSize(kind, d) + b + 2 else at + HeadSize(kind, d), dec[1..], t + [Event(Top(kind).value, d)]))
  {
    hide Reaches, Where;
    Stepping(code, Conf(at, dec, t), Conf(at + 1, dec, t));
    if kind.For? && kind.check.None? {
      ForBody(kind, code, at, n, d, b, dec, t);
      StepOn(code, Conf(at + 1, dec, t), Conf(at + 2, dec, t), Conf(at + HeadSize(kind, d), dec, t));
      ReachesOn(code, Conf(at, dec, t), Conf(at + 1, dec, t), Conf(at + HeadSize(kind, d), dec, t));
    } else if !kind.DoWhile? && dec != [] {
      var last, rest, t' := at + HeadSize(kind, d) + b + 1, dec[1..], t + [Event(Top(kind).value, d)];
      if dec[0] {
        Stepping(code, Conf(last, rest, t'), Conf(last + 1, rest, t'));
        StepOn(code, Conf(at + 1, dec, t), Conf(last, rest, t'), Conf(last + 1, rest, t'));
        ReachesOn(code, Conf(at, dec, t), Conf(at + 1, dec, t), Conf(last + 1, rest, t'));
      } else if kind.While? {
        Stepping(code, Conf(at + 1, dec, t), Conf(at + 2, rest, t'));
        ReachesOn(code, Conf(at, dec, t), Conf(at + 1, dec, t), Conf(at + 2, rest, t'));
      } else {
        ForBody(kind, code, at, n, d, b, rest, t');
        StepOn(code, Conf(at + 1, dec, t), Conf(at + 2, rest, t'), Conf(at + HeadSize(kind, d), rest, t'));
        ReachesOn(code, Conf(at, dec, t), Conf(at + 1, dec, t), Conf(at + HeadSize(kind, d), rest, t'));
      }
    }
  }

  /** Past the iteration expression of a `for`, to its body. */
  lemma ForBody(kind: Kind, code: seq<Instr>, at: nat, n: nat, d: nat, b: nat, dec: seq<bool>, t: seq<Event>)
    requires kind.For? && LoopAround(kind, code, at, n, d, b)
    ensures Reaches(code, Conf(at + 2, dec, t), Conf(at + HeadSize(kind, d), dec, t))
  {
    hide Reaches, Where;
    var body := at + HeadSize(kind, d);
    Stepping(code, Conf(body - 1, dec, t), Conf(body, dec, t));
    StepOn(code, Conf(at + 2, dec, t), Conf(body - 1, dec, t), Conf(body, dec, t));
  }

  /** From the end of the body, and from where `continue` leads, back to the next turn, or to the end. */
  lemma LoopBack(kind: Kind, code: seq<Instr>, at: nat, n: nat, d: nat, b: nat, from: nat, dec: seq<bool>, t: seq<Event>)
    requires LoopAround(kind, code, at, n, d, b) && (from == at + HeadSize(kind, d) + b || from == Where(code, At(n)))
    ensures !kind.DoWhile? ==> Reaches(code, Conf(from, dec, t), Conf(at, dec, t + Evaluated(Between(kind), d)))
    ensures kind.DoWhile? && dec != [] ==>
              Reaches(code, Conf(from, dec, t), Conf(if dec[0] then at + 1 + b + 4 else at, dec[1..], t + [Event(kind.guard, d)]))
  {
    hide Reaches, Where;
    var mid := at + HeadSize(kind, d) + b;
    match kind {
      case For(_, _, step) =>
        var u, t' := |Eval(step, d)|, t + Evaluated(step, d);
        ActsReach(code, at + 4, step, d, dec, t);
        Stepping(code, Conf(at + 4 + u, dec, t'), Conf(at, dec, t'));
        ReachesOn(code, Conf(at + 4, dec, t), Conf(at + 4 + u, dec, t'), Conf(at, dec, t'));
        StepOn(code, Conf(at + 3, dec, t), Conf(at + 4, dec, t), Conf(at, dec, t'));
        StepOn(code, Conf(mid, dec, t), Conf(at + 3, dec, t), Conf(at, dec, t'));
      case While(_) =>
        assert t + [] == t;
        ReachesSelf(code, Conf(at, dec, t));
        Stepping(code, Conf(mid, dec, t), Conf(at, dec, t));
      case DoWhile(guard) =>
        if dec != [] {
          var t' := t + [Event(guard, d)];
          if dec[0] {
            Stepping(code, Conf(mid + 3, dec[1..], t'), Conf(mid + 4, dec[1..], t'));
            StepOn(code, Conf(mid + 1, dec, t), Conf(mid + 3, dec[1..], t'), Conf(mid + 4, dec[1..], t'));
            StepOn(code, Conf(mid, dec, t), Conf(mid + 1, dec, t), Conf(mid + 4, dec[1..], t'));
          } else {
            Stepping(code, Conf(mid + 2, dec[1..], t'), Conf(at, dec[1..], t'));
            StepOn(code, Conf(mid + 1, dec, t), Conf(mid + 2, dec[1..], t'), Conf(at, dec[1..], t'));
            StepOn(code, Conf(mid, dec, t), Conf(mid + 1, dec, t), Conf(at, dec[1..], t'));
          }
        }
    }
  }

  lemma {:induction false} BodyThenOn(code: seq<Instr>, pos: Positions, s: Stmt, st: Locals, at: nat, later: Locals, b: nat,
                                      i: nat, dec: seq<bool>, t: seq<Event>, r: Res, fuel: nat)
    requires s.Loop? && PlanStmt(s, st).Some? && NamesOk(st) && Unique(code)
    requires Holds(code, pos, at, PlanStmt(s, st).value.orders) && Extends(PlanStmt(s, st).value.st, later)
    requires var u := |Eval(Before(s.kind), st.depth)|;
             && LoopAround(s.kind, code, at + u, st.next, st.depth, b)
             && |PlanStmt(s, st).value.orders| == u + HeadSize(s.kind, st.depth) + b + TailSize(s.kind)
             && Does(code, i, at + u + HeadSize(s.kind, st.depth) + b, InLoop(s.kind, st), later, dec, t, r)
    ensures Does(code, i, at + |PlanStmt(s, st).value.orders|, st, later, dec, t, AfterBody(s.kind, s.body, st.depth, r, fuel))
    decreases fuel, s, 2
  {
    hide Does, Holds, Unique, NamesOk, Reaches, Where, Extends, PlanStmt, Turns, LoopAround, HeadSize, Eval;
    var top := at + |Eval(Before(s.kind), st.depth)|;
    var mid := top + HeadSize(s.kind, st.depth) + b;
    var end := mid + TailSize(s.kind);
    if !r.Res? {
      ShortDoes(code, i, end, st, later, dec, t);
    } else if r.out.Broke? {
      BreaksLoop(code, s.kind, top, st, later, b, i, dec, t, r);
    } else if r.out.Normal? || r.out.Continued? {
      var from := if r.out.Normal? then mid else Where(code, At(st.next));
      LeavesBody(code, i, mid, InLoop(s.kind, st), later, dec, t, r, from);
      GoesOn(code, pos, s, st, at, later, b, i, from, dec, t, r, fuel);
    } else {
      OtherEnd(code, i, mid, end, InLoop(s.kind, st), later, dec, t, r);
      OtherTarget(code, i, end, s.kind, st, later, dec, t, r);
    }
  }

  /** Behind a body that has ended or continues. */
  lemma {:induction false} GoesOn(code: seq<Instr>, pos: Positions, s: Stmt, st: Locals, at: nat, later: Locals, b: nat,
                                  i: nat, from: nat, dec: seq<bool>, t: seq<Event>, r: Res, fuel: nat)
    requires s.Loop? && PlanStmt(s, st).Some? && NamesOk(st) && Unique(code)
    requires Holds(code, pos, at, PlanStmt(s, st).value.orders) && Extends(PlanStmt(s, st).value.st, later)
    requires r.Res? && (r.out.Normal? || r.out.Continued?) && Reaches(code, Conf(i, dec, t), Conf(from, r.rest, t + r.trace))
    requires var top := at + |Eval(Before(s.kind), st.depth)|;
             && LoopAround(s.kind, code, top, st.next, st.depth, b)
             && |PlanStmt(s, st).value.orders| == |Eval(Before(s.kind), st.depth)| + HeadSize(s.kind, st.depth) + b + TailSize(s.kind)
             && (from == top + HeadSize(s.kind, st.depth) + b || from == Where(code, At(st.next)))
    ensures Does(code, i, at + |PlanStmt(s, st).value.orders|, st, later, dec, t, AfterBody(s.kind, s.body, st.depth, r, fuel))
    decreases fuel, s, 1
  {
    hide Does, Holds, Unique, NamesOk, Reaches, Where, Extends, PlanStmt, Turns, LoopAround, Eval;
    var top, end := at + |Eval(Before(s.kind), st.depth)|, at + |PlanStmt(s, st).value.orders|;
    if (s.kind.DoWhile? && r.rest == []) || (fuel == 0 && !s.kind.DoWhile?) {
      ShortDoes(code, i, end, st, later, dec, t);
    } else {
      var more := if s.kind.DoWhile? then [Event(s.kind.guard, st.depth)] else Evaluated(Between(s.kind), st.depth);
      var ends := s.kind.DoWhile? && r.rest[0];
      var left := if s.kind.DoWhile? then r.rest[1..] else r.rest;
      var goal, tr := if ends then end else top, r.trace + more;
      LoopBack(s.kind, code, top, st.next, st.depth, b, from, r.rest, t + r.trace);
      assert t + r.trace + more == t + tr;
      ReachesOn(code, Conf(i, dec, t), Conf(from, r.rest, t + r.trace), Conf(goal, left, t + tr));
      if ends {
        NothingDone(code, end, st, later, left, t + tr);
        ThenAgain(code, i, dec, t, tr, end, left, end, st, later, Res(Normal, left, []));
      } else if fuel == 0 {
        ShortDoes(code, i, end, st, later, dec, t);
      } else {
        TurnsFollow(code, pos, s, st, at, later, left, fuel - 1, t + tr);
        ThenAgain(code, i, dec, t, tr, top, left, end, st, later, Turns(s.kind, s.body, st.depth, left, fuel - 1));
      }
    }
  }

  lemma StartEnters(s: Stmt)
    ensures Enters(s, Start)
  {
  }

  lemma StartEntered(code: seq<Instr>, at: nat, st: Locals, r: Locals, later: Locals)
    ensures Entered(Start, st, r, later, 0) && From(code, at, Start, 0) == at
  {
  }

  /** A body that ends or continues. */
  lemma LeavesBody(code: seq<Instr>, i: nat, mid: nat, st: Locals, later: Locals, dec: seq<bool>, t: seq<Event>, r: Res, from: nat)
    requires r.Res? && Does(code, i, mid, st, later, dec, t, r)
    requires (r.out.Normal? && from == mid) || (r.out.Continued? && st.cont.Some? && from == Where(code, At(st.cont.value)))
    ensures Reaches(code, Conf(i, dec, t), Conf(from, r.rest, t + r.trace))
  {
  }

  lemma BreaksLoop(code: seq<Instr>, kind: Kind, at: nat, st: Locals, later: Locals, b: nat,
                   i: nat, dec: seq<bool>, t: seq<Event>, r: Res)
    requires LoopAround(kind, code, at, st.next, st.depth, b) && r.Res? && r.out.Broke?
    requires Does(code, i, at + HeadSize(kind, st.depth) + b, InLoop(kind, st), later, dec, t, r)
    ensures Does(code, i, at + HeadSize(kind, st.depth) + b + TailSize(kind), st, later, dec, t, Ended(r))
  {
    hide Reaches, Where;
    var last, t' := at + HeadSize(kind, st.depth) + b + TailSize(kind) - 1, t + r.trace;
    assert Where(code, At(st.next + 1)) == last && code[last].Mark?;
    Stepping(code, Conf(last, r.rest, t'), Conf(last + 1, r.rest, t'));
    ReachesOn(code, Conf(i, dec, t), Conf(last, r.rest, t'), Conf(last + 1, r.rest, t'));
  }

  /** `return` and `goto` lead to the same places inside a loop and outside. */
  lemma OtherTarget(code: seq<Instr>, i: nat, end: nat, kind: Kind, st: Locals, later: Locals, dec: seq<bool>, t: seq<Event>, r: Res)
    requires r.Res? && (r.out.Returned? || r.out.Went?) && Does(code, i, end, InLoop(kind, st), later, dec, t, r)
    ensures Does(code, i, end, st, later, dec, t, Ended(r))
  {
  }

  // ----- switches -----

  /** What stands around the body of a switch, b long, and its dispatch, c long. */
  predicate SwitchAround(code: seq<Instr>, at: nat, on: nat, n: nat, d: nat, b: nat, c: nat) {
    var mid := at + 3 + b;
    && mid + 2 + c < |code| && code[at] == Act(on, d) && code[at + 1].Grow? && code[at + 2].Jump? && code[at + 2].lab == AtValue(n + 1)
    && code[mid].Jump? && code[mid].lab == At(n) && code[mid + 1].Mark? && code[mid + 2 + c].Mark?
    && Where(code, AtValue(n + 1)) == mid + 1 && Where(code, At(n)) == mid + 2 + c
  }

  lemma SwitchPoints(code: seq<Instr>, pos: Positions, at: nat, on: nat, n: nat, d: nat, b: seq<Order>, c: seq<Order>)
    requires Unique(code) && Holds(code, pos, at, SwitchOrders(on, n, d, b, c))
    ensures SwitchAround(code, at, on, n, d, |b|, |c|) && Holds(code, pos, at + 3, b) && Holds(code, pos, at + 5 + |b|, c)
    ensures |SwitchOrders(on, n, d, b, c)| == |b| + |c| + 6
  {
    hide Unique, Where, Holds;
    var a, m, f := [Do(on, d), Push(8), Go(AtValue(n + 1), d, false)], [Go(At(n), d, false), Fix(AtValue(n + 1), d)], [Fix(At(n), d)];
    HoldsParts(code, pos, at, a + b + m + c, f);
    HoldsParts(code, pos, at, a + b + m, c);
    HoldsParts(code, pos, at, a + b, m);
    HoldsParts(code, pos, at, a, b);
    HoldsAt(code, pos, at, a, 0);
    HoldsAt(code, pos, at, a, 1);
    HoldsAt(code, pos, at, a, 2);
    HoldsAt(code, pos, at + 3 + |b|, m, 0);
    HoldsAt(code, pos, at + 3 + |b|, m, 1);
    HoldsAt(code, pos, at + 5 + |b| + |c|, f, 0);
  }

  /** The comparisons lead to the first label that is picked, or past them all. */
  lemma {:induction false} ComparisonsReach(code: seq<Instr>, pos: Positions, at: nat, labs: seq<nat>, d: nat,
                                            dec: seq<bool>, t: seq<Event>)
    requires Holds(code, pos, at, Comparisons(labs, d))
    ensures var r := Pick(dec, |labs|);
            r.Some? ==>
              if r.value.0.Some? then
                r.value.0.value < |labs| && Reaches(code, Conf(at, dec, t), Conf(Where(code, At(labs[r.value.0.value])), r.value.1, t))
              else Reaches(code, Conf(at, dec, t), Conf(at + |Comparisons(labs, d)|, r.value.1, t))
    decreases |labs|
  {
    hide Reaches, Where, Holds;
    if labs == [] {
      HoldsAt(code, pos, at, [Pop(8)], 0);
      Stepping(code, Conf(at, dec, t), Conf(at + 1, dec, t));
    } else {
      HoldsParts(code, pos, at, Compare(labs[0], d), Comparisons(labs[1..], d));
      if dec != [] {
        CompareReaches(code, pos, at, labs[0], d, dec, t);
        if !dec[0] {
          ComparisonsReach(code, pos, at + 5, labs[1..], d, dec[1..], t);
          var r := Pick(dec[1..], |labs| - 1);
          if r.Some? {
            var goal := if r.value.0.Some? then Where(code, At(labs[1..][r.value.0.value])) else at + |Comparisons(labs, d)|;
            ReachesOn(code, Conf(at, dec, t), Conf(at + 5, dec[1..], t), Conf(goal, r.value.1, t));
          }
        }
      }
    }
  }

  lemma CompareReaches(code: seq<Instr>, pos: Positions, at: nat, l: nat, d: nat, dec: seq<bool>, t: seq<Event>)
    requires Holds(code, pos, at, Compare(l, d)) && dec != []
    ensures Reaches(code, Conf(at, dec, t), Conf(if dec[0] then Where(code, At(l)) else at + 5, dec[1..], t))
  {
    hide Reaches, Where, Holds;
    var c := Compare(l, d);
    HoldsAt(code, pos, at, c, 0);
    HoldsAt(code, pos, at, c, 1);
    HoldsAt(code, pos, at, c, 2);
    HoldsAt(code, pos, at, c, 3);
    HoldsAt(code, pos, at, c, 4);
    var goal := Conf(if dec[0] then Where(code, At(l)) else at + 5, dec[1..], t);
    assert t + [] == t;
    if dec[0] {
      Stepping(code, Conf(at + 3, dec, t), goal);
    } else {
      Stepping(code, Conf(at + 4, dec[1..], t), goal);
      StepOn(code, Conf(at + 3, dec, t), Conf(at + 4, dec[1..], t), goal);
    }
    StepOn(code, Conf(at + 2, dec, t), Conf(at + 3, dec, t), goal);
    StepOn(code, Conf(at + 1, dec, t), Conf(at + 2, dec, t), goal);
    StepOn(code, Conf(at, dec, t), Conf(at + 1, dec, t), goal);
  }

  /** From the dispatch to the label of the case that is picked, to the default, or past the dispatch. */
  lemma DispatchReaches(code: seq<Instr>, pos: Positions, at: nat, labs: seq<nat>, dflt: Option<nat>, d: nat,
                        dec: seq<bool>, t: seq<Event>)
    requires Holds(code, pos, at, Dispatch(labs, dflt, d))
    ensures var r := Pick(dec, |labs|);
            r.Some? ==>
              if r.value.0.Some? then
                r.value.0.value < |labs| && Reaches(code, Conf(at, dec, t), Conf(Where(code, At(labs[r.value.0.value])), r.value.1, t))
              else
                Reaches(code, Conf(at, dec, t),
                        Conf(if dflt.Some? then Where(code, At(dflt.value)) else at + |Dispatch(labs, dflt, d)|, r.value.1, t))
  {
    hide Reaches, Where, Holds, Comparisons;
    var c := Comparisons(labs, d);
    var more := if dflt.Some? then [Go(At(dflt.value), d, true)] else [];
    HoldsParts(code, pos, at, c, more);
    ComparisonsReach(code, pos, at, labs, d, dec, t);
    if dflt.Some? && Pick(dec, |labs|).Some? && Pick(dec, |labs|).value.0.None? {
      var rest := Pick(dec, |labs|).value.1;
      HoldsAt(code, pos, at + |c|, more, 0);
      Stepping(code, Conf(at + |c|, rest, t), Conf(Where(code, At(dflt.value)), rest, t));
      ReachesOn(code, Conf(at, dec, t), Conf(at + |c|, rest, t), Conf(Where(code, At(dflt.value)), rest, t));
    }
  }

  lemma {:induction false} SwitchFollows(code: seq<Instr>, pos: Positions, s: Stmt, st: Locals, at: nat, later: Locals,
                                         e: Entry, lab: nat, dec: seq<bool>, fuel: nat, t: seq<Event>)
    requires s.Switch? && PlanStmt(s, st).Some? && Enters(s, e) && NamesOk(st) && Unique(code)
    requires Holds(code, pos, at, PlanStmt(s, st).value.orders) && Extends(PlanStmt(s, st).value.st, later)
    requires Entered(e, st, PlanStmt(s, st).value.st, later, lab)
    ensures Does(code, From(code, at, e, lab), at + |PlanStmt(s, st).value.orders|, st, later, dec, t, Exec(s, st.depth, e, dec, fuel))
    decreases fuel, s, 4
  {
    hide Does, Holds, Unique, NamesOk, Reaches, Where, Extends, From, Entered, Enters, PlanStmt, Exec, SwitchAround, Dispatch;
    var st' := InSwitch(st);
    SwitchPlanned(s, st, later);
    var p := PlanStmt(s.body, st').value;
    var c := Dispatch(p.st.cases.value, p.st.dflt, st.depth);
    SwitchPoints(code, pos, at, s.on, st.next, st.depth, p.orders, c);
    if e.Start? {
      StartsThere(code, at, lab);
      SwitchStart(code, pos, s, st, at, later, dec, fuel, t);
    } else {
      SwitchEntry(s, e, st, later, lab, dec, fuel);
      Follows(code, pos, s.body, st', at + 3, later, e, lab, dec, fuel, t);
      SameFrom(code, at + 3, at, e, 0, lab);
      BeyondNone(e);
      EndsSwitch(code, at, s.on, st, later, |p.orders|, |c|, From(code, at, e, lab), dec, t, Exec(s.body, st.depth, e, dec, fuel));
    }
  }

  lemma SwitchPlanned(s: Stmt, st: Locals, later: Locals)
    requires s.Switch? && PlanStmt(s, st).Some? && NamesOk(st) && Extends(PlanStmt(s, st).value.st, later)
    ensures var st' := InSwitch(st);
            && PlanStmt(s.body, st').Some? && NamesOk(st') && Extends(PlanStmt(s.body, st').value.st, later)
            && PlanStmt(s.body, st').value.st.cases.Some?
            && |PlanStmt(s.body, st').value.st.cases.value| == Cases(s.body)
            && (PlanStmt(s.body, st').value.st.dflt.Some? <==> Defaults(s.body) > 0)
            && PlanStmt(s, st).value.orders
               == SwitchOrders(s.on, st.next, st.depth, PlanStmt(s.body, st').value.orders,
                               Dispatch(PlanStmt(s.body, st').value.st.cases.value, PlanStmt(s.body, st').value.st.dflt, st.depth))
  {
    hide Dispatch, SwitchOrders;
    ExtendsSame(st, InSwitch(st));
    CasesGrow(s.body, InSwitch(st));
  }

  lemma SwitchEntry(s: Stmt, e: Entry, st: Locals, later: Locals, lab: nat, dec: seq<bool>, fuel: nat)
    requires s.Switch? && PlanStmt(s, st).Some? && PlanStmt(s.body, InSwitch(st)).Some? && Enters(s, e) && !e.Start?
    requires Entered(e, st, PlanStmt(s, st).value.st, later, lab)
    ensures Enters(s.body, e) && Entered(e, InSwitch(st), PlanStmt(s.body, InSwitch(st)).value.st, later, lab)
    ensures Exec(s, st.depth, e, dec, fuel) == Ended(Exec(s.body, st.depth, e, dec, fuel))
  {
    hide PlanStmt;
  }

  /** From inside the body of a switch to its end. */
  lemma EndsSwitch(code: seq<Instr>, at: nat, on: nat, st: Locals, later: Locals, b: nat, c: nat,
                   i: nat, dec: seq<bool>, t: seq<Event>, r: Res)
    requires SwitchAround(code, at, on, st.next, st.depth, b, c) && Does(code, i, at + 3 + b, InSwitch(st), later, dec, t, r)
    ensures Does(code, i, at + 6 + b + c, st, later, dec, t, Ended(r))
  {
    hide Reaches, Where;
    var mid, last := at + 3 + b, at + 5 + b + c;
    if r.Res? && (r.out.Normal? || r.out.Broke?) {
      var t' := t + r.trace;
      Stepping(code, Conf(last, r.rest, t'), Conf(last + 1, r.rest, t'));
      StepOn(code, Conf(mid, r.rest, t'), Conf(last, r.rest, t'), Conf(last + 1, r.rest, t'));
      ReachesOn(code, Conf(i, dec, t), Conf(if r.out.Normal? then mid else last, r.rest, t'), Conf(last + 1, r.rest, t'));
    }
  }

  lemma {:induction false} SwitchStart(code: seq<Instr>, pos: Positions, s: Stmt, st: Locals, at: nat, later: Locals,
                                       dec: seq<bool>, fuel: nat, t: seq<Event>)
    requires s.Switch? && PlanStmt(s, st).Some? && NamesOk(st) && Unique(code)
    requires Holds(code, pos, at, PlanStmt(s, st).value.orders) && Extends(PlanStmt(s, st).value.st, later)
    ensures Does(code, at, at + |PlanStmt(s, st).value.orders|, st, later, dec, t, Exec(s, st.depth, Start, dec, fuel))
    decreases fuel, s, 3
  {
    hide Does, Holds, Unique, NamesOk, Reaches, Where, Extends, From, Entered, Enters, PlanStmt, Exec, SwitchAround, Dispatch, Pick;
    var st' := InSwitch(st);
    SwitchPlanned(s, st, later);
    var p := PlanStmt(s.body, st').value;
    var labs, dflt := p.st.cases.value, p.st.dflt;
    var c := Dispatch(labs, dflt, st.depth);
    var mid := at + 3 + |p.orders|;
    var end, t' := mid + 3 + |c|, t + [Event(s.on, st.depth)];
    SwitchPoints(code, pos, at, s.on, st.next, st.depth, p.orders, c);
    ToDispatch(code, at, s.on, st.next, st.depth, |p.orders|, |c|, dec, t);
    DispatchReaches(code, pos, mid + 2, labs, dflt, st.depth, dec, t');
    SwitchMeans(s, st.depth, dec, fuel);
    var r := Pick(dec, Cases(s.body));
    if r.None? {
      ShortDoes(code, at, end, st, later, dec, t);
    } else if r.value.0.Some? {
      var k, rest := r.value.0.value, r.value.1;
      var x, q := Where(code, At(labs[k])), Exec(s.body, st.depth, AtCase(k), rest, fuel);
      ReachesOn(code, Conf(at, dec, t), Conf(mid + 2, dec, t'), Conf(x, rest, t'));
      EntersCase(code, at + 3, s.body, k, st', p.st, later, labs[k]);
      Follows(code, pos, s.body, st', at + 3, later, AtCase(k), labs[k], rest, fuel, t');
      EndsSwitch(code, at, s.on, st, later, |p.orders|, |c|, x, rest, t', q);
      ThenAgain(code, at, dec, t, [Event(s.on, st.depth)], x, rest, end, st, later, Ended(q));
    } else if dflt.Some? {
      EntersDefault(code, at + 3, s.body, st', p.st, later, dflt.value);
      var rest := r.value.1;
      var x, q := Where(code, At(dflt.value)), Exec(s.body, st.depth, AtDefault, rest, fuel);
      ReachesOn(code, Conf(at, dec, t), Conf(mid + 2, dec, t'), Conf(x, rest, t'));
      Follows(code, pos, s.body, st', at + 3, later, AtDefault, dflt.value, rest, fuel, t');
      EndsSwitch(code, at, s.on, st, later, |p.orders|, |c|, x, rest, t', q);
      ThenAgain(code, at, dec, t, [Event(s.on, st.depth)], x, rest, end, st, later, Ended(q));
    } else {
      var rest := r.value.1;
      PastDispatch(code, at, s.on, st.next, st.depth, |p.orders|, |c|, rest, t');
      ReachesOn(code, Conf(at, dec, t), Conf(mid + 2, dec, t'), Conf(end - 1, rest, t'));
      ReachesOn(code, Conf(at, dec, t), Conf(end - 1, rest, t'), Conf(end, rest, t'));
      NothingDone(code, end, st, later, rest, t');
      ThenAgain(code, at, dec, t, [Event(s.on, st.depth)], end, rest, end, st, later, Res(Normal, rest, []));
    }
  }

  lemma ToDispatch(code: seq<Instr>, at: nat, on: nat, n: nat, d: nat, b: nat, c: nat, dec: seq<bool>, t: seq<Event>)
    requires SwitchAround(code, at, on, n, d, b, c)
    ensures Reaches(code, Conf(at, dec, t), Conf(at + 5 + b, dec, t + [Event(on, d)]))
  {
    hide Reaches, Where;
    var mid, t' := at + 3 + b, t + [Event(on, d)];
    Stepping(code, Conf(mid + 1, dec, t'), Conf(mid + 2, dec, t'));
    StepOn(code, Conf(at + 2, dec, t'), Conf(mid + 1, dec, t'), Conf(mid + 2, dec, t'));
    StepOn(code, Conf(at + 1, dec, t'), Conf(at + 2, dec, t'), Conf(mid + 2, dec, t'));
    StepOn(code, Conf(at, dec, t), Conf(at + 1, dec, t'), Conf(mid + 2, dec, t'));
  }

  lemma PastDispatch(code: seq<Instr>, at: nat, on: nat, n: nat, d: nat, b: nat, c: nat, dec: seq<bool>, t: seq<Event>)
    requires SwitchAround(code, at, on, n, d, b, c)
    ensures Reaches(code, Conf(at + 5 + b + c, dec, t), Conf(at + 6 + b + c, dec, t))
  {
    hide Reaches, Where;
    Stepping(code, Conf(at + 5 + b + c, dec, t), Conf(at + 6 + b + c, dec, t));
  }

  lemma SwitchMeans(s: Stmt, d: nat, dec: seq<bool>, fuel: nat)
    requires s.Switch?
    ensures var p, r := Pick(dec, Cases(s.body)), Exec(s, d, Start, dec, fuel);
            if p.None? then r == Short
            else if p.value.0.Some? then
              && Enters(s.body, AtCase(p.value.0.value))
              && r == Prefixed([Event(s.on, d)], Ended(Exec(s.body, d, AtCase(p.value.0.value), p.value.1, fuel)))
            else if Defaults(s.body) > 0 then r == Prefixed([Event(s.on, d)], Ended(Exec(s.body, d, AtDefault, p.value.1, fuel)))
            else r == Prefixed([Event(s.on, d)], Res(Normal, p.value.1, []))
  {
    hide Pick;
    PickInside(dec, Cases(s.body));
  }

  lemma EntersCase(code: seq<Instr>, at: nat, body: Stmt, k: nat, st: Locals, r: Locals, later: Locals, lab: nat)
    requires k < Cases(body) && st.cases == Some([]) && r.cases.Some? && k < |r.cases.value| && r.cases.value[k] == lab
    ensures Enters(body, AtCase(k)) && Entered(AtCase(k), st, r, later, lab)
    ensures From(code, at, AtCase(k), lab) == Where(code, At(lab))
  {
  }

  lemma EntersDefault(code: seq<Instr>, at: nat, body: Stmt, st: Locals, r: Locals, later: Locals, lab: nat)
    requires Defaults(body) > 0 && r.dflt == Some(lab)
    ensures Enters(body, AtDefault) && Entered(AtDefault, st, r, later, lab)
    ensures From(code, at, AtDefault, lab) == Where(code, At(lab))
  {
  }

  // ----- functions -----

  /** What stands behind the statements of a function: the end of its block, the label that `return` goes
      to, and the epilogue. */
  predicate FunctionAround(code: seq<Instr>, mid: nat, n: nat) {
    && |code| == mid + 3 && code[mid].Shrink? && code[mid + 1].Mark? && code[mid + 2].Leave?
    && Where(code, At(n)) == mid + 1
  }

  lemma FunctionPoints(code: seq<Instr>, pos: Positions, body: Items, n: nat)
    requires PlanFunction(body, n).Some? && Unique(code) && code == Code(PlanFunction(body, n).value.orders, pos)
    ensures PlanItems(body, Fresh(n)).Some?
    ensures var p := PlanItems(body, Fresh(n)).value;
            && Holds(code, pos, 0, p.orders) && FunctionAround(code, |p.orders|, n)
            && PlanFunction(body, n).value.st == p.st.(depth := 0)
  {
    hide Unique, Where, PlanItems, PlanFunction, Holds;
    FunctionUnfold(body, n);
    var p := PlanItems(body, Fresh(n)).value;
    var a, b := [Pop(p.st.depth)], [Fix(At(n), 0), Finish];
    HoldsWhole(p.orders + a + b, pos);
    HoldsParts(code, pos, 0, p.orders + a, b);
    HoldsParts(code, pos, 0, p.orders, a);
    HoldsAt(code, pos, |p.orders|, a, 0);
    HoldsAt(code, pos, |p.orders| + 1, b, 0);
    HoldsAt(code, pos, |p.orders| + 1, b, 1);
  }

  lemma FunctionUnfold(body: Items, n: nat)
    requires PlanFunction(body, n).Some?
    ensures PlanItems(body, Fresh(n)).Some?
    ensures var p := PlanItems(body, Fresh(n)).value;
            PlanFunction(body, n) == Some(Planned(p.st.(depth := 0), p.orders + [Pop(p.st.depth)] + [Fix(At(n), 0), Finish]))
  {
    hide PlanItems;
  }

  lemma HoldsWhole(orders: seq<Order>, pos: Positions)
    ensures Holds(Code(orders, pos), pos, 0, orders) && |Code(orders, pos)| == |orders|
  {
  }

  lemma FunctionEnd(code: seq<Instr>, mid: nat, n: nat, dec: seq<bool>, t: seq<Event>)
    requires FunctionAround(code, mid, n)
    ensures Reaches(code, Conf(mid, dec, t), Conf(|code| - 1, dec, t))
    ensures Reaches(code, Conf(Where(code, At(n)), dec, t), Conf(|code| - 1, dec, t))
  {
    hide Reaches, Where;
    Stepping(code, Conf(mid + 1, dec, t), Conf(mid + 2, dec, t));
    StepOn(code, Conf(mid, dec, t), Conf(mid + 1, dec, t), Conf(mid + 2, dec, t));
  }

  lemma Arrives(code: seq<Instr>, i: nat, mid: nat, st: Locals, later: Locals, dec: seq<bool>, t: seq<Event>, r: Res)
    requires Does(code, i, mid, st, later, dec, t, r) && r.Res?
    ensures Reaches(code, Conf(i, dec, t), Conf(Target(code, mid, st, later, r.out), r.rest, t + r.trace))
  {
  }

  /** A name that labels something has a label. */
  lemma NameEntered(code: seq<Instr>, body: Items, n: nat, x: string)
    requires PlanItems(body, Fresh(n)).Some? && DefinitionsIn(body, x) > 0
    ensures var later := PlanItems(body, Fresh(n)).value.st.(depth := 0);
            && x in later.gotos && EntersIn(body, AtName(x))
            && Entered(AtName(x), Fresh(n), later, later, later.gotos[x])
            && From(code, 0, AtName(x), later.gotos[x]) == Where(code, At(later.gotos[x]))
  {
    hide PlanItems;
    DefinedMentionedIn(body, x);
    ItemsNamesMentioned(body, Fresh(n), x);
  }

  lemma {:induction false} DefinedMentioned(s: Stmt, x: string)
    requires Definitions(s, x) > 0
    ensures Mentions(s, x)
    decreases s
  {
    match s {
      case Compound(items) => DefinedMentionedIn(items, x);
      case If(_, thn, els) =>
        if Definitions(thn, x) > 0 {
          DefinedMentioned(thn, x);
        } else {
          DefinedMentioned(els, x);
        }
      case Loop(_, body) => DefinedMentioned(body, x);
      case Switch(_, body) => DefinedMentioned(body, x);
      case Case(stmt) => DefinedMentioned(stmt, x);
      case Default(stmt) => DefinedMentioned(stmt, x);
      case Labeled(y, stmt) =>
        if y != x {
          DefinedMentioned(stmt, x);
        }
    }
  }

  lemma {:induction false} DefinedMentionedIn(items: Items, x: string)
    requires DefinitionsIn(items, x) > 0
    ensures MentionsIn(items, x)
    decreases items
  {
    match items {
      case Declare(_, _, rest) => DefinedMentionedIn(rest, x);
      case Then(s, rest) =>
        if Definitions(s, x) > 0 {
          DefinedMentioned(s, x);
        } else {
          DefinedMentionedIn(rest, x);
        }
    }
  }

  /** From any entry, the code of a function evaluates the expressions that the function means, in that
      order, and comes to the epilogue. */
  lemma {:induction false} BodyFollows(code: seq<Instr>, pos: Positions, body: Items, n: nat, e: Entry, lab: nat,
                                       dec: seq<bool>, fuel: nat, t: seq<Event>)
    requires PlanFunction(body, n).Some? && EntersIn(body, e)
    requires Unique(code) && code == Code(PlanFunction(body, n).value.orders, pos)
    requires Entered(e, Fresh(n), PlanFunction(body, n).value.st, PlanFunction(body, n).value.st, lab)
    ensures var r := ExecBody(body, e, dec, fuel);
            r.Res? ==> Reaches(code, Conf(From(code, 0, e, lab), dec, t), Conf(|code| - 1, r.rest, t + r.trace))
    decreases fuel
  {
    hide Does, Holds, Unique, NamesOk, Reaches, Where, Extends, From, Entered, EntersIn, PlanItems, PlanFunction, ExecItems, Code;
    var later := PlanFunction(body, n).value.st;
    FunctionPoints(code, pos, body, n);
    var p := PlanItems(body, Fresh(n)).value;
    PlanExtends(body, n);
    SameEntered(e, Fresh(n), later, p.st, later, lab);
    ItemsFollow(code, pos, body, Fresh(n), 0, later, e, lab, dec, fuel, t);
    var r := ExecItems(body, 0, e, dec, fuel);
    var i, mid := From(code, 0, e, lab), |p.orders|;
    if r.Res? {
      var t' := t + r.trace;
      Arrives(code, i, mid, Fresh(n), later, dec, t, r);
      FunctionEnd(code, mid, n, r.rest, t');
      if r.out.Normal? || r.out.Returned? {
        ReachesOn(code, Conf(i, dec, t), Conf(Target(code, mid, Fresh(n), later, r.out), r.rest, t'), Conf(|code| - 1, r.rest, t'));
      } else if r.out.Went? && fuel > 0 && DefinitionsIn(body, r.out.name) > 0 {
        var x := r.out.name;
        NameEntered(code, body, n, x);
        var l := later.gotos[x];
        BodyFollows(code, pos, body, n, AtName(x), l, r.rest, fuel - 1, t');
        var q := ExecBody(body, AtName(x), r.rest, fuel - 1);
        if q.Res? {
          assert t + r.trace + q.trace == t + (r.trace + q.trace);
          ReachesOn(code, Conf(i, dec, t), Conf(Where(code, At(l)), r.rest, t'), Conf(|code| - 1, q.rest, t' + q.trace));
        }
      }
    }
  }

  lemma SameEntered(e: Entry, st: Locals, a: Locals, b: Locals, later: Locals, lab: nat)
    requires Entered(e, st, a, later, lab) && a.cases == b.cases && a.dflt == b.dflt
    ensures Entered(e, st, b, later, lab)
  {
  }

  lemma PlanExtends(body: Items, n: nat)
    requires PlanItems(body, Fresh(n)).Some?
    ensures NamesOk(Fresh(n)) && Extends(PlanItems(body, Fresh(n)).value.st, PlanItems(body, Fresh(n)).value.st.(depth := 0))
  {
  }

  /** The code does what the function means: whatever the decisions, it evaluates the same expressions in
      the same order, uses up the same decisions, and comes to the epilogue. */
  ghost predicate Behaves(body: Items, code: seq<Instr>) {
    forall dec: seq<bool>, fuel: nat ::
      var r := ExecBody(body, Start, dec, fuel);
      r.Res? ==> code != [] && code[|code| - 1] == Leave && Reaches(code, Conf(0, dec, []), Conf(|code| - 1, r.rest, r.trace))
  }

  /** Main result: code in which no label stands twice behaves as the function it was planned for. */
  lemma FunctionBehaves(body: Items, n: nat, pos: Positions)
    requires PlanFunction(body, n).Some? && forall l: nat :: Fixed(PlanFunction(body, n).value.orders, l) <= 1
    ensures Behaves(body, Code(PlanFunction(body, n).value.orders, pos))
  {
    hide PlanFunction, ExecBody, Reaches, Unique, Where, Code, Fixed;
    var code := Code(PlanFunction(body, n).value.orders, pos);
    OnceUnique(PlanFunction(body, n).value.orders, pos);
    FunctionPoints(code, pos, body, n);
    forall dec: seq<bool>, fuel: nat
      ensures var r := ExecBody(body, Start, dec, fuel);
              r.Res? ==> code != [] && code[|code| - 1] == Leave && Reaches(code, Conf(0, dec, []), Conf(|code| - 1, r.rest, r.trace))
    {
      BodyFollows(code, pos, body, n, Start, 0, dec, fuel, []);
      var r := ExecBody(body, Start, dec, fuel);
      if r.Res? {
        assert [] + r.trace == r.trace;
      }
    }
  }

  /** A run of the whole code that leaves these decisions has evaluated these expressions, each with the stack
      as deep as said, and has given back all of the stack. */
  predicate Ends(code: seq<Instr>, dec: seq<bool>, n: nat, rest: seq<bool>, trace: seq<Event>) {
    var c := Conf(0, dec, []);
    && Steps(code, c, n).Some? && Steps(code, c, n).value.i == |code| - 1 && Steps(code, c, n).value.dec == rest
    && Met(code, c, 0, n) == trace && RunFrom(code, c, 0, n)[n].depth == 0
  }

  /** The code evaluates what the function means, each time with the variables in scope on the stack - for an
      initialiser its own variable among them - and nothing else. */
  ghost predicate KeepsScopes(body: Items, code: seq<Instr>) {
    forall dec: seq<bool>, fuel: nat ::
      var r := ExecBody(body, Start, dec, fuel);
      r.Res? ==> exists n: nat :: Ends(code, dec, n, r.rest, r.trace)
  }

  /** Main result: so it is wherever the code keeps its depths on every path. */
  lemma ScopesKept(body: Items, code: seq<Instr>, pos: Positions)
    requires Behaves(body, code) && Disciplined(code, pos)
    ensures KeepsScopes(body, code)
  {
    hide Disciplined, ExecBody, Steps, Met, RunFrom, GoodAt;
    forall dec: seq<bool>, fuel: nat
      ensures var r := ExecBody(body, Start, dec, fuel);
              r.Res? ==> exists n: nat :: Ends(code, dec, n, r.rest, r.trace)
    {
      var r := ExecBody(body, Start, dec, fuel);
      if r.Res? {
        assert Reaches(code, Conf(0, dec, []), Conf(|code| - 1, r.rest, r.trace));
        var n: nat :| Steps(code, Conf(0, dec, []), n) == Some(Conf(|code| - 1, r.rest, r.trace));
        RunsKeepDepths(code, pos, dec, n);
        EmptyAtEnd(code, pos, RunFrom(code, Conf(0, dec, []), 0, n)[n]);
        assert Ends(code, dec, n, r.rest, r.trace);
      }
    }
  }

  lemma EmptyAtEnd(code: seq<Instr>, pos: Positions, p: Point)
    requires p.i < |code| && code[p.i] == Leave && GoodAt(code, pos, p)
    ensures p.depth == 0
  {
  }

  /** And so does the code of every function of a program whose labels are fixed at most once. */
  lemma {:induction false} PartsBehave(fs: seq<Items>, n: nat, i: nat, pos: Positions)
    requires PlanProgram(fs, n).Some? && i < |fs|
    requires forall l: nat :: Fixed(All(PlanProgram(fs, n).value.functions), l) <= 1
    ensures var q := PlanProgram(fs, n).value;
            |q.functions| == |fs| && Behaves(fs[i], Code(q.functions[i], pos))
    decreases |fs|
  {
    hide PlanFunction, Behaves, Code, Fixed;
    var p := PlanFunction(fs[0], n).value;
    var q := PlanProgram(fs[1..], p.st.next).value;
    assert PlanProgram(fs, n).value.functions[1..] == q.functions;
    Lengths(fs[1..], p.st.next);
    forall l: nat ensures Fixed(p.orders, l) <= 1 && Fixed(All(q.functions), l) <= 1 {
      FixedParts(p.orders, All(q.functions), l);
      assert Fixed(All(PlanProgram(fs, n).value.functions), l) <= 1;
    }
    if i == 0 {
      FunctionBehaves(fs[0], n, pos);
    } else {
      assert fs[1..][i - 1] == fs[i];
      PartsBehave(fs[1..], p.st.next, i - 1, pos);
    }
  }
}
