/** The planned code of statements, in the last stage, when the positions of all labels are known: every
    label is reached with the stack as deep as recorded for it (asmg/c_compile.g). */
module CDiscipline {
  import opened Options
  import opened CPaths
  import opened CStatements
  import opened CPlan

  /** Labels below n have a position. */
  predicate AllKnown(pos: Positions, n: nat) {
    n <= |pos| && forall l :: 0 <= l < n ==> pos[l].Some?
  }

  /** Labels are fixed where they are recorded. */
  predicate Agrees(orders: seq<Order>, pos: Positions) {
    forall i :: 0 <= i < |orders| && orders[i].Fix? ==>
      orders[i].lab.id < |pos| && pos[orders[i].lab.id] == Some(orders[i].depth)
  }

  /** All labels in force were made before. */
  predicate Below(st: Locals) {
    && st.ret < st.next && (st.brk.Some? ==> st.brk.value < st.next) && (st.cont.Some? ==> st.cont.value < st.next)
    && (st.dflt.Some? ==> st.dflt.value < st.next)
    && (st.cases.Some? ==> forall l :: l in st.cases.value ==> l < st.next)
    && (forall x :: x in st.gotos ==> st.gotos[x] < st.next)
  }

  lemma AgreesParts(a: seq<Order>, b: seq<Order>, pos: Positions)
    ensures Agrees(a + b, pos) <==> Agrees(a, pos) && Agrees(b, pos)
  {
    if Agrees(a + b, pos) {
      forall i | 0 <= i < |a| && a[i].Fix? ensures a[i].lab.id < |pos| && pos[a[i].lab.id] == Some(a[i].depth) {
        assert (a + b)[i] == a[i];
      }
      forall i | 0 <= i < |b| && b[i].Fix? ensures b[i].lab.id < |pos| && pos[b[i].lab.id] == Some(b[i].depth) {
        assert (a + b)[|a| + i] == b[i];
      }
    }
  }

  // ----- walking along orders -----

  function Follow(orders: seq<Order>, pos: Positions, f: Flow): Option<Flow> {
    Walk(Code(orders, pos), pos, f)
  }

  lemma FollowParts(a: seq<Order>, b: seq<Order>, pos: Positions, f: Flow)
    ensures Follow(a + b, pos, f)
         == match Follow(a, pos, f)
            case None => None
            case Some(g) => Follow(b, pos, g)
  {
    hide Walk, Code;
    CodeConcat(a, b, pos);
    WalkConcat(Code(a, pos), Code(b, pos), pos, f);
  }

  lemma FollowOne(o: Order, pos: Positions, f: Flow)
    ensures Follow([o], pos, f) == Past(Coded(o, pos), pos, f)
  {
    hide Walk, Past;
    assert Code([o], pos) == [Coded(o, pos)];
    WalkOne(Coded(o, pos), pos, f);
  }

  lemma FollowNone(pos: Positions, f: Flow)
    ensures Follow([], pos, f) == Some(f)
  {
  }

  /** Control does not come from above, or comes d deep. */
  predicate Sound(f: Flow, d: int) {
    f == Dead || f == Live(d)
  }

  /** The orders can be followed, from depth d to depth e. */
  predicate Leads(orders: seq<Order>, pos: Positions, f: Flow, e: int) {
    var g := Follow(orders, pos, f);
    g.Some? && Sound(g.value, e)
  }

  predicate KnownAt(pos: Positions, l: nat, d: int) {
    l < |pos| && pos[l].Some? && pos[l].value == d
  }

  // One order at a time, and then some more.

  lemma ThenFix(l: Label, d: nat, rest: seq<Order>, pos: Positions, f: Flow, e: int)
    requires var at := d + if l.AtValue? then 8 else 0;
             KnownAt(pos, l.id, d) && Sound(f, at) && Leads(rest, pos, Live(at), e)
    ensures Leads([Fix(l, d)] + rest, pos, f, e)
  {
    hide Follow;
    FollowParts([Fix(l, d)], rest, pos, f);
    FollowOne(Fix(l, d), pos, f);
  }

  lemma ThenGo(l: Label, d: nat, rewind: bool, rest: seq<Order>, pos: Positions, f: Flow, e: int)
    requires l.id < |pos| && pos[l.id].Some? && (rewind || pos[l.id].value == d)
    requires Sound(f, d + if l.AtValue? then 8 else 0) && Leads(rest, pos, Dead, e)
    ensures Leads([Go(l, d, rewind)] + rest, pos, f, e)
  {
    hide Follow;
    FollowParts([Go(l, d, rewind)], rest, pos, f);
    FollowOne(Go(l, d, rewind), pos, f);
  }

  lemma ThenGoIfZero(l: nat, d: nat, rewind: bool, test: Test, rest: seq<Order>, pos: Positions, f: Flow, e: int)
    requires KnownAt(pos, l, d) && Sound(f, d) && Leads(rest, pos, f, e) && (test.Guard? ==> test.depth == d)
    ensures Leads([GoIfZero(At(l), d, rewind, test)] + rest, pos, f, e)
  {
    hide Follow;
    FollowParts([GoIfZero(At(l), d, rewind, test)], rest, pos, f);
    FollowOne(GoIfZero(At(l), d, rewind, test), pos, f);
  }

  /** The flow after the stack has moved. */
  function Deeper(f: Flow, n: int): Flow {
    match f
    case Dead => Dead
    case Live(d) => Live(d + n)
  }

  lemma ThenMove(o: Order, rest: seq<Order>, pos: Positions, f: Flow, e: int)
    requires o.Push? || o.Pop?
    requires Leads(rest, pos, Deeper(f, if o.Push? then o.bytes else 0 - o.bytes as int), e)
    ensures Leads([o] + rest, pos, f, e)
  {
    hide Follow;
    FollowParts([o], rest, pos, f);
    FollowOne(o, pos, f);
  }

  lemma ThenDo(id: nat, d: nat, rest: seq<Order>, pos: Positions, f: Flow, e: int)
    requires Leads(rest, pos, f, e) && Sound(f, d)
    ensures Leads([Do(id, d)] + rest, pos, f, e)
  {
    hide Follow;
    FollowParts([Do(id, d)], rest, pos, f);
    FollowOne(Do(id, d), pos, f);
  }

  lemma ThenEval(x: Option<nat>, d: nat, rest: seq<Order>, pos: Positions, f: Flow, e: int)
    requires Leads(rest, pos, f, e) && Sound(f, d)
    ensures Leads(Eval(x, d) + rest, pos, f, e)
  {
    hide Leads;
    if x.Some? {
      ThenDo(x.value, d, rest, pos, f, e);
    } else {
      assert Eval(x, d) + rest == rest;
    }
  }

  lemma Both(a: seq<Order>, b: seq<Order>, pos: Positions, f: Flow, d: int, e: int)
    requires Leads(a, pos, f, d) && Leads(b, pos, Follow(a, pos, f).value, e)
    ensures Leads(a + b, pos, f, e)
  {
    hide Follow, Sound;
    FollowParts(a, b, pos, f);
  }

  lemma Done(pos: Positions, f: Flow, e: int)
    requires Sound(f, e)
    ensures Leads([], pos, f, e)
  {
    FollowNone(pos, f);
  }

  // ----- loops -----

  lemma HeadLeads(kind: Kind, n: nat, d: nat, pos: Positions, f: Flow)
    requires Agrees(Head(kind, n, d), pos) && Sound(f, d) && KnownAt(pos, n + 1, d)
    ensures Leads(Head(kind, n, d), pos, f, d)
  {
    hide Leads;
    var h := Head(kind, n, d);
    match kind {
      case For(_, _, _) => ForHeadLeads(kind, n, d, pos, f);
      case While(guard) =>
        assert h[0].Fix?;
        Done(pos, Live(d), d);
        ThenGoIfZero(n + 1, d, false, Guard(guard, d), [], pos, Live(d), d);
        ThenFix(At(n), d, [h[1]] + [], pos, f, d);
        assert h == [h[0]] + ([h[1]] + []);
      case DoWhile(_) =>
        assert h[0].Fix?;
        Done(pos, Live(d), d);
        ThenFix(At(n + 2), d, [], pos, f, d);
        assert h == [h[0]] + [];
    }
  }

  lemma ForHeadLeads(kind: Kind, n: nat, d: nat, pos: Positions, f: Flow)
    requires kind.For? && Agrees(Head(kind, n, d), pos) && Sound(f, d) && KnownAt(pos, n + 1, d)
    ensures Leads(Head(kind, n, d), pos, f, d)
  {
    hide Leads;
    var h, test, last := Head(kind, n, d), TestOf(kind.check, d), [Fix(At(n + 3), d)];
    assert h[0].Fix? && h[3].Fix? && h[|h| - 1].Fix?;
    var back := [Go(At(n + 2), d, false)] + last;
    var step := Eval(kind.step, d) + back;
    Done(pos, Live(d), d);
    ThenFix(At(n + 3), d, [], pos, Dead, d);
    assert last + [] == last;
    ThenGo(At(n + 2), d, false, last, pos, Live(d), d);
    ThenEval(kind.step, d, back, pos, Live(d), d);
    ThenFix(At(n), d, step, pos, Dead, d);
    ThenGo(At(n + 3), d, false, [h[3]] + step, pos, Live(d), d);
    ThenGoIfZero(n + 1, d, false, test, [h[2]] + ([h[3]] + step), pos, Live(d), d);
    ThenFix(At(n + 2), d, [h[1]] + ([h[2]] + ([h[3]] + step)), pos, f, d);
    assert h == [h[0]] + ([h[1]] + ([h[2]] + ([h[3]] + step)));
  }

  lemma TailLeads(kind: Kind, n: nat, d: nat, pos: Positions, f: Flow)
    requires Agrees(Tail(kind, n, d), pos) && Sound(f, d) && KnownAt(pos, n, d)
    requires kind.DoWhile? ==> KnownAt(pos, n + 2, d)
    ensures Leads(Tail(kind, n, d), pos, f, d)
  {
    hide Leads;
    var t := Tail(kind, n, d);
    Done(pos, Live(d), d);
    match kind {
      case DoWhile(guard) =>
        assert t[0].Fix? && t[3].Fix?;
        ThenFix(At(n + 1), d, [], pos, Dead, d);
        ThenGo(At(n + 2), d, false, [t[3]] + [], pos, Live(d), d);
        ThenGoIfZero(n + 1, d, false, Guard(guard, d), [t[2]] + ([t[3]] + []), pos, Live(d), d);
        ThenFix(At(n), d, [t[1]] + ([t[2]] + ([t[3]] + [])), pos, f, d);
        assert t == [t[0]] + ([t[1]] + ([t[2]] + ([t[3]] + [])));
      case _ =>
        assert t[1].Fix?;
        ThenFix(At(n + 1), d, [], pos, Dead, d);
        ThenGo(At(n), d, false, [t[1]] + [], pos, f, d);
        assert t == [t[0]] + ([t[1]] + []);
    }
  }

  /** The labels of a loop that its head and tail fix. */
  lemma LoopKnown(kind: Kind, n: nat, d: nat, pos: Positions)
    requires Agrees(Head(kind, n, d), pos) && Agrees(Tail(kind, n, d), pos)
    ensures KnownAt(pos, n, d) && KnownAt(pos, n + 1, d) && (kind.DoWhile? ==> KnownAt(pos, n + 2, d))
  {
    var h, t := Head(kind, n, d), Tail(kind, n, d);
    match kind {
      case For(_, _, _) => assert h[3].Fix? && t[1].Fix?;
      case While(_) => assert h[0].Fix? && t[1].Fix?;
      case DoWhile(_) => assert h[0].Fix? && t[0].Fix? && t[3].Fix?;
    }
  }

  // ----- switches -----

  predicate Standing(labs: seq<nat>, pos: Positions, d: int) {
    forall l :: l in labs ==> KnownAt(pos, l, d)
  }

  predicate LabelsKnown(labs: seq<nat>, pos: Positions) {
    forall l :: l in labs ==> l < |pos| && pos[l].Some?
  }

  /** One comparison goes on with the switch value, d deep beneath it. */
  lemma CompareFollows(l: nat, d: nat, pos: Positions, f: Flow)
    requires l < |pos| && pos[l].Some?
    ensures Follow(Compare(l, d), pos, f)
         == match f
            case Dead => Some(Dead)
            case Live(e) => if e == d + 8 then Some(Live(e)) else None
  {
    hide Follow;
    var c := Compare(l, d);
    assert c == [c[0]] + ([c[1]] + ([c[2]] + ([c[3]] + [c[4]])));
    var g := Deeper(Deeper(f, 8), -8);
    FollowParts([c[0]], [c[1]] + ([c[2]] + ([c[3]] + [c[4]])), pos, f);
    FollowOne(c[0], pos, f);
    FollowParts([c[1]], [c[2]] + ([c[3]] + [c[4]]), pos, Deeper(f, 8));
    FollowOne(c[1], pos, Deeper(f, 8));
    FollowParts([c[2]], [c[3]] + [c[4]], pos, g);
    FollowOne(c[2], pos, g);
    FollowParts([c[3]], [c[4]], pos, Deeper(g, -8));
    FollowOne(c[3], pos, Deeper(g, -8));
    FollowOne(c[4], pos, Deeper(g, -8));
  }

  lemma {:induction false} ComparisonsFollow(labs: seq<nat>, d: nat, pos: Positions)
    requires LabelsKnown(labs, pos)
    ensures Follow(Comparisons(labs, d), pos, Live(d + 8)) == Some(Live(d))
    ensures Follow(Comparisons(labs, d), pos, Dead) == Some(Dead)
    decreases |labs|
  {
    hide Follow;
    if labs == [] {
      FollowOne(Pop(8), pos, Live(d + 8));
      FollowOne(Pop(8), pos, Dead);
    } else {
      var l, rest := labs[0], labs[1..];
      assert l in labs && (forall k :: k in rest ==> k in labs);
      CompareFollows(l, d, pos, Live(d + 8));
      CompareFollows(l, d, pos, Dead);
      FollowParts(Compare(l, d), Comparisons(rest, d), pos, Live(d + 8));
      FollowParts(Compare(l, d), Comparisons(rest, d), pos, Dead);
      ComparisonsFollow(rest, d, pos);
    }
  }

  lemma DispatchLeads(labs: seq<nat>, dflt: Option<nat>, d: nat, pos: Positions, f: Flow)
    requires LabelsKnown(labs, pos) && (dflt.Some? ==> dflt.value < |pos| && pos[dflt.value].Some?) && Sound(f, d + 8)
    ensures Leads(Dispatch(labs, dflt, d), pos, f, d)
  {
    hide Follow;
    ComparisonsFollow(labs, d, pos);
    var c := Comparisons(labs, d);
    var g := if f.Dead? then Dead else Live(d);
    if dflt.Some? {
      var o := Go(At(dflt.value), d, true);
      Done(pos, Dead, d);
      ThenGo(At(dflt.value), d, true, [], pos, g, d);
      assert [o] + [] == [o];
      FollowParts(c, [o], pos, f);
    } else {
      assert c + [] == c;
    }
  }

  // ----- statements -----

  lemma {:induction false} StaysBelow(s: Stmt, st: Locals)
    requires PlanStmt(s, st).Some? && Below(st)
    ensures Below(PlanStmt(s, st).value.st)
    decreases s, 1
  {
    hide Below, PlanStmt;
    match s {
      case Compound(_) => BlockStaysBelow(s, st);
      case If(_, _, _) => IfStaysBelow(s, st);
      case Loop(_, _) => LoopStaysBelow(s, st);
      case Switch(_, _) => SwitchStaysBelow(s, st);
      case Case(_) => LabelStaysBelow(s, st);
      case Default(_) => LabelStaysBelow(s, st);
      case Labeled(_, _) => LabelStaysBelow(s, st);
      case _ => JumpStaysBelow(s, st);
    }
  }

  lemma JumpStaysBelow(s: Stmt, st: Locals)
    requires s.Empty? || s.Expr? || s.Return? || s.Break? || s.Continue? || s.Goto?
    requires PlanStmt(s, st).Some? && Below(st)
    ensures Below(PlanStmt(s, st).value.st)
  {
    if s.Goto? {
      BelowWithName(st, s.name);
    }
  }

  lemma {:induction false} BlockStaysBelow(s: Stmt, st: Locals)
    requires s.Compound? && PlanStmt(s, st).Some? && Below(st)
    ensures Below(PlanStmt(s, st).value.st)
    decreases s, 0
  {
    hide Below;
    ItemsStayBelow(s.items, st);
    BelowAt(PlanItems(s.items, st).value.st, st.depth);
  }

  lemma {:induction false} IfStaysBelow(s: Stmt, st: Locals)
    requires s.If? && PlanStmt(s, st).Some? && Below(st)
    ensures Below(PlanStmt(s, st).value.st)
    decreases s, 0
  {
    hide Below;
    BelowMore(st, 2);
    StaysBelow(s.thn, InIf(st));
    StaysBelow(s.els, PlanStmt(s.thn, InIf(st)).value.st);
  }

  lemma {:induction false} LoopStaysBelow(s: Stmt, st: Locals)
    requires s.Loop? && PlanStmt(s, st).Some? && Below(st)
    ensures Below(PlanStmt(s, st).value.st)
    decreases s, 0
  {
    hide Below, Head, Tail;
    var st' := InLoop(s.kind, st);
    BelowInLoop(st, LoopLabels(s.kind));
    StaysBelow(s.body, st');
    BelowOutOfLoop(st, PlanStmt(s.body, st').value.st);
  }

  lemma {:induction false} SwitchStaysBelow(s: Stmt, st: Locals)
    requires s.Switch? && PlanStmt(s, st).Some? && Below(st)
    ensures Below(PlanStmt(s, st).value.st)
    decreases s, 0
  {
    hide Below, Dispatch;
    var st' := InSwitch(st);
    BelowInSwitch(st);
    StaysBelow(s.body, st');
    BelowOutOfSwitch(st, PlanStmt(s.body, st').value.st);
  }

  lemma {:induction false} LabelStaysBelow(s: Stmt, st: Locals)
    requires (s.Case? || s.Default? || s.Labeled?) && PlanStmt(s, st).Some? && Below(st)
    ensures Below(PlanStmt(s, st).value.st)
    decreases s, 0
  {
    hide Below, Name;
    var n := st.next;
    match s {
      case Case(stmt) =>
        BelowInCase(st);
        StaysBelow(stmt, InCase(st));
      case Default(stmt) =>
        BelowInDefault(st);
        StaysBelow(stmt, InDefault(st));
      case Labeled(x, stmt) =>
        BelowWithName(st, x);
        StaysBelow(stmt, Name(st, x).1);
    }
  }

  lemma BelowAt(st: Locals, d: nat)
    requires Below(st)
    ensures Below(st.(depth := d))
  {
  }

  lemma BelowMore(st: Locals, k: nat)
    requires Below(st)
    ensures Below(st.(next := st.next + k))
  {
  }

  lemma BelowInLoop(st: Locals, k: nat)
    requires Below(st) && k >= 2
    ensures Below(st.(next := st.next + k, cont := Some(st.next), brk := Some(st.next + 1)))
  {
  }

  lemma BelowOutOfLoop(st: Locals, r: Locals)
    requires Below(st) && Below(r) && st.next <= r.next
    ensures Below(r.(cont := st.cont, brk := st.brk))
  {
  }

  lemma BelowInSwitch(st: Locals)
    requires Below(st)
    ensures Below(InSwitch(st))
  {
  }

  lemma BelowOutOfSwitch(st: Locals, r: Locals)
    requires Below(st) && Below(r) && st.next <= r.next
    ensures Below(r.(brk := st.brk, dflt := st.dflt, cases := st.cases))
  {
  }

  lemma BelowInCase(st: Locals)
    requires Below(st) && st.cases.Some?
    ensures Below(InCase(st))
  {
  }

  lemma BelowInDefault(st: Locals)
    requires Below(st)
    ensures Below(InDefault(st))
  {
  }

  lemma BelowWithName(st: Locals, x: string)
    requires Below(st)
    ensures Below(Name(st, x).1) && Name(st, x).0 < Name(st, x).1.next
  {
  }

  lemma {:induction false} ItemsStayBelow(items: Items, st: Locals)
    requires PlanItems(items, st).Some? && Below(st)
    ensures Below(PlanItems(items, st).value.st)
    decreases items
  {
    hide PlanStmt;
    match items {
      case End =>
      case Declare(footprint, _, rest) => ItemsStayBelow(rest, st.(depth := st.depth + footprint));
      case Then(head, rest) =>
        StaysBelow(head, st);
        ItemsStayBelow(rest, PlanStmt(head, st).value.st);
    }
  }

  lemma FixAgrees(l: Label, d: nat, rest: seq<Order>, pos: Positions)
    requires Agrees([Fix(l, d)] + rest, pos)
    ensures KnownAt(pos, l.id, d) && Agrees(rest, pos)
  {
    AgreesParts([Fix(l, d)], rest, pos);
    assert [Fix(l, d)][0].Fix?;
  }

  lemma LastFixAgrees(l: Label, d: nat, rest: seq<Order>, pos: Positions)
    requires Agrees(rest + [Fix(l, d)], pos)
    ensures KnownAt(pos, l.id, d) && Agrees(rest, pos)
  {
    AgreesParts(rest, [Fix(l, d)], pos);
    assert [Fix(l, d)][0].Fix?;
  }

  lemma IfAgrees(guard: nat, n: nat, d: nat, p: seq<Order>, q: seq<Order>, pos: Positions)
    requires Agrees(IfOrders(guard, n, d, p, q), pos)
    ensures Agrees(p, pos) && Agrees(q, pos) && KnownAt(pos, n, d) && KnownAt(pos, n + 1, d)
  {
    hide Agrees;
    var a, m := [GoIfZero(At(n), d, false, Guard(guard, d))], [Go(At(n + 1), d, false)];
    LastFixAgrees(At(n + 1), d, a + p + [Go(At(n + 1), d, false), Fix(At(n), d)] + q, pos);
    assert a + p + [Go(At(n + 1), d, false), Fix(At(n), d)] + q == (a + p + m) + ([Fix(At(n), d)] + q);
    AgreesParts(a + p + m, [Fix(At(n), d)] + q, pos);
    FixAgrees(At(n), d, q, pos);
    AgreesParts(a + p, m, pos);
    AgreesParts(a, p, pos);
  }

  lemma SwitchAgrees(on: nat, n: nat, d: nat, body: seq<Order>, dispatch: seq<Order>, pos: Positions)
    requires Agrees(SwitchOrders(on, n, d, body, dispatch), pos)
    ensures Agrees(body, pos) && KnownAt(pos, n, d) && KnownAt(pos, n + 1, d)
  {
    hide Agrees;
    var a, m := [Do(on, d), Push(8), Go(AtValue(n + 1), d, false)], [Go(At(n), d, false)];
    LastFixAgrees(At(n), d, a + body + [Go(At(n), d, false), Fix(AtValue(n + 1), d)] + dispatch, pos);
    assert a + body + [Go(At(n), d, false), Fix(AtValue(n + 1), d)] + dispatch == (a + body + m) + ([Fix(AtValue(n + 1), d)] + dispatch);
    AgreesParts(a + body + m, [Fix(AtValue(n + 1), d)] + dispatch, pos);
    FixAgrees(AtValue(n + 1), d, dispatch, pos);
    AgreesParts(a + body, m, pos);
    AgreesParts(a, body, pos);
  }

  lemma SwitchLeads(on: nat, n: nat, d: nat, body: seq<Order>, dispatch: seq<Order>, pos: Positions, f: Flow)
    requires Sound(f, d) && KnownAt(pos, n, d) && KnownAt(pos, n + 1, d)
    requires Leads(body, pos, Dead, d) && Leads(dispatch, pos, Live(d + 8), d)
    ensures Leads(SwitchOrders(on, n, d, body, dispatch), pos, f, d)
  {
    hide Leads;
    var g, v := Deeper(f, 8), AtValue(n + 1);
    Done(pos, Live(d), d);
    AfterDispatch(n, d, dispatch, pos);
    ThenFix(v, d, dispatch + [Fix(At(n), d)], pos, Dead, d);
    BodyThen(n, d, body, [Fix(v, d)] + (dispatch + [Fix(At(n), d)]), pos);
    ThenGo(v, d, false, body + ([Go(At(n), d, false)] + ([Fix(v, d)] + (dispatch + [Fix(At(n), d)]))), pos, g, d);
    ThenMove(Push(8), [Go(v, d, false)] + (body + ([Go(At(n), d, false)] + ([Fix(v, d)] + (dispatch + [Fix(At(n), d)])))), pos, f, d);
    var all := [Push(8)] + ([Go(v, d, false)] + (body + ([Go(At(n), d, false)] + ([Fix(v, d)] + (dispatch + [Fix(At(n), d)])))));
    ThenDo(on, d, all, pos, f, d);
    assert SwitchOrders(on, n, d, body, dispatch) == [Do(on, d)] + all;
  }

  lemma AfterDispatch(n: nat, d: nat, dispatch: seq<Order>, pos: Positions)
    requires KnownAt(pos, n, d) && Leads(dispatch, pos, Live(d + 8), d)
    ensures Leads(dispatch + [Fix(At(n), d)], pos, Live(d + 8), d)
  {
    hide Follow;
    var g := Follow(dispatch, pos, Live(d + 8)).value;
    Done(pos, Live(d), d);
    ThenFix(At(n), d, [], pos, g, d);
    assert [Fix(At(n), d)] + [] == [Fix(At(n), d)];
    Both(dispatch, [Fix(At(n), d)], pos, Live(d + 8), d, d);
  }

  lemma BodyThen(n: nat, d: nat, body: seq<Order>, rest: seq<Order>, pos: Positions)
    requires KnownAt(pos, n, d) && Leads(body, pos, Dead, d) && Leads(rest, pos, Dead, d)
    ensures Leads(body + ([Go(At(n), d, false)] + rest), pos, Dead, d)
  {
    hide Follow;
    var g := Follow(body, pos, Dead).value;
    ThenGo(At(n), d, false, rest, pos, g, d);
    Both(body, [Go(At(n), d, false)] + rest, pos, Dead, d, d);
  }

  lemma IfLeads(guard: nat, n: nat, d: nat, p: seq<Order>, q: seq<Order>, pos: Positions, f: Flow)
    requires Sound(f, d) && KnownAt(pos, n, d) && KnownAt(pos, n + 1, d)
    requires Leads(p, pos, f, d) && Leads(q, pos, Live(d), d)
    ensures Leads(IfOrders(guard, n, d, p, q), pos, f, d)
  {
    hide Follow;
    var b, e, m := [Fix(At(n), d)], [Fix(At(n + 1), d)], [Go(At(n + 1), d, false)];
    Done(pos, Live(d), d);
    ThenFix(At(n + 1), d, [], pos, Follow(q, pos, Live(d)).value, d);
    assert e + [] == e;
    Both(q, e, pos, Live(d), d, d);
    ThenFix(At(n), d, q + e, pos, Dead, d);
    ThenGo(At(n + 1), d, false, b + (q + e), pos, Follow(p, pos, f).value, d);
    Both(p, m + (b + (q + e)), pos, f, d, d);
    ThenGoIfZero(n, d, false, Guard(guard, d), p + (m + (b + (q + e))), pos, f, d);
    assert IfOrders(guard, n, d, p, q) == [GoIfZero(At(n), d, false, Guard(guard, d))] + (p + (m + (b + (q + e))));
  }

  lemma LoopLeads(kind: Kind, n: nat, d: nat, p: seq<Order>, pos: Positions, f: Flow)
    requires Sound(f, d) && Agrees(Head(kind, n, d), pos) && Agrees(Tail(kind, n, d), pos)
    requires Follow(Head(kind, n, d), pos, f).Some? && Leads(p, pos, Follow(Head(kind, n, d), pos, f).value, d)
    ensures Leads(Head(kind, n, d) + p + Tail(kind, n, d), pos, f, d)
  {
    hide Follow, Agrees, Head, Tail;
    var h, t := Head(kind, n, d), Tail(kind, n, d);
    LoopKnown(kind, n, d, pos);
    HeadLeads(kind, n, d, pos, f);
    Both(h, p, pos, f, d, d);
    TailLeads(kind, n, d, pos, Follow(h + p, pos, f).value);
    Both(h + p, t, pos, f, d, d);
  }

  lemma JumpLeads(l: nat, n: nat, d: nat, pos: Positions, f: Flow)
    requires l < n && AllKnown(pos, n) && Sound(f, d)
    ensures Leads([Go(At(l), d, true)], pos, f, d)
  {
    hide Leads;
    Done(pos, Dead, d);
    ThenGo(At(l), d, true, [], pos, f, d);
    assert [Go(At(l), d, true)] + [] == [Go(At(l), d, true)];
  }

  /** From good code, a statement goes on with good code: no label is reached at a wrong depth. */
  lemma {:induction false} PlanLeads(s: Stmt, st: Locals, pos: Positions, f: Flow)
    requires PlanStmt(s, st).Some? && Below(st) && Sound(f, st.depth)
    requires AllKnown(pos, PlanStmt(s, st).value.st.next) && Agrees(PlanStmt(s, st).value.orders, pos)
    ensures Leads(PlanStmt(s, st).value.orders, pos, f, st.depth)
    decreases s, 1
  {
    hide Agrees, Leads, Below, AllKnown, PlanStmt;
    match s {
      case Empty => PlanSimpleLeads(s, st, pos, f);
      case Expr(_) => PlanSimpleLeads(s, st, pos, f);
      case Compound(_) => PlanCompoundLeads(s, st, pos, f);
      case If(_, _, _) => PlanIfLeads(s, st, pos, f);
      case Loop(_, _) => PlanLoopLeads(s, st, pos, f);
      case Switch(_, _) => PlanSwitchLeads(s, st, pos, f);
      case Case(_) => PlanCaseLeads(s, st, pos, f);
      case Default(_) => PlanDefaultLeads(s, st, pos, f);
      case Labeled(_, _) => PlanNamedLeads(s, st, pos, f);
      case _ => PlanJumpLeads(s, st, pos, f);
    }
  }

  lemma PlanSimpleLeads(s: Stmt, st: Locals, pos: Positions, f: Flow)
    requires (s.Empty? || s.Expr?) && Sound(f, st.depth)
    ensures Leads(PlanStmt(s, st).value.orders, pos, f, st.depth)
  {
    hide Leads;
    Done(pos, f, st.depth);
    if s.Expr? {
      ThenDo(s.id, st.depth, [], pos, f, st.depth);
      assert [Do(s.id, st.depth)] + [] == [Do(s.id, st.depth)];
    }
  }

  lemma {:induction false} PlanCompoundLeads(s: Stmt, st: Locals, pos: Positions, f: Flow)
    requires s.Compound? && PlanStmt(s, st).Some? && Below(st) && Sound(f, st.depth)
    requires AllKnown(pos, PlanStmt(s, st).value.st.next) && Agrees(PlanStmt(s, st).value.orders, pos)
    ensures Leads(PlanStmt(s, st).value.orders, pos, f, st.depth)
    decreases s, 0
  {
    hide Agrees, Leads, Below, PlanItems;
    BlockLeads(s.items, st, pos, f);
  }

  lemma {:induction false} PlanCaseLeads(s: Stmt, st: Locals, pos: Positions, f: Flow)
    requires s.Case? && PlanStmt(s, st).Some? && Below(st) && Sound(f, st.depth)
    requires AllKnown(pos, PlanStmt(s, st).value.st.next) && Agrees(PlanStmt(s, st).value.orders, pos)
    ensures Leads(PlanStmt(s, st).value.orders, pos, f, st.depth)
    decreases s, 0
  {
    hide Agrees, Leads, Below;
    BelowInCase(st);
    LabeledLeads(st.next, s.stmt, InCase(st), pos, f);
  }

  lemma {:induction false} PlanDefaultLeads(s: Stmt, st: Locals, pos: Positions, f: Flow)
    requires s.Default? && PlanStmt(s, st).Some? && Below(st) && Sound(f, st.depth)
    requires AllKnown(pos, PlanStmt(s, st).value.st.next) && Agrees(PlanStmt(s, st).value.orders, pos)
    ensures Leads(PlanStmt(s, st).value.orders, pos, f, st.depth)
    decreases s, 0
  {
    hide Agrees, Leads, Below;
    BelowInDefault(st);
    LabeledLeads(st.next, s.stmt, InDefault(st), pos, f);
  }

  lemma {:induction false} PlanNamedLeads(s: Stmt, st: Locals, pos: Positions, f: Flow)
    requires s.Labeled? && PlanStmt(s, st).Some? && Below(st) && Sound(f, st.depth)
    requires AllKnown(pos, PlanStmt(s, st).value.st.next) && Agrees(PlanStmt(s, st).value.orders, pos)
    ensures Leads(PlanStmt(s, st).value.orders, pos, f, st.depth)
    decreases s, 0
  {
    hide Agrees, Leads, Below;
    BelowWithName(st, s.name);
    LabeledLeads(Name(st, s.name).0, s.stmt, Name(st, s.name).1, pos, f);
  }

  lemma PlanJumpLeads(s: Stmt, st: Locals, pos: Positions, f: Flow)
    requires s.Return? || s.Break? || s.Continue? || s.Goto?
    requires PlanStmt(s, st).Some? && Below(st) && Sound(f, st.depth) && AllKnown(pos, PlanStmt(s, st).value.st.next)
    ensures Leads(PlanStmt(s, st).value.orders, pos, f, st.depth)
  {
    hide Leads, Below, AllKnown;
    InForceBelow(st);
    match s {
      case Return(value) =>
        JumpLeads(st.ret, st.next, st.depth, pos, f);
        ThenEval(value, st.depth, [Go(At(st.ret), st.depth, true)], pos, f, st.depth);
      case Break => JumpLeads(st.brk.value, st.next, st.depth, pos, f);
      case Continue => JumpLeads(st.cont.value, st.next, st.depth, pos, f);
      case Goto(x) =>
        BelowWithName(st, x);
        JumpLeads(Name(st, x).0, Name(st, x).1.next, st.depth, pos, f);
    }
  }

  lemma InForceBelow(st: Locals)
    requires Below(st)
    ensures st.ret < st.next && (st.brk.Some? ==> st.brk.value < st.next) && (st.cont.Some? ==> st.cont.value < st.next)
  {
  }

  lemma {:induction false} LabeledLeads(l: nat, s: Stmt, st: Locals, pos: Positions, f: Flow)
    requires PlanStmt(s, st).Some? && Below(st) && Sound(f, st.depth)
    requires AllKnown(pos, PlanStmt(s, st).value.st.next)
    requires Agrees([Fix(At(l), st.depth)] + PlanStmt(s, st).value.orders, pos)
    ensures Leads([Fix(At(l), st.depth)] + PlanStmt(s, st).value.orders, pos, f, st.depth)
    decreases s, 2
  {
    hide Agrees, Leads, PlanStmt, Below;
    FixAgrees(At(l), st.depth, PlanStmt(s, st).value.orders, pos);
    PlanLeads(s, st, pos, Live(st.depth));
    ThenFix(At(l), st.depth, PlanStmt(s, st).value.orders, pos, f, st.depth);
  }

  lemma {:induction false} PlanIfLeads(s: Stmt, st: Locals, pos: Positions, f: Flow)
    requires s.If? && PlanStmt(s, st).Some? && Below(st) && Sound(f, st.depth)
    requires AllKnown(pos, PlanStmt(s, st).value.st.next) && Agrees(PlanStmt(s, st).value.orders, pos)
    ensures Leads(PlanStmt(s, st).value.orders, pos, f, st.depth)
    decreases s, 0
  {
    hide Agrees, Leads, Below;
    var n, d, st' := st.next, st.depth, InIf(st);
    var p := PlanStmt(s.thn, st').value;
    var q := PlanStmt(s.els, p.st).value;
    IfAgrees(s.guard, n, d, p.orders, q.orders, pos);
    BelowMore(st, 2);
    StaysBelow(s.thn, st');
    PlanLeads(s.thn, st', pos, f);
    PlanLeads(s.els, p.st, pos, Live(d));
    IfLeads(s.guard, n, d, p.orders, q.orders, pos, f);
  }

  lemma {:induction false} PlanLoopLeads(s: Stmt, st: Locals, pos: Positions, f: Flow)
    requires s.Loop? && PlanStmt(s, st).Some? && Below(st) && Sound(f, st.depth)
    requires AllKnown(pos, PlanStmt(s, st).value.st.next) && Agrees(PlanStmt(s, st).value.orders, pos)
    ensures Leads(PlanStmt(s, st).value.orders, pos, f, st.depth)
    decreases s, 0
  {
    hide Head, Tail, Agrees, Follow, AllKnown;
    var n, d := st.next, st.depth;
    var st' := InLoop(s.kind, st);
    var p := PlanStmt(s.body, st').value;
    var h, t := Head(s.kind, n, d), Tail(s.kind, n, d);
    AgreesParts(Eval(Before(s.kind), d), h + p.orders + t, pos);
    AgreesParts(h + p.orders, t, pos);
    AgreesParts(h, p.orders, pos);
    LoopKnown(s.kind, n, d, pos);
    HeadLeads(s.kind, n, d, pos, f);
    PlanLeads(s.body, st', pos, Follow(h, pos, f).value);
    LoopLeads(s.kind, n, d, p.orders, pos, f);
    ThenEval(Before(s.kind), d, h + p.orders + t, pos, f, d);
  }

  lemma {:induction false} PlanSwitchLeads(s: Stmt, st: Locals, pos: Positions, f: Flow)
    requires s.Switch? && PlanStmt(s, st).Some? && Below(st) && Sound(f, st.depth)
    requires AllKnown(pos, PlanStmt(s, st).value.st.next) && Agrees(PlanStmt(s, st).value.orders, pos)
    ensures Leads(PlanStmt(s, st).value.orders, pos, f, st.depth)
    decreases s, 0
  {
    hide Agrees, Follow, Dispatch, Leads, Standing;
    var n, d := st.next, st.depth;
    var st' := InSwitch(st);
    var p := PlanStmt(s.body, st').value;
    var c := Dispatch(p.st.cases.value, p.st.dflt, d);
    assert PlanStmt(s, st).value.orders == SwitchOrders(s.on, n, d, p.orders, c);
    SwitchAgrees(s.on, n, d, p.orders, c, pos);
    PlanLeads(s.body, st', pos, Dead);
    BelowInSwitch(st);
    StaysBelow(s.body, st');
    CasesBelow(p.st, pos);
    DispatchLeads(p.st.cases.value, p.st.dflt, d, pos, Live(d + 8));
    SwitchLeads(s.on, n, d, p.orders, c, pos, f);
  }

  lemma CasesBelow(st: Locals, pos: Positions)
    requires Below(st) && AllKnown(pos, st.next)
    ensures st.cases.Some? ==> LabelsKnown(st.cases.value, pos)
    ensures st.dflt.Some? ==> st.dflt.value < |pos| && pos[st.dflt.value].Some?
  {
  }

  lemma {:induction false} BlockLeads(items: Items, st: Locals, pos: Positions, f: Flow)
    requires PlanItems(items, st).Some? && Below(st) && Sound(f, st.depth)
    requires var p := PlanItems(items, st).value;
             AllKnown(pos, p.st.next) && Agrees(p.orders + [Pop(p.st.depth - st.depth)], pos)
    ensures var p := PlanItems(items, st).value;
            Leads(p.orders + [Pop(p.st.depth - st.depth)], pos, f, st.depth)
    decreases items, 1
  {
    hide Agrees, Follow, PlanItems;
    var p := PlanItems(items, st).value;
    var o := Pop(p.st.depth - st.depth);
    AgreesParts(p.orders, [o], pos);
    ItemsLead(items, st, pos, f);
    var g := Follow(p.orders, pos, f).value;
    Done(pos, Deeper(g, st.depth - p.st.depth), st.depth);
    ThenMove(o, [], pos, g, st.depth);
    assert [o] + [] == [o];
    Both(p.orders, [o], pos, f, p.st.depth, st.depth);
  }

  lemma {:induction false} ItemsLead(items: Items, st: Locals, pos: Positions, f: Flow)
    requires PlanItems(items, st).Some? && Below(st) && Sound(f, st.depth)
    requires AllKnown(pos, PlanItems(items, st).value.st.next) && Agrees(PlanItems(items, st).value.orders, pos)
    ensures Leads(PlanItems(items, st).value.orders, pos, f, PlanItems(items, st).value.st.depth)
    decreases items, 0
  {
    hide Agrees, Follow, PlanStmt;
    match items {
      case End => Done(pos, f, st.depth);
      case Declare(footprint, init, rest) =>
        var st' := st.(depth := st.depth + footprint);
        var p := PlanItems(rest, st').value;
        AgreesParts([Push(footprint)], Eval(init, st'.depth) + p.orders, pos);
        AgreesParts(Eval(init, st'.depth), p.orders, pos);
        ItemsLead(rest, st', pos, Deeper(f, footprint));
        ThenEval(init, st'.depth, p.orders, pos, Deeper(f, footprint), p.st.depth);
        ThenMove(Push(footprint), Eval(init, st'.depth) + p.orders, pos, f, p.st.depth);
      case Then(head, rest) =>
        var p := PlanStmt(head, st).value;
        var q := PlanItems(rest, p.st).value;
        AgreesParts(p.orders, q.orders, pos);
        StaysBelow(head, st);
        PlanLeads(head, st, pos, f);
        ItemsLead(rest, p.st, pos, Follow(p.orders, pos, f).value);
        Both(p.orders, q.orders, pos, f, st.depth, q.st.depth);
    }
  }

  /** The code of a function can be walked along. */
  lemma FunctionWalks(body: Items, n: nat, pos: Positions)
    requires PlanFunction(body, n).Some?
    requires AllKnown(pos, PlanFunction(body, n).value.st.next) && Agrees(PlanFunction(body, n).value.orders, pos)
    ensures Walk(Code(PlanFunction(body, n).value.orders, pos), pos, Live(0)).Some?
  {
    hide Agrees, Follow, PlanStmt, Leads;
    var p := PlanStmt(Compound(body), Fresh(n)).value;
    var a, b := [Fix(At(n), 0)], [Finish];
    assert p.orders + [Fix(At(n), 0), Finish] == p.orders + (a + b);
    AgreesParts(p.orders, a + b, pos);
    FixAgrees(At(n), 0, b, pos);
    PlanLeads(Compound(body), Fresh(n), pos, Live(0));
    var g := FlowOf(p.orders, pos, 0);
    FollowParts(p.orders, a + b, pos, Live(0));
    FollowParts(a, b, pos, g);
    FollowOne(Fix(At(n), 0), pos, g);
    FollowOne(Finish, pos, Live(0));
    FollowIsWalk(p.orders + [Fix(At(n), 0), Finish], pos);
  }

  lemma FlowOf(orders: seq<Order>, pos: Positions, e: int) returns (g: Flow)
    requires Leads(orders, pos, Live(0), e)
    ensures Follow(orders, pos, Live(0)) == Some(g) && Sound(g, e)
  {
    g := Follow(orders, pos, Live(0)).value;
  }

  lemma FollowIsWalk(orders: seq<Order>, pos: Positions)
    ensures Follow(orders, pos, Live(0)) == Walk(Code(orders, pos), pos, Live(0))
  {
  }
}
