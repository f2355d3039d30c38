/** The C compiler over its three stages, as far as statements go (asmg/c_compile.g): the first stage
    records where each label stands, the others check it, and the last stores the code. */
module CCompiler {
  import opened Options
  import opened CPaths
  import opened CStatements
  import opened CPlan
  import opened CLabels
  import opened CDiscipline
  import opened CProgram
  import opened CSwitches
  import CFollows

  class Compiler {
    var stage: nat                     // CCTX_STAGE
    var labelPos: Positions            // CCTX_LABEL_POS
    var labelNum: nat                  // CCTX_LABEL_NUM
    var located: set<nat>              // labels that have a location, from the second stage on
    // the local context
    var stack: seq<nat>                // the depths of the variables in scope, the last one on top
    var breakLabel: Option<nat>
    var continueLabel: Option<nat>
    var returnLabel: nat
    var defaultLabel: Option<nat>
    var caseLabels: Option<seq<nat>>
    var gotoLabels: map<string, nat>
    var code: seq<Instr>               // of this function
    // what this stage has done, for functions before this one, and in this one
    ghost var earlier: seq<Order>
    ghost var mine: seq<Order>

    /** The local context is in order, and so is what this stage has done. */
    ghost predicate Valid()
      reads this
    {
      && stack != [] && (forall i, j :: 0 <= i <= j < |stack| ==> stack[i] <= stack[j])
      && Below(Now()) && Checked(earlier + mine) && code == Stored(stage, mine, labelPos)
    }

    /** The orders of this stage have passed its checks, and the first stage has recorded them. */
    ghost predicate Checked(orders: seq<Order>)
      reads this`stage, this`labelPos, this`labelNum, this`located
    {
      && Fine(stage, labelPos, orders, labelNum)
      && (stage == 0 ==> Recorded(labelPos, orders, labelNum))
      && (stage == 1 ==> forall l: nat :: l in located <==> Fixed(orders, l) > 0)
      && (forall l: nat :: l >= labelNum ==> Fixed(orders, l) == 0)
    }

    /** lctx_stack_pos */
    function Depth(): nat
      requires stack != []
      reads this
    {
      stack[|stack| - 1]
    }

    function Now(): Locals
      requires stack != []
      reads this
    {
      Locals(labelNum, Depth(), breakLabel, continueLabel, returnLabel, defaultLabel, caseLabels, gotoLabels)
    }

    /** The plan was carried out, if the checks of this stage allow all of it. */
    twostate predicate Result(ok: bool, plan: Option<Planned>)
      requires old(stack) != []
      reads this
    {
      && (ok ==> plan.Some? && Valid() && Did(plan.value.orders) && Now() == plan.value.st)
      && (!ok && plan.Some? ==> Failed(plan.value.orders, plan.value.st.next))
    }

    twostate predicate Did(orders: seq<Order>)
      reads this
    {
      mine == old(mine) + orders && Same()
    }

    twostate predicate Same()
      reads this
    {
      earlier == old(earlier) && stage == old(stage) && (stage > 0 ==> labelPos == old(labelPos))
    }

    /** Some check stands in the way of these orders. */
    twostate predicate Failed(orders: seq<Order>, next: nat)
      reads this
    {
      old(stage) > 0 && !Fine(old(stage), old(labelPos), old(earlier) + old(mine) + orders, next)
    }

    // ----- labels and jumps -----

    /** cctx_gen_label, without a position. */
    method MakeLabel(ghost orders: seq<Order>) returns (ok: bool, l: nat)
      requires Checked(orders)
      modifies this`labelNum, this`labelPos
      ensures l == old(labelNum)
      ensures ok ==> Checked(orders) && labelNum == l + 1 && (stage > 0 ==> labelPos == old(labelPos))
      ensures !ok ==> stage > 0 && !Fine(stage, old(labelPos), orders, l + 1)
    {
      l := labelNum;
      if stage == 0 {
        NeverFixed(orders, l);
        labelPos := labelPos + [None];
      } else {
        ok := l < |labelPos| && (stage == 2 ==> labelPos[l].Some?);
        if !ok { return; }
      }
      labelNum := l + 1;
      ok := true;
    }

    method GenLabel() returns (ok: bool, l: nat)
      requires Valid()
      modifies this`labelNum, this`labelPos
      ensures l == old(labelNum) && Result(ok, Some(Planned(old(Now()).(next := l + 1), [])))
      ensures ok ==> stack == old(stack)
    {
      hide Checked, Fine;
      assert mine + [] == mine && earlier + mine + [] == earlier + mine;
      ok, l := MakeLabel(earlier + mine);
    }

    /** cctx_fix_label */
    method PlaceLabel(ghost orders: seq<Order>, l: Label, depth: nat) returns (ok: bool)
      requires Checked(orders) && l.id < labelNum
      modifies this`labelPos, this`located
      ensures ok ==> Checked(orders + [Fix(l, depth)]) && (stage > 0 ==> labelPos == old(labelPos))
      ensures !ok ==> stage > 0 && !Fine(stage, old(labelPos), orders + [Fix(l, depth)], labelNum)
    {
      ghost var o := Fix(l, depth);
      FixedOneMore(orders, o);
      if stage == 0 {
        RecordedMore(labelPos, orders, o, labelNum);
        labelPos := labelPos[l.id := Some(depth)];
      } else {
        AgreesParts(orders, [o], labelPos);
        AgreesOne(o, labelPos);
        ok := labelPos[l.id] == Some(depth) && (stage == 1 ==> l.id !in located);
        if !ok { return; }
        located := located + {l.id};
      }
      ok := true;
    }

    method FixLabel(l: Label) returns (ok: bool)
      requires Valid() && l.id < labelNum
      modifies this`labelPos, this`located, this`code, this`mine
      ensures Result(ok, Some(Planned(old(Now()), [Fix(l, old(Depth()))]))) && (ok ==> stack == old(stack))
    {
      hide Checked, Fine, Code, Below;
      var d := Depth();
      var o := Fix(l, d);
      assert earlier + (mine + [o]) == earlier + mine + [o];
      StoredMore(stage, mine, o, labelPos);
      ok := PlaceLabel(earlier + mine, l, d);
      if ok {
        Carry(o);
      }
    }

    /** cctx_gen_label_jump, unconditional. */
    method GenJump(l: Label, rewind: bool)
      requires Valid() && l.id < labelNum
      modifies this`code, this`mine
      ensures Valid() && Did([Go(l, Depth(), rewind)])
    {
      OneMore(Go(l, Depth(), rewind));
      Carry(Go(l, Depth(), rewind));
    }

    /** cctx_gen_label_jump, on zero. */
    method GenJumpIfZero(l: nat, rewind: bool, test: Test)
      requires Valid() && l < labelNum
      modifies this`code, this`mine
      ensures Valid() && Did([GoIfZero(At(l), Depth(), rewind, test)])
    {
      OneMore(GoIfZero(At(l), Depth(), rewind, test));
      Carry(GoIfZero(At(l), Depth(), rewind, test));
    }

    /** cctx_compile_expression, where there is one. */
    method CompileExpression(x: Option<nat>)
      requires Valid()
      modifies this`code, this`mine
      ensures Valid() && Did(Eval(x, Depth()))
    {
      hide Valid;
      InForce();
      if x.Some? {
        Move(Do(x.value, Depth()));
      } else {
        Joined(mine, [], []);
      }
    }

    /** Values pushed or popped beside the variables. */
    method Move(o: Order)
      requires Valid() && !o.Fix?
      modifies this`code, this`mine
      ensures Valid() && Did([o])
    {
      OneMore(o);
      Carry(o);
    }

    /** cctx_emit: only the last stage stores. */
    method Carry(o: Order)
      modifies this`code, this`mine
      ensures mine == old(mine) + [o] && code == old(code) + if stage == 2 then [Coded(o, labelPos)] else []
    {
      mine := mine + [o];
      if stage == 2 {
        code := code + [Coded(o, labelPos)];
      }
    }

    /** An order that fixes no label passes the checks. */
    lemma OneMore(o: Order)
      requires Valid() && !o.Fix?
      ensures Checked(earlier + (mine + [o]))
      ensures Stored(stage, mine + [o], labelPos) == Stored(stage, mine, labelPos) + if stage == 2 then [Coded(o, labelPos)] else []
    {
      hide Fixed, Agrees, Code, Recorded;
      assert earlier + (mine + [o]) == earlier + mine + [o];
      FixedOneMore(earlier + mine, o);
      AgreesParts(earlier + mine, [o], labelPos);
      AgreesOne(o, labelPos);
      StoredMore(stage, mine, o, labelPos);
      RecordedSame(labelPos, earlier + mine, o, labelNum);
    }

    // ----- variables -----

    /** lctx_push_var */
    method PushVar(footprint: nat)
      requires Valid()
      modifies this`code, this`mine, this`stack
      ensures Valid() && Did([Push(footprint)]) && stack == old(stack) + [old(Depth()) + footprint]
      ensures Now() == old(Now()).(depth := old(Depth()) + footprint)
    {
      OneMore(Push(footprint));
      stack := stack + [Depth() + footprint];
      Carry(Push(footprint));
    }

    /** lctx_restore_status: its checks cannot fail. */
    method RestoreStatus(status: nat)
      requires Valid() && 0 < status <= |stack|
      modifies this`code, this`mine, this`stack
      ensures old(stack[status - 1]) <= old(Depth()) && stack == old(stack[..status])
      ensures Valid() && Did([Pop(old(Depth()) - stack[status - 1])]) && Now() == old(Now()).(depth := stack[status - 1])
    {
      var rewind := Depth() - stack[status - 1];
      OneMore(Pop(rewind));
      stack := stack[..status];
      Carry(Pop(rewind));
    }

    // ----- statements -----

    /** What Valid says of the labels in force. */
    lemma InForce()
      requires Valid()
      ensures stack != [] && returnLabel < labelNum && (breakLabel.Some? ==> breakLabel.value < labelNum)
      ensures (continueLabel.Some? ==> continueLabel.value < labelNum) && (defaultLabel.Some? ==> defaultLabel.value < labelNum)
      ensures caseLabels.Some? ==> forall l :: l in caseLabels.value ==> l < labelNum
      ensures forall x :: x in gotoLabels ==> gotoLabels[x] < labelNum
    {
    }

    method SetLoop(brk: Option<nat>, cont: Option<nat>)
      requires Valid() && (brk.Some? ==> brk.value < labelNum) && (cont.Some? ==> cont.value < labelNum)
      modifies this`breakLabel, this`continueLabel
      ensures Valid() && Now() == old(Now()).(brk := brk, cont := cont)
    {
      breakLabel, continueLabel := brk, cont;
    }

    method SetSwitch(brk: Option<nat>, dflt: Option<nat>, cases: Option<seq<nat>>)
      requires Valid() && (brk.Some? ==> brk.value < labelNum) && (dflt.Some? ==> dflt.value < labelNum)
      requires cases.Some? ==> forall l :: l in cases.value ==> l < labelNum
      modifies this`breakLabel, this`defaultLabel, this`caseLabels
      ensures Valid() && Now() == old(Now()).(brk := brk, dflt := dflt, cases := cases)
    {
      breakLabel, defaultLabel, caseLabels := brk, dflt, cases;
    }

    /** cctx_compile_statement */
    method CompileStatement(s: Stmt) returns (ok: bool)
      requires Valid()
      modifies this
      ensures Result(ok, PlanStmt(s, old(Now()))) && (ok ==> stack == old(stack))
      decreases s, 2
    {
      hide Valid, Fine, Head, Tail, Dispatch;
      InForce();
      match s {
        case Empty =>
          assert mine == mine + [];
          ok := true;
        case Expr(id) =>
          Move(Do(id, Depth()));
          ok := true;
        case Compound(items) => ok := CompileBlock(items);
        case Return(value) =>
          Joined(mine, Eval(value, Depth()), [Go(At(returnLabel), Depth(), true)]);
          CompileExpression(value);
          GenJump(At(returnLabel), true);
          ok := true;
        case Break =>
          ok := breakLabel.Some?;
          if ok {
            GenJump(At(breakLabel.value), true);
          }
        case Continue =>
          ok := continueLabel.Some?;
          if ok {
            GenJump(At(continueLabel.value), true);
          }
        case If(_, _, _) => ok := CompileIf(s);
        case Loop(_, _) => ok := CompileLoop(s);
        case Switch(_, _) => ok := CompileSwitch(s);
        case Case(_) => ok := CompileCase(s);
        case Default(_) => ok := CompileDefault(s);
        case Goto(name) => ok := CompileGoto(name);
        case Labeled(_, _) => ok := CompileLabeled(s);
      }
    }

    /** cctx_compile_block */
    method CompileBlock(items: Items) returns (ok: bool)
      requires Valid()
      modifies this
      ensures Result(ok, PlanStmt(Compound(items), old(Now()))) && (ok ==> stack == old(stack))
      decreases items, 2
    {
      hide Valid, Fine, PlanItems;
      InForce();
      ghost var st := Now();
      ghost var s, p, e, m := stage, labelPos, earlier, mine;
      var saved := |stack|;
      ok := CompileItems(items);
      if !ok {
        if PlanItems(items, st).Some? {
          var q := PlanItems(items, st).value;
          StopsFirst(s, p, e, m, q.orders, q.st.next, q.orders + [Pop(q.st.depth - st.depth)], q.st.next);
        }
        return;
      }
      RestoreStatus(saved);
      ghost var q := PlanItems(items, st).value;
      assert m + q.orders + [Pop(q.st.depth - st.depth)] == m + (q.orders + [Pop(q.st.depth - st.depth)]);
    }

    /** The loop of cctx_compile_block. */
    method CompileItems(items: Items) returns (ok: bool)
      requires Valid()
      modifies this
      ensures Result(ok, PlanItems(items, old(Now())))
      ensures ok ==> |stack| >= |old(stack)| && stack[..|old(stack)|] == old(stack)
      decreases items, 1
    {
      hide Valid, Fine, PlanStmt;
      InForce();
      match items {
        case End =>
          Joined(mine, [], []);
          ok := true;
        case Declare(_, _, _) => ok := CompileDeclaration(items);
        case Then(_, _) => ok := CompileFirst(items);
      }
    }

    method CompileDeclaration(items: Items) returns (ok: bool)
      requires Valid() && items.Declare?
      modifies this
      ensures Result(ok, PlanItems(items, old(Now())))
      ensures ok ==> |stack| >= |old(stack)| && stack[..|old(stack)|] == old(stack)
      decreases items, 0
    {
      hide Valid, Fine, PlanStmt;
      InForce();
      ghost var q := PlanItems(items.rest, Now().(depth := Depth() + items.footprint));
      ghost var g, p, e, m := stage, labelPos, earlier, mine;
      ghost var v := Eval(items.init, Depth() + items.footprint);
      ghost var a := [Push(items.footprint)] + v;
      PushVar(items.footprint);
      CompileExpression(items.init);
      Joined(m, [Push(items.footprint)], v);
      ok := CompileItems(items.rest);
      if q.Some? {
        Joined([Push(items.footprint)], v, q.value.orders);
        Joined(m, a, q.value.orders);
        if !ok {
          Stops(g, p, e, m, a, q.value.orders, q.value.st.next, a + q.value.orders, q.value.st.next);
        }
      }
    }

    method CompileFirst(items: Items) returns (ok: bool)
      requires Valid() && items.Then?
      modifies this
      ensures Result(ok, PlanItems(items, old(Now())))
      ensures ok ==> |stack| >= |old(stack)| && stack[..|old(stack)|] == old(stack)
      decreases items, 0
    {
      hide Valid, Fine, PlanStmt, PlanItems;
      InForce();
      ghost var q, r := PlanStmt(items.head, Now()), RestPlan(items, Now());
      ghost var g, p, e, m := stage, labelPos, earlier, mine;
      ghost var a, b, last := OrdersOf(q), OrdersOf(r), NextOf(r);
      ThenPlan(items, Now());
      Joined(a, b, []);
      ok := CompileStatement(items.head);
      if !ok {
        if r.Some? {
          StopsFirst(g, p, e, m, a, q.value.st.next, a + b, last);
        }
        return;
      }
      ok := CompileItems(items.rest);
      if r.Some? {
        Joined(m, a, b);
        if !ok {
          Stops(g, p, e, m, a, b, last, a + b, last);
        }
      }
    }

    method CompileIf(s: Stmt) returns (ok: bool)
      requires Valid() && s.If?
      modifies this
      ensures Result(ok, PlanStmt(s, old(Now()))) && (ok ==> stack == old(stack))
      decreases s, 1
    {
      hide Valid, Fine, PlanStmt, IfOrders, ThnOrders;
      InForce();
      ghost var st, thn, els := Now(), ThnPlan(s, Now()), ElsPlan(s, Now());
      ghost var g, p, e, m := stage, labelPos, earlier, mine;
      ghost var n, d, f, last := st.next, st.depth, OrdersOf(els), NextOf(els);
      ghost var a, c := ThnOrders(s.guard, n, d, OrdersOf(thn)), [Fix(At(n + 1), d)];
      IfPlan(s, st);
      IfParts(s.guard, n, d, OrdersOf(thn), f);
      var elseLab, endLab;
      ok, elseLab, endLab := GenTwoLabels();
      if !ok {
        if els.Some? {
          StopsFirst(g, p, e, m, [], n + 2, a + f + c, last);
        }
        return;
      }
      Joined(m, [], []);
      ok := CompileThn(s.guard, s.thn, elseLab, endLab);
      if !ok {
        if els.Some? {
          StopsFirst(g, p, e, m, a, thn.value.st.next, a + f + c, last);
        }
        return;
      }
      ok := CompileStatement(s.els);
      if !ok {
        if els.Some? {
          Stops(g, p, e, m, a, f, last, a + f + c, last);
        }
        return;
      }
      Joined(m, a, f);
      ok := FixLabel(At(endLab));
      if !ok {
        Stops(g, p, e, m, a + f, c, last, a + f + c, last);
        return;
      }
      Joined(m, a + f, c);
    }

    /** The guard and the first branch, up to where the second starts. */
    method CompileThn(guard: nat, thn: Stmt, elseLab: nat, endLab: nat) returns (ok: bool)
      requires Valid() && elseLab < labelNum && endLab == elseLab + 1 && endLab < labelNum
      modifies this
      ensures var q := PlanStmt(thn, old(Now()));
              Result(ok, if q.None? then None else Some(Planned(q.value.st, ThnOrders(guard, elseLab, old(Depth()), q.value.orders))))
      ensures ok ==> stack == old(stack)
      decreases thn, 3
    {
      hide Valid, Fine, PlanStmt;
      InForce();
      ghost var n, d, q := elseLab, Depth(), PlanStmt(thn, Now());
      ghost var g, p, e, m := stage, labelPos, earlier, mine;
      ghost var a, t, c := [GoIfZero(At(n), d, false, Guard(guard, d))], OrdersOf(q), [Go(At(n + 1), d, false), Fix(At(n), d)];
      Joined(a, t, c);
      Joined(a + t, c, []);
      GenJumpIfZero(elseLab, false, Guard(guard, Depth()));
      ok := CompileStatement(thn);
      if !ok {
        if q.Some? {
          Stops(g, p, e, m, a, t, q.value.st.next, a + t + c, q.value.st.next);
        }
        return;
      }
      Joined(m, a, t);
      ok := BetweenBranches(elseLab, endLab);
      if !ok {
        Stops(g, p, e, m, a + t, c, q.value.st.next, a + t + c, q.value.st.next);
        return;
      }
      Joined(m, a + t, c);
    }

    method GenTwoLabels() returns (ok: bool, l: nat, k: nat)
      requires Valid()
      modifies this`labelNum, this`labelPos
      ensures l == old(labelNum) && k == l + 1 && Result(ok, Some(Planned(old(Now()).(next := l + 2), [])))
      ensures ok ==> stack == old(stack)
    {
      hide Valid, Fine;
      InForce();
      ghost var g, p, e, m, n := stage, labelPos, earlier, mine, labelNum;
      k := labelNum + 1;
      ok, l := GenLabel();
      if !ok {
        StopsFirst(g, p, e, m, [], n + 1, [], n + 2);
        return;
      }
      Joined(m, [], []);
      ok, k := GenLabel();
      if !ok {
        StopsFirst(g, p, e, m, [], n + 2, [], n + 2);
      }
    }

    method BetweenBranches(elseLab: nat, endLab: nat) returns (ok: bool)
      requires Valid() && elseLab < labelNum && endLab < labelNum
      modifies this`labelPos, this`located, this`code, this`mine
      ensures Result(ok, Some(Planned(old(Now()), [Go(At(endLab), old(Depth()), false), Fix(At(elseLab), old(Depth()))])))
      ensures ok ==> stack == old(stack)
    {
      hide Valid, Fine;
      InForce();
      ghost var g, p, e, m, n, d := stage, labelPos, earlier, mine, labelNum, Depth();
      GenJump(At(endLab), false);
      ok := FixLabel(At(elseLab));
      ghost var a, b := [Go(At(endLab), d, false)], [Fix(At(elseLab), d)];
      assert a + b == [Go(At(endLab), d, false), Fix(At(elseLab), d)] && m + a + b == m + (a + b);
      if !ok {
        Stops(g, p, e, m, a, b, n, a + b, n);
      }
    }

    // ----- loops -----

    method GenLoopLabels(kind: Kind) returns (ok: bool, cont: nat, brk: nat, restart: nat, body: nat)
      requires Valid()
      modifies this`labelNum, this`labelPos
      ensures cont == old(labelNum) && brk == cont + 1 && restart == cont + 2 && body == cont + 3
      ensures Result(ok, Some(Planned(old(Now()).(next := cont + LoopLabels(kind)), []))) && (ok ==> stack == old(stack))
    {
      hide Valid, Fine;
      InForce();
      ghost var g, p, e, m, n := stage, labelPos, earlier, mine, labelNum;
      restart, body := labelNum + 2, labelNum + 3;
      ok, cont, brk := GenTwoLabels();
      if !ok {
        StopsFirst(g, p, e, m, [], n + 2, [], n + LoopLabels(kind));
        return;
      }
      Joined(m, [], []);
      if !kind.While? {
        ok, restart := GenLabel();
        if !ok {
          StopsFirst(g, p, e, m, [], n + 3, [], n + LoopLabels(kind));
          return;
        }
      }
      if kind.For? {
        ok, body := GenLabel();
        if !ok {
          StopsFirst(g, p, e, m, [], n + 4, [], n + LoopLabels(kind));
        }
      }
    }

    /** What comes before the body of a loop. */
    method GenHead(kind: Kind, cont: nat, brk: nat, restart: nat, body: nat) returns (ok: bool)
      requires Valid() && brk == cont + 1 && restart == cont + 2 && body == cont + 3 && cont + LoopLabels(kind) <= labelNum
      modifies this`labelPos, this`located, this`code, this`mine
      ensures Result(ok, Some(Planned(old(Now()), Head(kind, cont, old(Depth()))))) && (ok ==> stack == old(stack))
    {
      hide Valid, Fine;
      InForce();
      ghost var g, p, e, m, n, d := stage, labelPos, earlier, mine, labelNum, Depth();
      ghost var h := Head(kind, cont, d);
      if kind.For? {
        ok := GenForHead(kind, cont, brk, restart, body);
        return;
      }
      ok := FixLabel(At(if kind.While? then cont else restart));
      assert [h[0]] == h[..1];
      if !ok {
        StopsFirst(g, p, e, m, h[..1], n, h, n);
        return;
      }
      if kind.While? {
        GenJumpIfZero(brk, false, Guard(kind.guard, Depth()));
        assert m + h[..1] + [h[1]] == m + h;
      }
    }

    /** For `for`: the guard and the iteration expression. */
    method GenForHead(kind: Kind, cont: nat, brk: nat, restart: nat, body: nat) returns (ok: bool)
      requires Valid() && kind.For? && brk == cont + 1 && restart == cont + 2 && body == cont + 3 && body < labelNum
      modifies this`labelPos, this`located, this`code, this`mine
      ensures Result(ok, Some(Planned(old(Now()), Head(kind, cont, old(Depth()))))) && (ok ==> stack == old(stack))
    {
      hide Valid, Fine, Head, Eval;
      InForce();
      ghost var g, p, e, m, n, d := stage, labelPos, earlier, mine, labelNum, Depth();
      ghost var a, b, c := [Fix(At(restart), d)], [GoIfZero(At(brk), d, false, TestOf(kind.check, d))], [Go(At(body), d, false)];
      ghost var x, v, y, z := [Fix(At(cont), d)], Eval(kind.step, d), [Go(At(restart), d, false)], [Fix(At(body), d)];
      ForHead(kind, cont, d);
      ok := FixLabel(At(restart));
      if !ok {
        StopsFirst(g, p, e, m, a, n, Head(kind, cont, d), n);
        return;
      }
      GenJumpIfZero(brk, false, TestOf(kind.check, Depth()));
      Joined(m, a, b);
      GenJump(At(body), false);
      Joined(m, a + b, c);
      ok := FixLabel(At(cont));
      if !ok {
        Stops(g, p, e, m, a + b + c, x, n, Head(kind, cont, d), n);
        return;
      }
      Joined(m, a + b + c, x);
      CompileExpression(kind.step);
      Joined(m, a + b + c + x, v);
      GenJump(At(restart), false);
      Joined(m, a + b + c + x + v, y);
      ok := FixLabel(At(body));
      if !ok {
        Stops(g, p, e, m, a + b + c + x + v + y, z, n, Head(kind, cont, d), n);
        return;
      }
      Joined(m, a + b + c + x + v + y, z);
    }

    /** What comes behind it: for `do`, the guard. */
    method GenTail(kind: Kind, cont: nat, brk: nat, restart: nat) returns (ok: bool)
      requires Valid() && brk == cont + 1 && restart == cont + 2 && cont + LoopLabels(kind) <= labelNum
      modifies this`labelPos, this`located, this`code, this`mine
      ensures Result(ok, Some(Planned(old(Now()), Tail(kind, cont, old(Depth()))))) && (ok ==> stack == old(stack))
    {
      hide Valid, Fine;
      InForce();
      ghost var g, p, e, m, n, d := stage, labelPos, earlier, mine, labelNum, Depth();
      ghost var t := Tail(kind, cont, d);
      if kind.DoWhile? {
        ok := FixLabel(At(cont));
        assert [t[0]] == t[..1];
        if !ok {
          StopsFirst(g, p, e, m, t[..1], n, t, n);
          return;
        }
        GenJumpIfZero(brk, false, Guard(kind.guard, Depth()));
        assert m + t[..1] + [t[1]] == m + t[..2];
        GenJump(At(restart), false);
        assert m + t[..2] + [t[2]] == m + t[..3];
      } else {
        GenJump(At(cont), false);
        assert [t[0]] == t[..1];
      }
      ok := FixLabel(At(brk));
      ghost var k := |t| - 1;
      assert t[..k] + [t[k]] == t && m + t[..k] + [t[k]] == m + t;
      if !ok {
        Stops(g, p, e, m, t[..k], [t[k]], n, t, n);
      }
    }

    method CompileLoop(s: Stmt) returns (ok: bool)
      requires Valid() && s.Loop?
      modifies this
      ensures Result(ok, PlanStmt(s, old(Now()))) && (ok ==> stack == old(stack))
      decreases s, 1
    {
      hide Valid, Fine, Head, Tail, Eval, PlanStmt;
      InForce();
      ghost var st, q := Now(), BodyPlan(s, Now());
      ghost var g, p, e, m := stage, labelPos, earlier, mine;
      ghost var k, last := st.next + LoopLabels(s.kind), NextOf(q);
      ghost var u, a := Eval(Before(s.kind), st.depth), Head(s.kind, st.next, st.depth) + OrdersOf(q) + Tail(s.kind, st.next, st.depth);
      LoopPlan(s, st);
      var cont, brk, restart, body;
      ok, cont, brk, restart, body := GenLoopLabels(s.kind);
      if !ok {
        if q.Some? {
          StopsFirst(g, p, e, m, [], k, u + a, last);
        }
        return;
      }
      Joined(m, [], []);
      CompileExpression(Before(s.kind));
      Joined(m, u, a);
      var oldBreak, oldContinue := breakLabel, continueLabel;
      ok := CompileAround(s, cont, brk, restart, body);
      if ok {
        SetLoop(oldBreak, oldContinue);
      } else if q.Some? {
        Stops(g, p, e, m, u, a, last, u + a, last);
      }
    }

    /** Head, body and tail of a loop; the labels of the loop stay in force. */
    method CompileAround(s: Stmt, cont: nat, brk: nat, restart: nat, body: nat) returns (ok: bool)
      requires Valid() && s.Loop? && brk == cont + 1 && restart == cont + 2 && body == cont + 3
      requires labelNum == cont + LoopLabels(s.kind)
      modifies this
      ensures var q, d := PlanStmt(s.body, old(Now()).(cont := Some(cont), brk := Some(brk))), old(Depth());
              Result(ok, if q.None? then None
                         else Some(Planned(q.value.st, Head(s.kind, cont, d) + q.value.orders + Tail(s.kind, cont, d))))
      ensures ok ==> stack == old(stack)
      decreases s, 0
    {
      hide Valid, Fine, Head, Tail, PlanStmt;
      InForce();
      ghost var q := PlanStmt(s.body, Now().(cont := Some(cont), brk := Some(brk)));
      ghost var g, p, e, m, k, last := stage, labelPos, earlier, mine, labelNum, NextOf(q);
      ghost var h, b, t := Head(s.kind, cont, Depth()), OrdersOf(q), Tail(s.kind, cont, Depth());
      Joined(h, b, t);
      Joined(h + b, t, []);
      Joined(h, b + t, []);
      ok := GenHead(s.kind, cont, brk, restart, body);
      if !ok {
        if q.Some? {
          StopsFirst(g, p, e, m, h, k, h + b + t, last);
        }
        return;
      }
      InForce();
      SetLoop(Some(brk), Some(cont));
      ok := CompileStatement(s.body);
      if !ok {
        if q.Some? {
          Stops(g, p, e, m, h, b, last, h + b + t, last);
        }
        return;
      }
      Joined(m, h, b);
      ok := GenTail(s.kind, cont, brk, restart);
      if !ok {
        Stops(g, p, e, m, h + b, t, last, h + b + t, last);
        return;
      }
      Joined(m, h + b, t);
    }

    // ----- switches and labels -----

    method CompileSwitch(s: Stmt) returns (ok: bool)
      requires Valid() && s.Switch?
      modifies this
      ensures Result(ok, PlanStmt(s, old(Now()))) && (ok ==> stack == old(stack))
      decreases s, 1
    {
      hide Valid, Fine, PlanStmt, SwitchTailOf, SwitchHead;
      InForce();
      ghost var st, q := Now(), SwitchPlan(s, Now());
      ghost var g, p, e, m := stage, labelPos, earlier, mine;
      ghost var n, d, last := st.next, st.depth, NextOf(q);
      ghost var a, c := SwitchHead(s.on, n, d) + OrdersOf(q) + SwitchTailOf(n, d, q), [Fix(At(n), d)];
      SwitchWhole(s, st);
      Joined(a, c, []);
      var breakLab, logicLab;
      ok, breakLab, logicLab := GenTwoLabels();
      if !ok {
        if q.Some? {
          StopsFirst(g, p, e, m, [], n + 2, a + c, last);
        }
        return;
      }
      Joined(m, [], []);
      var oldBreak, oldDefault, oldCases := breakLabel, defaultLabel, caseLabels;
      ok := CompileSwitchBody(s, breakLab, logicLab);
      if !ok {
        if q.Some? {
          StopsFirst(g, p, e, m, a, last, a + c, last);
        }
        return;
      }
      SetSwitch(oldBreak, oldDefault, oldCases);
      ok := FixLabel(At(breakLab));
      if !ok {
        Stops(g, p, e, m, a, c, last, a + c, last);
        return;
      }
      Joined(m, a, c);
    }

    /** From the value of a switch to its dispatch, with labels of its own in force. */
    method CompileSwitchBody(s: Stmt, breakLab: nat, logicLab: nat) returns (ok: bool)
      requires Valid() && s.Switch? && logicLab == breakLab + 1 && labelNum == logicLab + 1
      modifies this
      ensures var q, d := PlanStmt(s.body, old(Now()).(brk := Some(breakLab), dflt := None, cases := Some([]))), old(Depth());
              Result(ok, if q.None? then None
                         else Some(Planned(q.value.st, SwitchHead(s.on, breakLab, d) + q.value.orders + SwitchTailOf(breakLab, d, q))))
      ensures ok ==> stack == old(stack)
      decreases s, 0
    {
      hide Valid, Fine, PlanStmt, SwitchTailOrders, SwitchHead;
      InForce();
      ghost var d, q := Depth(), PlanStmt(s.body, Now().(brk := Some(breakLab), dflt := None, cases := Some([])));
      ghost var g, p, e, m := stage, labelPos, earlier, mine;
      ghost var a, b, c, last := SwitchHead(s.on, breakLab, d), OrdersOf(q), SwitchTailOf(breakLab, d, q), NextOf(q);
      Joined(a, b, c);
      Joined(a + b, c, []);
      GenSwitchHead(s.on, logicLab);
      InForce();
      SetSwitch(Some(breakLab), None, Some([]));
      ok := CompileStatement(s.body);
      if !ok {
        if q.Some? {
          Stops(g, p, e, m, a, b, last, a + b + c, last);
        }
        return;
      }
      Joined(m, a, b);
      ok := SwitchTail(breakLab, logicLab);
      if !ok {
        Stops(g, p, e, m, a + b, c, last, a + b + c, last);
        return;
      }
      Joined(m, a + b, c);
    }

    /** The value, and the jump to the dispatch behind the body. */
    method GenSwitchHead(on: nat, logicLab: nat)
      requires Valid() && 0 < logicLab < labelNum
      modifies this`code, this`mine
      ensures Valid() && Did(SwitchHead(on, logicLab - 1, Depth()))
    {
      hide Valid;
      InForce();
      ghost var m := mine;
      CompileExpression(Some(on));
      Move(Push(8));
      GenJump(AtValue(logicLab), false);
      assert m + Eval(Some(on), Depth()) + [Push(8)] + [Go(AtValue(logicLab), Depth(), false)] == m + SwitchHead(on, logicLab - 1, Depth());
    }

    /** The jump over the dispatch, and the dispatch. */
    method SwitchTail(breakLab: nat, logicLab: nat) returns (ok: bool)
      requires Valid() && logicLab == breakLab + 1 && logicLab < labelNum && caseLabels.Some?
      modifies this`labelPos, this`located, this`code, this`mine
      ensures Result(ok, Some(Planned(old(Now()), SwitchTailOrders(breakLab, old(Depth()), old(caseLabels.value), old(defaultLabel)))))
      ensures ok ==> stack == old(stack)
    {
      hide Valid, Fine, Dispatch;
      InForce();
      ghost var g, p, e, m, n, d := stage, labelPos, earlier, mine, labelNum, Depth();
      ghost var a, b, c := [Go(At(breakLab), d, false)], [Fix(AtValue(logicLab), d)], Dispatch(caseLabels.value, defaultLabel, d);
      assert SwitchTailOrders(breakLab, d, caseLabels.value, defaultLabel) == a + b + c;
      GenJump(At(breakLab), false);
      ok := FixLabel(AtValue(logicLab));
      if !ok {
        Stops(g, p, e, m, a, b, n, a + b + c, n);
        return;
      }
      GenDispatch();
      assert m + a + b + c == m + (a + b + c);
    }

    /** The logic at the end of a switch: compare with each case, discard the value, go to the default. */
    method GenDispatch()
      requires Valid() && caseLabels.Some?
      modifies this`code, this`mine
      ensures Valid() && Did(Dispatch(caseLabels.value, defaultLabel, Depth()))
    {
      hide Valid, Compare;
      InForce();
      var labs, i := caseLabels.value, 0;
      ghost var m, d := mine, Depth();
      Joined(m, [], []);
      assert labs[..0] == [];
      while i < |labs|
        invariant 0 <= i <= |labs| && Valid()
        invariant mine == m + AllCompared(labs[..i], d)
      {
        assert labs[i] in labs;
        GenComparison(labs[i]);
        ComparedMore(labs, i, m, d);
        i := i + 1;
      }
      assert labs[..|labs|] == labs;
      ComparedAll(labs, d);
      Move(Pop(8));
      ghost var a := AllCompared(labs, d) + [Pop(8)];
      Joined(m, AllCompared(labs, d), [Pop(8)]);
      if defaultLabel.Some? {
        GenJump(At(defaultLabel.value), true);
        Joined(m, a, [Go(At(defaultLabel.value), d, true)]);
      } else {
        Joined(a, [], []);
      }
    }

    /** One case: push and pop its value, pop the value of the switch, and jump or push it again. */
    method GenComparison(lab: nat)
      requires Valid() && lab < labelNum
      modifies this`code, this`mine
      ensures Valid() && Did(Compare(lab, Depth()))
    {
      hide Valid;
      InForce();
      Move(Push(8));
      Move(Pop(8));
      Move(Pop(8));
      GenJumpIfZero(lab, true, Equals);
      Move(Push(8));
    }

    /** A label, and the statement behind it. */
    method FixThen(lab: nat, stmt: Stmt) returns (ok: bool)
      requires Valid() && lab < labelNum
      modifies this
      ensures var q := PlanStmt(stmt, old(Now()));
              Result(ok, if q.None? then None else Some(Planned(q.value.st, [Fix(At(lab), old(Depth()))] + q.value.orders)))
      ensures ok ==> stack == old(stack)
      decreases stmt, 3
    {
      hide Valid, Fine, PlanStmt;
      InForce();
      ghost var st, q := Now(), PlanStmt(stmt, Now());
      ghost var g, p, e, m := stage, labelPos, earlier, mine;
      ghost var a := [Fix(At(lab), Depth())];
      ok := FixLabel(At(lab));
      if !ok {
        if q.Some? {
          StopsFirst(g, p, e, m, a, st.next, a + q.value.orders, q.value.st.next);
        }
        return;
      }
      ok := CompileStatement(stmt);
      if q.Some? {
        assert m + a + q.value.orders == m + (a + q.value.orders);
        if !ok {
          Stops(g, p, e, m, a, q.value.orders, q.value.st.next, a + q.value.orders, q.value.st.next);
        }
      }
    }

    method CompileCase(s: Stmt) returns (ok: bool)
      requires Valid() && s.Case?
      modifies this
      ensures Result(ok, PlanStmt(s, old(Now()))) && (ok ==> stack == old(stack))
      decreases s, 1
    {
      hide Valid, Fine;
      InForce();
      ok := caseLabels.Some?;
      if !ok { return; }
      ghost var plan, n := PlanStmt(s, Now()), labelNum;
      ghost var g, p, e, m := stage, labelPos, earlier, mine;
      var lab;
      ok, lab := GenLabel();
      if !ok {
        if plan.Some? {
          StopsFirst(g, p, e, m, [], n + 1, plan.value.orders, plan.value.st.next);
        }
        return;
      }
      Joined(m, [], []);
      InForce();
      SetSwitch(breakLabel, defaultLabel, Some(caseLabels.value + [lab]));
      ok := FixThen(lab, s.stmt);
    }

    method CompileDefault(s: Stmt) returns (ok: bool)
      requires Valid() && s.Default?
      modifies this
      ensures Result(ok, PlanStmt(s, old(Now()))) && (ok ==> stack == old(stack))
      decreases s, 1
    {
      hide Valid, Fine;
      InForce();
      ok := caseLabels.Some? && defaultLabel.None?;
      if !ok { return; }
      ghost var plan, n := PlanStmt(s, Now()), labelNum;
      ghost var g, p, e, m := stage, labelPos, earlier, mine;
      var lab;
      ok, lab := GenLabel();
      if !ok {
        if plan.Some? {
          StopsFirst(g, p, e, m, [], n + 1, plan.value.orders, plan.value.st.next);
        }
        return;
      }
      Joined(m, [], []);
      InForce();
      SetSwitch(breakLabel, Some(lab), caseLabels);
      ok := FixThen(lab, s.stmt);
    }

    /** The label of that name: a new one the first time that it is met. */
    method GotoLabel(name: string) returns (ok: bool, lab: nat)
      requires Valid()
      modifies this`labelNum, this`labelPos, this`gotoLabels
      ensures lab == Name(old(Now()), name).0 && Result(ok, Some(Planned(Name(old(Now()), name).1, [])))
      ensures ok ==> stack == old(stack) && lab < labelNum
    {
      hide Valid, Fine;
      InForce();
      assert mine + [] == mine;
      if name in gotoLabels {
        return true, gotoLabels[name];
      }
      ok, lab := GenLabel();
      if ok {
        SetName(name, lab);
      }
    }

    method SetName(name: string, lab: nat)
      requires Valid() && lab < labelNum
      modifies this`gotoLabels
      ensures Valid() && Now() == old(Now()).(gotos := old(gotoLabels)[name := lab])
    {
      gotoLabels := gotoLabels[name := lab];
    }

    method CompileGoto(name: string) returns (ok: bool)
      requires Valid()
      modifies this
      ensures Result(ok, PlanStmt(Goto(name), old(Now()))) && (ok ==> stack == old(stack))
    {
      hide Valid, Fine;
      InForce();
      ghost var st := Now();
      ghost var g, p, e, m := stage, labelPos, earlier, mine;
      ghost var l, st' := Name(st, name).0, Name(st, name).1;
      var lab;
      ok, lab := GotoLabel(name);
      if !ok {
        StopsFirst(g, p, e, m, [], st'.next, [Go(At(l), st.depth, true)], st'.next);
        return;
      }
      Joined(m, [], []);
      GenJump(At(lab), true);
    }

    method CompileLabeled(s: Stmt) returns (ok: bool)
      requires Valid() && s.Labeled?
      modifies this
      ensures Result(ok, PlanStmt(s, old(Now()))) && (ok ==> stack == old(stack))
      decreases s, 1
    {
      hide Valid, Fine;
      InForce();
      ghost var plan, st' := PlanStmt(s, Now()), Name(Now(), s.name).1;
      ghost var g, p, e, m := stage, labelPos, earlier, mine;
      var lab;
      ok, lab := GotoLabel(s.name);
      if !ok {
        if plan.Some? {
          StopsFirst(g, p, e, m, [], st'.next, plan.value.orders, plan.value.st.next);
        }
        return;
      }
      Joined(m, [], []);
      ok := FixThen(lab, s.stmt);
    }

    // ----- functions and stages -----

    /** cctx_compile_function, on the body of a function. */
    method CompileFunction(body: Items) returns (ok: bool)
      requires Checked(earlier)
      modifies this
      ensures Outcome(ok, PlanFunction(body, old(labelNum)))
    {
      hide Checked, Fine, PlanFunction, Valid;
      ghost var g, p, e, n, plan := stage, labelPos, earlier, labelNum, PlanFunction(body, labelNum);
      FunctionPlan(body, n);
      assert e + [] == e && e + [] + [] == e;
      mine, code, stack := [], [], [0];
      breakLabel, continueLabel, defaultLabel, caseLabels, gotoLabels := None, None, None, None, map[];
      ok, returnLabel := MakeLabel(earlier);
      if !ok {
        if plan.Some? {
          StopsFirst(g, p, e, [], [], n + 1, plan.value.orders, plan.value.st.next);
        }
        return;
      }
      Entered();
      ok := CompileBody(body);
      if !ok { return; }
      Leaving();
      earlier := earlier + mine;
      Left(earlier);
    }

    /** The function is compiled, if the checks of this stage allow all of it. */
    twostate predicate Outcome(ok: bool, plan: Option<Planned>)
      reads this
    {
      && (ok ==> plan.Some? && earlier == old(earlier) + plan.value.orders && labelNum == plan.value.st.next
                 && stage == old(stage) && (stage > 0 ==> labelPos == old(labelPos)) && Checked(earlier)
                 && code == Stored(stage, plan.value.orders, labelPos))
      && (!ok && plan.Some? ==> FailedAt(old(stage), old(labelPos), old(earlier), plan.value))
    }

    /** What comes after the prologue. */
    method CompileBody(body: Items) returns (ok: bool)
      requires Valid() && mine == [] && Now() == Fresh(returnLabel) && stack == [0]
      modifies this
      ensures var plan := PlanFunction(body, old(returnLabel));
              && (ok ==> plan.Some? && Valid() && mine == plan.value.orders && labelNum == plan.value.st.next && Same())
              && (!ok && plan.Some? ==> FailedAt(old(stage), old(labelPos), old(earlier), plan.value))
    {
      hide Valid, Fine, PlanStmt;
      ghost var g, p, e, n, q := stage, labelPos, earlier, returnLabel, PlanStmt(Compound(body), Now());
      ghost var a, b, c, last := OrdersOf(q), [Fix(At(n), 0)], [Finish], NextOf(q);
      BodyOrders(a, b[0], e);
      ok := CompileBlock(body);
      if !ok {
        if q.Some? {
          StopsFirst(g, p, e, [], a, last, a + b + c, last);
        }
        return;
      }
      InForce();
      ok := FixLabel(At(returnLabel));
      if !ok {
        Stops(g, p, e, [], a, b, last, a + b + c, last);
        return;
      }
      Move(Finish);
    }

    lemma Entered()
      requires mine == [] && code == [] && stack == [0] && returnLabel < labelNum && gotoLabels == map[] && caseLabels == None
      requires breakLabel == None && continueLabel == None && defaultLabel == None && Checked(earlier)
      ensures Valid() && Now() == Fresh(returnLabel).(next := labelNum)
    {
      assert earlier + mine == earlier;
    }

    lemma Leaving()
      requires Valid()
      ensures Checked(earlier + mine) && code == Stored(stage, mine, labelPos)
    {
    }

    lemma Left(orders: seq<Order>)
      requires Checked(orders)
      ensures Fine(stage, labelPos, orders, labelNum)
    {
    }

    /** One stage of cctx_compile, over all functions; the codes are those of the functions. */
    method CompileStage(fs: seq<Items>) returns (ok: bool, codes: seq<seq<Instr>>)
      requires stage <= 2 && (stage == 0 ==> labelPos == [])
      modifies this
      ensures StageDone(ok, codes, PlanProgram(fs, 0))
    {
      hide Checked, Fine, PlanFunction, PlanProgram, All, Code;
      ghost var g, p, plan := stage, labelPos, PlanProgram(fs, 0);
      ghost var parts: seq<seq<Order>> := [];
      labelNum, located, earlier, codes := 0, {}, [], [];
      Starting();
      NoParts(plan);
      assert fs[0..] == fs;
      var i := 0;
      while i < |fs|
        invariant 0 <= i <= |fs| && Checked(earlier) && stage == g && (g > 0 ==> labelPos == p)
        invariant earlier == All(parts) && |parts| == i && |codes| == i
        invariant plan == Onward(parts, PlanProgram(fs[i..], labelNum))
        invariant forall j :: 0 <= j < i ==> (g == 2 ==> codes[j] == Code(parts[j], p))
      {
        ghost var q := PlanFunction(fs[i], labelNum);
        NextFunction(fs, i, labelNum, parts);
        ok := CompileFunction(fs[i]);
        if !ok {
          if plan.Some? {
            ProgramStops(g, p, parts, q.value, plan.value);
          }
          return;
        }
        codes := codes + [code];
        AllMore(parts, q.value.orders);
        parts := parts + [q.value.orders];
        i := i + 1;
      }
      assert fs[|fs|..] == [];
      NoFunctions(labelNum, parts);
      StageEnds(earlier);
      ok := true;
    }

    /** The stage is through, if its checks allow all orders for the program. */
    twostate predicate StageDone(ok: bool, codes: seq<seq<Instr>>, plan: Option<Program>)
      reads this
    {
      && (ok ==> plan.Some? && stage == old(stage) && (stage > 0 ==> labelPos == old(labelPos))
                 && Fine(stage, labelPos, All(plan.value.functions), plan.value.next)
                 && (stage == 0 ==> Recorded(labelPos, All(plan.value.functions), plan.value.next))
                 && (stage == 2 ==> codes == Codes(plan.value.functions, labelPos)))
      && (!ok && plan.Some? ==> old(stage) > 0 && !Fine(old(stage), old(labelPos), All(plan.value.functions), plan.value.next))
    }

    lemma Starting()
      requires stage <= 2 && labelNum == 0 && located == {} && (stage == 0 ==> labelPos == [])
      ensures Checked([])
    {
    }

    lemma StageEnds(orders: seq<Order>)
      requires Checked(orders)
      ensures Fine(stage, labelPos, orders, labelNum) && (stage == 0 ==> Recorded(labelPos, orders, labelNum))
    {
    }

    /** cctx_compile: the three stages.  It accepts exactly the programs that the language admits.  The code
        of every function does what the function means; and it reaches every label with the stack as deep as
        recorded for it exactly if every switch whose dispatch lies on a path has all its case labels as deep
        as it is itself, so in particular if no case label follows a declaration inside its switch.  Then it
        evaluates each expression with the stack just as deep as the variables in scope there. */
    method Compile(fs: seq<Items>) returns (ok: bool, codes: seq<seq<Instr>>)
      modifies this
      ensures ok <==> forall f :: f in fs ==> Admitted(f)
      ensures ok ==> PlanProgram(fs, 0).Some? && codes == Codes(PlanProgram(fs, 0).value.functions, labelPos)
      ensures ok ==> |codes| == |fs| && forall i :: 0 <= i < |fs| ==> CFollows.Behaves(fs[i], codes[i])
      ensures ok ==> forall i :: 0 <= i < |fs| ==>
                (Disciplined(codes[i], labelPos) <==> DispatchesLevel(PlanProgram(fs, 0).value.functions[i], labelPos))
      ensures ok ==> forall i :: 0 <= i < |fs| && WellPlacedIn(fs[i]) ==> Disciplined(codes[i], labelPos)
      ensures ok ==> forall i :: 0 <= i < |fs| && Disciplined(codes[i], labelPos) ==> CFollows.KeepsScopes(fs[i], codes[i])
    {
      hide Fine, PlanProgram, Recorded, Disciplined, Admitted, Codes, OnceEach, All, CFollows.Behaves, CFollows.KeepsScopes, DispatchesLevel;
      AcceptedIffAdmitted(fs);
      stage, labelPos := 0, [];
      ok, codes := CompileStage(fs);
      if !ok { return; }
      ghost var q := PlanProgram(fs, 0).value;
      ProgramLabels(fs, 0);
      StagesAgree(All(q.functions), q.next, labelPos);
      stage := 1;
      ok, codes := CompileStage(fs);
      if !ok { return; }
      stage := 2;
      ok, codes := CompileStage(fs);
      if ok {
        CodesDisciplined(fs, labelPos);
        CodesBehave(fs, labelPos);
        CodesKeepScopes(fs, codes, labelPos);
      }
    }
  }

  // ----- about orders -----

  function Stored(stage: nat, orders: seq<Order>, pos: Positions): seq<Instr> {
    if stage == 2 then Code(orders, pos) else []
  }

  lemma CodeOne(o: Order, pos: Positions)
    ensures Code([o], pos) == [Coded(o, pos)]
  {
  }

  lemma StoredMore(stage: nat, orders: seq<Order>, o: Order, pos: Positions)
    ensures Stored(stage, orders + [o], pos) == Stored(stage, orders, pos) + if stage == 2 then [Coded(o, pos)] else []
  {
    hide Code;
    CodeConcat(orders, [o], pos);
    CodeOne(o, pos);
  }

  lemma FixedOneMore(orders: seq<Order>, o: Order)
    ensures forall l: nat :: Fixed(orders + [o], l) == Fixed(orders, l) + if o.Fix? && o.lab.id == l then 1 else 0
  {
    forall l: nat ensures Fixed(orders + [o], l) == Fixed(orders, l) + if o.Fix? && o.lab.id == l then 1 else 0 {
      FixedLast(orders, o, l);
    }
  }

  lemma AgreesOne(o: Order, pos: Positions)
    ensures Agrees([o], pos) <==> (o.Fix? ==> o.lab.id < |pos| && pos[o.lab.id] == Some(o.depth))
  {
    assert [o][0] == o;
  }

  lemma NeverFixed(orders: seq<Order>, l: nat)
    requires Fixed(orders, l) == 0
    ensures LastFix(orders, l) == None
  {
    FixedSome(orders, l);
  }

  lemma RecordedSame(pos: Positions, orders: seq<Order>, o: Order, n: nat)
    ensures !o.Fix? && Recorded(pos, orders, n) ==> Recorded(pos, orders + [o], n)
  {
    assert (orders + [o])[..|orders|] == orders;
  }

  lemma RecordedMore(pos: Positions, orders: seq<Order>, o: Order, n: nat)
    requires o.Fix? && o.lab.id < n && Recorded(pos, orders, n)
    ensures Recorded(pos[o.lab.id := Some(o.depth)], orders + [o], n)
  {
    assert (orders + [o])[..|orders|] == orders;
  }

  lemma Joined(m: seq<Order>, a: seq<Order>, b: seq<Order>)
    ensures m + a + b == m + (a + b) && a <= a + b && m + [] == m
  {
  }

  function OrdersOf(plan: Option<Planned>): seq<Order> {
    if plan.Some? then plan.value.orders else []
  }

  function NextOf(plan: Option<Planned>): nat {
    if plan.Some? then plan.value.st.next else 0
  }

  lemma StopsFirst(stage: nat, pos: Positions, earlier: seq<Order>, mine: seq<Order>, next: seq<Order>, n: nat,
                   whole: seq<Order>, last: nat)
    requires stage > 0 && !Fine(stage, pos, earlier + mine + next, n) && next <= whole && n <= last
    ensures stage > 0 && !Fine(stage, pos, earlier + mine + whole, last)
  {
    hide Fine;
    assert mine + [] == mine && [] + next == next;
    Stops(stage, pos, earlier, mine, [], next, n, whole, last);
  }

  /** If a check stands in the way of some of the orders, it does in the way of all. */
  lemma Stops(stage: nat, pos: Positions, earlier: seq<Order>, mine: seq<Order>, done: seq<Order>, next: seq<Order>, n: nat,
              whole: seq<Order>, last: nat)
    requires stage > 0 && !Fine(stage, pos, earlier + (mine + done) + next, n) && done + next <= whole && n <= last
    ensures stage > 0 && !Fine(stage, pos, earlier + mine + whole, last)
  {
    hide Fine;
    if Fine(stage, pos, earlier + mine + whole, last) {
      assert earlier + (mine + done) + next == earlier + mine + (done + next);
      FineBefore(stage, pos, earlier + mine + (done + next), n, earlier + mine + whole, last);
    }
  }

  // ----- the end of a switch -----

  function SwitchTailOrders(n: nat, d: nat, labs: seq<nat>, dflt: Option<nat>): seq<Order> {
    [Go(At(n), d, false), Fix(AtValue(n + 1), d)] + Dispatch(labs, dflt, d)
  }

  function SwitchHead(on: nat, n: nat, d: nat): seq<Order> {
    [Do(on, d), Push(8), Go(AtValue(n + 1), d, false)]
  }

  function SwitchPlan(s: Stmt, st: Locals): Option<Planned>
    requires s.Switch?
  {
    PlanStmt(s.body, InSwitch(st))
  }

  function SwitchTailOf(n: nat, d: nat, q: Option<Planned>): seq<Order>
    requires q.Some? ==> q.value.st.cases.Some?
  {
    if q.None? then [] else SwitchTailOrders(n, d, q.value.st.cases.value, q.value.st.dflt)
  }

  lemma SwitchWhole(s: Stmt, st: Locals)
    requires s.Switch?
    ensures var q := SwitchPlan(s, st);
            && (q.None? ==> PlanStmt(s, st).None?)
            && (q.Some? ==> (
                  && q.value.st.cases.Some?
                  && PlanStmt(s, st)
                     == Some(Planned(q.value.st.(brk := st.brk, dflt := st.dflt, cases := st.cases),
                                     SwitchHead(s.on, st.next, st.depth) + q.value.orders + SwitchTailOf(st.next, st.depth, q)
                                     + [Fix(At(st.next), st.depth)]))))
  {
    var q := SwitchPlan(s, st);
    if q.Some? {
      var n, d, c := st.next, st.depth, Dispatch(q.value.st.cases.value, q.value.st.dflt, st.depth);
      assert SwitchHead(s.on, n, d) + q.value.orders + [Go(At(n), d, false), Fix(AtValue(n + 1), d)] + c
          == SwitchHead(s.on, n, d) + q.value.orders + SwitchTailOf(n, d, q);
    }
  }

  /** The comparisons one after the other, as the loop emits them. */
  function AllCompared(labs: seq<nat>, d: nat): seq<Order> {
    if labs == [] then [] else AllCompared(labs[..|labs| - 1], d) + Compare(labs[|labs| - 1], d)
  }

  lemma ComparedMore(labs: seq<nat>, i: nat, m: seq<Order>, d: nat)
    requires i < |labs|
    ensures m + AllCompared(labs[..i], d) + Compare(labs[i], d) == m + AllCompared(labs[..i + 1], d)
  {
    hide Compare;
    assert labs[..i + 1][..i] == labs[..i];
  }

  lemma {:induction false} ComparedAll(labs: seq<nat>, d: nat)
    ensures AllCompared(labs, d) + [Pop(8)] == Comparisons(labs, d)
    decreases |labs|
  {
    if labs != [] {
      ComparedFirst(labs, d);
      ComparedAll(labs[1..], d);
    }
  }

  lemma {:induction false} ComparedFirst(labs: seq<nat>, d: nat)
    requires labs != []
    ensures AllCompared(labs, d) == Compare(labs[0], d) + AllCompared(labs[1..], d)
    decreases |labs|
  {
    if |labs| > 1 {
      var rest := labs[..|labs| - 1];
      ComparedFirst(rest, d);
      assert rest[1..] == labs[1..][..|labs| - 2];
    } else {
      assert labs[..0] == [] && labs[1..] == [];
    }
  }

  // ----- the plans of compound statements, from those of their parts -----

  function ThnPlan(s: Stmt, st: Locals): Option<Planned>
    requires s.If?
  {
    PlanStmt(s.thn, InIf(st))
  }

  function ElsPlan(s: Stmt, st: Locals): Option<Planned>
    requires s.If?
  {
    if ThnPlan(s, st).None? then None else PlanStmt(s.els, ThnPlan(s, st).value.st)
  }

  lemma IfPlan(s: Stmt, st: Locals)
    requires s.If?
    ensures var p, q := ThnPlan(s, st), ElsPlan(s, st);
            && (q.None? ==> PlanStmt(s, st).None?)
            && (q.Some? ==> (
                  && p.Some? && st.next + 2 <= p.value.st.next <= q.value.st.next
                  && PlanStmt(s, st) == Some(Planned(q.value.st, IfOrders(s.guard, st.next, st.depth, p.value.orders, q.value.orders)))
                  && p.value.st.depth == st.depth && q.value.st.depth == st.depth))
  {
  }

  function ThnOrders(guard: nat, n: nat, d: nat, p: seq<Order>): seq<Order> {
    [GoIfZero(At(n), d, false, Guard(guard, d))] + p + [Go(At(n + 1), d, false), Fix(At(n), d)]
  }

  lemma IfParts(guard: nat, n: nat, d: nat, p: seq<Order>, q: seq<Order>)
    ensures var a, c := ThnOrders(guard, n, d, p), [Fix(At(n + 1), d)];
            IfOrders(guard, n, d, p, q) == a + q + c && a <= a + q + c && a + q <= a + q + c
  {
  }

  function RestPlan(items: Items, st: Locals): Option<Planned>
    requires items.Then?
  {
    if PlanStmt(items.head, st).None? then None else PlanItems(items.rest, PlanStmt(items.head, st).value.st)
  }

  lemma ThenPlan(items: Items, st: Locals)
    requires items.Then?
    ensures var q, r := PlanStmt(items.head, st), RestPlan(items, st);
            && (r.None? ==> PlanItems(items, st).None?)
            && (r.Some? ==> (
                  && q.Some? && PlanItems(items, st) == Some(Planned(r.value.st, q.value.orders + r.value.orders))
                  && q.value.st.next <= r.value.st.next))
  {
  }

  lemma ForHead(kind: Kind, n: nat, d: nat)
    requires kind.For?
    ensures var h := [Fix(At(n + 2), d)] + [GoIfZero(At(n + 1), d, false, TestOf(kind.check, d))] + [Go(At(n + 3), d, false)] + [Fix(At(n), d)];
            h <= Head(kind, n, d) && [Fix(At(n + 2), d)] <= Head(kind, n, d)
            && h + Eval(kind.step, d) + [Go(At(n + 2), d, false)] + [Fix(At(n + 3), d)] == Head(kind, n, d)
  {
  }

  function BodyPlan(s: Stmt, st: Locals): Option<Planned>
    requires s.Loop?
  {
    PlanStmt(s.body, InLoop(s.kind, st))
  }

  lemma LoopPlan(s: Stmt, st: Locals)
    requires s.Loop?
    ensures var q := BodyPlan(s, st);
            && (q.None? ==> PlanStmt(s, st).None?)
            && (q.Some? ==> (
                  && PlanStmt(s, st)
                     == Some(Planned(q.value.st.(cont := st.cont, brk := st.brk),
                                     Eval(Before(s.kind), st.depth) + (Head(s.kind, st.next, st.depth) + q.value.orders + Tail(s.kind, st.next, st.depth))))
                  && q.value.st.next >= st.next + LoopLabels(s.kind) && q.value.st.depth == st.depth))
  {
  }

  lemma FunctionPlan(body: Items, n: nat)
    ensures PlanFunction(body, n).Some? ==> PlanFunction(body, n).value.st.next > n
  {
  }

  lemma BodyOrders(a: seq<Order>, o: Order, e: seq<Order>)
    ensures a + [o, Finish] == a + [o] + [Finish] && a <= a + [o] + [Finish] && [] + a == a && e + [] == e
    ensures a + [o] <= a + [o] + [Finish]
  {
  }

  /** Some check stands in the way of a function. */
  ghost predicate FailedAt(stage: nat, pos: Positions, earlier: seq<Order>, p: Planned) {
    stage > 0 && !Fine(stage, pos, earlier + p.orders, p.st.next)
  }

  // ----- programs -----

  function Codes(functions: seq<seq<Order>>, pos: Positions): seq<seq<Instr>> {
    seq(|functions|, i requires 0 <= i < |functions| => Code(functions[i], pos))
  }

  /** The plan of a program, from those of its functions so far and that of the others. */
  function Onward(parts: seq<seq<Order>>, rest: Option<Program>): Option<Program> {
    if rest.None? then None else Some(Program(rest.value.next, parts + rest.value.functions))
  }

  lemma NoParts(plan: Option<Program>)
    ensures All([]) == [] && Onward([], plan) == plan
  {
    if plan.Some? {
      assert [] + plan.value.functions == plan.value.functions;
    }
  }

  lemma NoFunctions(n: nat, parts: seq<seq<Order>>)
    ensures Onward(parts, PlanProgram([], n)) == Some(Program(n, parts))
  {
    assert parts + [] == parts;
  }

  lemma NextFunction(fs: seq<Items>, i: nat, n: nat, parts: seq<seq<Order>>)
    requires i < |fs|
    ensures var q := PlanFunction(fs[i], n);
            Onward(parts, PlanProgram(fs[i..], n))
            == (if q.None? then None else Onward(parts + [q.value.orders], PlanProgram(fs[i + 1..], q.value.st.next)))
    ensures var q, r := PlanFunction(fs[i], n), PlanProgram(fs[i..], n);
            r.Some? ==>
              q.Some? && q.value.st.next <= r.value.next && r.value.functions != [] && r.value.functions[0] == q.value.orders
  {
    hide PlanFunction;
    assert fs[i..][1..] == fs[i + 1..];
    var q := PlanFunction(fs[i], n);
    if q.Some? {
      var r := PlanProgram(fs[i + 1..], q.value.st.next);
      if r.Some? {
        ProgramLabels(fs[i + 1..], q.value.st.next);
        assert parts + ([q.value.orders] + r.value.functions) == parts + [q.value.orders] + r.value.functions;
      }
    }
  }

  lemma {:induction false} AllParts(a: seq<seq<Order>>, b: seq<seq<Order>>)
    ensures All(a + b) == All(a) + All(b)
    decreases |a|
  {
    if a == [] {
      assert a + b == b;
    } else {
      assert (a + b)[1..] == a[1..] + b;
      AllParts(a[1..], b);
    }
  }

  lemma AllMore(parts: seq<seq<Order>>, orders: seq<Order>)
    ensures All(parts + [orders]) == All(parts) + orders
  {
    AllParts(parts, [orders]);
    assert All([orders]) == orders + [];
  }

  lemma ProgramStops(stage: nat, pos: Positions, parts: seq<seq<Order>>, q: Planned, program: Program)
    requires FailedAt(stage, pos, All(parts), q) && parts + [q.orders] <= program.functions && q.st.next <= program.next
    ensures stage > 0 && !Fine(stage, pos, All(program.functions), program.next)
  {
    hide Fine;
    var rest := program.functions[|parts| + 1..];
    assert program.functions == parts + [q.orders] + rest;
    AllParts(parts + [q.orders], rest);
    AllMore(parts, q.orders);
    if Fine(stage, pos, All(program.functions), program.next) {
      FineBefore(stage, pos, All(parts) + q.orders, q.st.next, All(program.functions), program.next);
    }
  }

  lemma CodesDisciplined(fs: seq<Items>, pos: Positions)
    requires PlanProgram(fs, 0).Some?
    requires Fine(2, pos, All(PlanProgram(fs, 0).value.functions), PlanProgram(fs, 0).value.next)
    ensures |Codes(PlanProgram(fs, 0).value.functions, pos)| == |fs|
    ensures |PlanProgram(fs, 0).value.functions| == |fs|
    ensures forall i :: 0 <= i < |fs| && WellPlacedIn(fs[i]) ==> Disciplined(Codes(PlanProgram(fs, 0).value.functions, pos)[i], pos)
    ensures forall i :: 0 <= i < |fs| ==>
              (Disciplined(Codes(PlanProgram(fs, 0).value.functions, pos)[i], pos)
               <==> DispatchesLevel(PlanProgram(fs, 0).value.functions[i], pos))
  {
    hide PlanProgram, All, Disciplined, DispatchesLevel, Code, Agrees, WellPlacedIn;
    var q := PlanProgram(fs, 0).value;
    Lengths(fs, 0);
    forall i | 0 <= i < |fs|
      ensures Disciplined(Codes(q.functions, pos)[i], pos) <==> DispatchesLevel(q.functions[i], pos)
      ensures WellPlacedIn(fs[i]) ==> Disciplined(Codes(q.functions, pos)[i], pos)
    {
      PartsFine(fs, 0, i, pos, q.next);
    }
  }

  lemma CodesKeepScopes(fs: seq<Items>, codes: seq<seq<Instr>>, pos: Positions)
    requires |codes| == |fs| && forall i :: 0 <= i < |fs| ==> CFollows.Behaves(fs[i], codes[i])
    ensures forall i :: 0 <= i < |fs| && Disciplined(codes[i], pos) ==> CFollows.KeepsScopes(fs[i], codes[i])
  {
    hide Disciplined, CFollows.Behaves, CFollows.KeepsScopes;
    forall i | 0 <= i < |fs| && Disciplined(codes[i], pos) ensures CFollows.KeepsScopes(fs[i], codes[i]) {
      CFollows.ScopesKept(fs[i], codes[i], pos);
    }
  }

  lemma CodesBehave(fs: seq<Items>, pos: Positions)
    requires PlanProgram(fs, 0).Some?
    requires Fine(1, pos, All(PlanProgram(fs, 0).value.functions), PlanProgram(fs, 0).value.next)
    ensures |Codes(PlanProgram(fs, 0).value.functions, pos)| == |fs|
    ensures forall i :: 0 <= i < |fs| ==> CFollows.Behaves(fs[i], Codes(PlanProgram(fs, 0).value.functions, pos)[i])
  {
    hide PlanProgram, All, CFollows.Behaves, Code, Agrees, Fixed;
    var q := PlanProgram(fs, 0).value;
    Lengths(fs, 0);
    forall i | 0 <= i < |fs| ensures CFollows.Behaves(fs[i], Codes(q.functions, pos)[i]) {
      CFollows.PartsBehave(fs, 0, i, pos);
    }
  }
}
