/** When the code of a function reaches every label with the stack as deep as recorded: exactly if every
    switch whose dispatch lies on a path has all its case labels as deep as it is itself.  A conditional jump
    moves the stack before it decides (asmg/c_compile.g:2371-2387), so a comparison with a case label of
    another depth leaves the stack wrong for what follows. */
module CSwitches {
  import opened Options
  import opened CPaths
  import opened CStatements
  import opened CPlan
  import opened CDiscipline

  // ----- dispatches in planned code -----

  /** What follows the comparisons of a switch at depth d: the jump to the default, or the end. */
  predicate Closes(o: Order, d: nat) {
    match o
    case Go(l, depth, rewind) => l.At? && depth == d && rewind
    case Fix(l, depth) => l.At? && depth == d
    case _ => false
  }

  /** From i on stands the dispatch of a switch at depth d, or what is left of it, for these case labels. */
  predicate DispatchAt(orders: seq<Order>, i: nat, labs: seq<nat>, d: nat) {
    var k := i + |Comparisons(labs, d)|;
    k < |orders| && orders[i..k] == Comparisons(labs, d) && Closes(orders[k], d)
  }

  /** A comparison with a case label. */
  predicate Tries(o: Order) {
    o.GoIfZero? && o.rewind
  }

  /** The comparison at j belongs to a dispatch. */
  ghost predicate InDispatch(orders: seq<Order>, j: nat) {
    && 3 <= j < |orders| && orders[j].GoIfZero?
    && exists labs: seq<nat> :: labs != [] && At(labs[0]) == orders[j].lab && DispatchAt(orders, j - 3, labs, orders[j].depth)
  }

  ghost predicate Shaped(orders: seq<Order>) {
    forall j :: 0 <= j < |orders| && Tries(orders[j]) ==> InDispatch(orders, j)
  }

  predicate NoTries(orders: seq<Order>) {
    forall o :: o in orders ==> !Tries(o)
  }

  lemma NoTriesShaped(orders: seq<Order>)
    requires NoTries(orders)
    ensures Shaped(orders)
  {
  }

  lemma DispatchAtIn(a: seq<Order>, b: seq<Order>, c: seq<Order>, i: nat, labs: seq<nat>, d: nat)
    requires DispatchAt(b, i, labs, d)
    ensures DispatchAt(a + b + c, |a| + i, labs, d)
  {
    hide Comparisons;
    var k := i + |Comparisons(labs, d)|;
    assert (a + b + c)[|a| + i..|a| + k] == b[i..k];
  }

  lemma ShapedParts(a: seq<Order>, b: seq<Order>)
    requires Shaped(a) && Shaped(b)
    ensures Shaped(a + b)
  {
    hide DispatchAt;
    var s := a + b;
    forall j | 0 <= j < |s| && Tries(s[j]) ensures InDispatch(s, j) {
      if j < |a| {
        assert InDispatch(a, j);
        var labs: seq<nat> :| labs != [] && At(labs[0]) == a[j].lab && DispatchAt(a, j - 3, labs, a[j].depth);
        DispatchAtIn([], a, b, j - 3, labs, a[j].depth);
        assert [] + a + b == s;
      } else {
        var k := j - |a|;
        assert InDispatch(b, k);
        var labs: seq<nat> :| labs != [] && At(labs[0]) == b[k].lab && DispatchAt(b, k - 3, labs, b[k].depth);
        DispatchAtIn(a, b, [], k - 3, labs, b[k].depth);
        assert a + b + [] == s;
      }
    }
  }

  lemma {:induction false} ComparisonsShaped(labs: seq<nat>, d: nat, o: Order, more: seq<Order>)
    requires Closes(o, d) && NoTries(more)
    ensures Shaped(Comparisons(labs, d) + ([o] + more))
    decreases |labs|
  {
    hide Shaped, InDispatch;
    var after := [o] + more;
    if labs == [] {
      NoTriesShaped(Comparisons(labs, d) + after);
    } else {
      var c, t := Compare(labs[0], d), Comparisons(labs[1..], d) + after;
      ComparisonsShaped(labs[1..], d, o, more);
      var s := c + t;
      assert Comparisons(labs, d) + after == s;
      WholeDispatch(labs, d, o, more);
      FirstCompared(labs, d, s);
      CompareThen(labs[0], d, t);
    }
  }

  lemma WholeDispatch(labs: seq<nat>, d: nat, o: Order, more: seq<Order>)
    requires Closes(o, d)
    ensures DispatchAt(Comparisons(labs, d) + ([o] + more), 0, labs, d)
  {
    hide Comparisons;
    var c := Comparisons(labs, d);
    var s := c + ([o] + more);
    assert s[0..|c|] == c && s[|c|] == o;
  }

  lemma FirstCompared(labs: seq<nat>, d: nat, orders: seq<Order>)
    requires labs != [] && DispatchAt(orders, 0, labs, d)
    ensures InDispatch(orders, 3) && orders[3] == GoIfZero(At(labs[0]), d, true, Equals)
  {
    var k := |Comparisons(labs, d)|;
    assert orders[0..k][3] == orders[3] && Comparisons(labs, d)[3] == Compare(labs[0], d)[3];
    assert orders[3] == GoIfZero(At(labs[0]), d, true, Equals);
  }

  /** Behind one comparison. */
  lemma CompareThen(l: nat, d: nat, t: seq<Order>)
    requires Shaped(t) && InDispatch(Compare(l, d) + t, 3)
    ensures Shaped(Compare(l, d) + t)
  {
    hide DispatchAt;
    var c := Compare(l, d);
    var s := c + t;
    forall j | 0 <= j < |s| && Tries(s[j]) ensures InDispatch(s, j) {
      if j >= 5 {
        var k := j - 5;
        assert InDispatch(t, k);
        var labs: seq<nat> :| labs != [] && At(labs[0]) == t[k].lab && DispatchAt(t, k - 3, labs, t[k].depth);
        DispatchAtIn(c, t, [], k - 3, labs, t[k].depth);
        assert c + t + [] == s;
      }
    }
  }

  lemma SwitchShaped(on: nat, n: nat, d: nat, body: seq<Order>, labs: seq<nat>, dflt: Option<nat>)
    requires Shaped(body)
    ensures Shaped(SwitchOrders(on, n, d, body, Dispatch(labs, dflt, d)))
  {
    hide Shaped, Comparisons;
    var a, m := [Do(on, d), Push(8), Go(AtValue(n + 1), d, false)], [Go(At(n), d, false), Fix(AtValue(n + 1), d)];
    var c, f := Comparisons(labs, d), [Fix(At(n), d)];
    var w := if dflt.Some? then c + ([Go(At(dflt.value), d, true)] + f) else c + (f + []);
    if dflt.Some? {
      ComparisonsShaped(labs, d, Go(At(dflt.value), d, true), f);
    } else {
      ComparisonsShaped(labs, d, Fix(At(n), d), []);
    }
    NoTriesShaped(a);
    NoTriesShaped(m);
    ShapedParts(a, body);
    ShapedParts(a + body, m);
    ShapedParts(a + body + m, w);
    assert SwitchOrders(on, n, d, body, Dispatch(labs, dflt, d)) == a + body + m + w;
  }

  lemma IfShaped(guard: nat, n: nat, d: nat, p: seq<Order>, q: seq<Order>)
    requires Shaped(p) && Shaped(q)
    ensures Shaped(IfOrders(guard, n, d, p, q))
  {
    hide Shaped;
    var a, m, b := [GoIfZero(At(n), d, false, Guard(guard, d))], [Go(At(n + 1), d, false), Fix(At(n), d)], [Fix(At(n + 1), d)];
    NoTriesShaped(a);
    NoTriesShaped(m);
    NoTriesShaped(b);
    ShapedParts(a, p);
    ShapedParts(a + p, m);
    ShapedParts(a + p + m, q);
    ShapedParts(a + p + m + q, b);
  }

  lemma LoopShaped(kind: Kind, n: nat, d: nat, p: seq<Order>)
    requires Shaped(p)
    ensures Shaped(Eval(Before(kind), d) + (Head(kind, n, d) + p + Tail(kind, n, d)))
  {
    hide Shaped;
    NoTriesShaped(Eval(Before(kind), d));
    NoTriesShaped(Head(kind, n, d));
    NoTriesShaped(Tail(kind, n, d));
    ShapedParts(Head(kind, n, d), p);
    ShapedParts(Head(kind, n, d) + p, Tail(kind, n, d));
    ShapedParts(Eval(Before(kind), d), Head(kind, n, d) + p + Tail(kind, n, d));
  }

  lemma {:induction false} PlanShaped(s: Stmt, st: Locals)
    requires PlanStmt(s, st).Some?
    ensures Shaped(PlanStmt(s, st).value.orders)
    decreases s, 0
  {
    hide Shaped, Head, Tail, IfOrders, SwitchOrders, Dispatch;
    var p := PlanStmt(s, st).value;
    match s {
      case Compound(items) =>
        var q := PlanItems(items, st).value;
        ItemsShaped(items, st);
        NoTriesShaped([Pop(q.st.depth - st.depth)]);
        ShapedParts(q.orders, [Pop(q.st.depth - st.depth)]);
      case If(guard, thn, els) =>
        var q := PlanStmt(thn, InIf(st)).value;
        PlanShaped(thn, InIf(st));
        PlanShaped(els, q.st);
        IfShaped(guard, st.next, st.depth, q.orders, PlanStmt(els, q.st).value.orders);
      case Loop(kind, body) =>
        PlanShaped(body, InLoop(kind, st));
        LoopShaped(kind, st.next, st.depth, PlanStmt(body, InLoop(kind, st)).value.orders);
      case Switch(on, body) =>
        var q := PlanStmt(body, InSwitch(st)).value;
        PlanShaped(body, InSwitch(st));
        SwitchShaped(on, st.next, st.depth, q.orders, q.st.cases.value, q.st.dflt);
      case Case(stmt) => LabelShaped(st.next, st, stmt, InCase(st));
      case Default(stmt) => LabelShaped(st.next, st, stmt, InDefault(st));
      case Labeled(x, stmt) => LabelShaped(Name(st, x).0, st, stmt, Name(st, x).1);
      case _ => NoTriesShaped(p.orders);
    }
  }

  lemma {:induction false} LabelShaped(l: nat, st: Locals, s: Stmt, st': Locals)
    requires PlanStmt(s, st').Some?
    ensures Shaped([Fix(At(l), st.depth)] + PlanStmt(s, st').value.orders)
    decreases s, 1
  {
    hide Shaped, PlanStmt;
    PlanShaped(s, st');
    NoTriesShaped([Fix(At(l), st.depth)]);
    ShapedParts([Fix(At(l), st.depth)], PlanStmt(s, st').value.orders);
  }

  lemma {:induction false} ItemsShaped(items: Items, st: Locals)
    requires PlanItems(items, st).Some?
    ensures Shaped(PlanItems(items, st).value.orders)
    decreases items
  {
    hide Shaped, PlanStmt;
    match items {
      case End => NoTriesShaped([]);
      case Declare(footprint, init, rest) =>
        var st' := st.(depth := st.depth + footprint);
        ItemsShaped(rest, st');
        NoTriesShaped([Push(footprint)]);
        NoTriesShaped(Eval(init, st'.depth));
        ShapedParts(Eval(init, st'.depth), PlanItems(rest, st').value.orders);
        ShapedParts([Push(footprint)], Eval(init, st'.depth) + PlanItems(rest, st').value.orders);
      case Then(head, rest) =>
        var p := PlanStmt(head, st).value;
        PlanShaped(head, st);
        ItemsShaped(rest, p.st);
        ShapedParts(p.orders, PlanItems(rest, p.st).value.orders);
    }
  }

  lemma FunctionShaped(body: Items, n: nat)
    requires PlanFunction(body, n).Some?
    ensures Shaped(PlanFunction(body, n).value.orders)
  {
    hide Shaped, PlanStmt;
    PlanShaped(Compound(body), Fresh(n));
    NoTriesShaped([Fix(At(n), 0), Finish]);
    ShapedParts(PlanStmt(Compound(body), Fresh(n)).value.orders, [Fix(At(n), 0), Finish]);
  }

  // ----- what discipline demands of a dispatch on a path -----

  /** The orders from i on, as the code that they are. */
  lemma CodedAt(orders: seq<Order>, pos: Positions, i: nat, labs: seq<nat>, d: nat)
    requires DispatchAt(orders, i, labs, d)
    ensures var code, k := Code(orders, pos), i + |Comparisons(labs, d)|;
            && k < |code| && code[k] == Coded(orders[k], pos)
            && (labs == [] ==> k == i + 1 && code[i] == Shrink(8))
            && (labs != [] ==>
                  && k >= i + 6 && code[i] == Grow(8) && code[i + 1] == Shrink(8) && code[i + 2] == Shrink(8)
                  && code[i + 3] == JumpIfZero(At(labs[0]), Moved(pos, At(labs[0]), d, true), Equals) && code[i + 4] == Grow(8)
                  && DispatchAt(orders, i + 5, labs[1..], d))
  {
    if labs == [] {
      var k := i + 1;
      assert orders[i] == orders[i..k][0];
    } else {
      CompareAt(orders, i, labs, d);
    }
  }

  lemma CompareAt(orders: seq<Order>, i: nat, labs: seq<nat>, d: nat)
    requires DispatchAt(orders, i, labs, d) && labs != []
    ensures |Comparisons(labs, d)| >= 6 && DispatchAt(orders, i + 5, labs[1..], d)
    ensures var c := Compare(labs[0], d);
            i + 5 < |orders| && orders[i] == c[0] && orders[i + 1] == c[1] && orders[i + 2] == c[2]
            && orders[i + 3] == c[3] && orders[i + 4] == c[4]
  {
    hide Comparisons;
    var a, b := Compare(labs[0], d), Comparisons(labs[1..], d);
    assert Comparisons(labs, d) == a + b by { FirstComparison(labs, d); }
    NotEmpty(labs[1..], d);
    SliceParts(orders, i, a, b);
  }

  lemma FirstComparison(labs: seq<nat>, d: nat)
    requires labs != []
    ensures Comparisons(labs, d) == Compare(labs[0], d) + Comparisons(labs[1..], d)
  {
  }

  lemma SliceParts(orders: seq<Order>, i: nat, a: seq<Order>, b: seq<Order>)
    requires i + |a| + |b| <= |orders| && orders[i..i + |a| + |b|] == a + b
    ensures forall j :: 0 <= j < |a| ==> orders[i + j] == a[j]
    ensures orders[i + |a|..i + |a| + |b|] == b
  {
    var t := orders[i..i + |a| + |b|];
    forall j | 0 <= j < |a| ensures orders[i + j] == a[j] {
      assert t[j] == (a + b)[j];
    }
    assert orders[i + |a|..i + |a| + |b|] == t[|a|..] == b;
  }

  lemma NotEmpty(labs: seq<nat>, d: nat)
    ensures |Comparisons(labs, d)| >= 1
  {
  }

  lemma {:induction false} DispatchNeeds(orders: seq<Order>, pos: Positions, i: nat, labs: seq<nat>, d: nat, run: seq<Point>)
    requires DispatchAt(orders, i, labs, d) && Agrees(orders, pos)
    requires Disciplined(Code(orders, pos), pos) && run != [] && Path(Code(orders, pos), run) && run[|run| - 1].i == i
    ensures run[|run| - 1].depth == d + 8 && Standing(labs, pos, d)
    decreases |labs|
  {
    hide Path, Disciplined, Comparisons, DispatchAt, Code, Agrees, GoodAt;
    var code, e := Code(orders, pos), run[|run| - 1].depth;
    CodedAt(orders, pos, i, labs, d);
    if labs == [] {
      var r1 := run + [Point(i + 1, e - 8)];
      PathMore(code, run, Point(i + 1, e - 8));
      GoodOnPath(code, pos, r1, |run|);
      AtClose(orders, pos, i, labs, d, e - 8);
    } else {
      var r1 := run + [Point(i + 1, e + 8)];
      PathMore(code, run, Point(i + 1, e + 8));
      var r2 := r1 + [Point(i + 2, e)];
      PathMore(code, r1, Point(i + 2, e));
      var r3 := r2 + [Point(i + 3, e - 8)];
      PathMore(code, r2, Point(i + 3, e - 8));
      GoodOnPath(code, pos, r3, |r3| - 1);
      AtCompare(code, pos, i + 3, labs[0], d, e - 8);
      var x := pos[labs[0]].value;
      var r4 := r3 + [Point(i + 4, x)];
      PathMore(code, r3, Point(i + 4, x));
      var r5 := r4 + [Point(i + 5, x + 8)];
      PathMore(code, r4, Point(i + 5, x + 8));
      DispatchNeeds(orders, pos, i + 5, labs[1..], d, r5);
      assert forall l :: l in labs ==> l == labs[0] || l in labs[1..];
    }
  }

  lemma AtCompare(code: seq<Instr>, pos: Positions, j: nat, l: nat, d: nat, e: int)
    requires j < |code| && code[j] == JumpIfZero(At(l), Moved(pos, At(l), d, true), Equals) && GoodAt(code, pos, Point(j, e))
    ensures e == d && l < |pos| && pos[l].Some? && Moved(pos, At(l), d, true) == d - pos[l].value
  {
  }

  lemma AtClose(orders: seq<Order>, pos: Positions, i: nat, labs: seq<nat>, d: nat, e: int)
    requires DispatchAt(orders, i, labs, d) && Agrees(orders, pos)
    requires GoodAt(Code(orders, pos), pos, Point(i + |Comparisons(labs, d)|, e))
    ensures e == d
  {
    hide Comparisons;
    var k := i + |Comparisons(labs, d)|;
    assert orders[k].Fix? || orders[k].Go?;
  }

  // ----- the exact condition -----

  /** Every switch whose dispatch lies on a path has all its case labels as deep as it is. */
  ghost predicate DispatchesLevel(orders: seq<Order>, pos: Positions) {
    forall i: nat, labs: seq<nat>, d: nat ::
      DispatchAt(orders, i, labs, d) && OnPath(Code(orders, pos), i) ==> Standing(labs, pos, d)
  }

  lemma LevelIfDispatchesAre(orders: seq<Order>, pos: Positions)
    requires Shaped(orders) && DispatchesLevel(orders, pos)
    ensures LevelJumps(Code(orders, pos))
  {
    hide OnPath, Comparisons;
    var code := Code(orders, pos);
    forall j | 0 <= j < |code| && code[j].JumpIfZero? && OnPath(code, j) ensures code[j].n == 0 {
      if Tries(orders[j]) {
        assert InDispatch(orders, j);
        var d := orders[j].depth;
        var labs: seq<nat> :| labs != [] && At(labs[0]) == orders[j].lab && DispatchAt(orders, j - 3, labs, d);
        CodedAt(orders, pos, j - 3, labs, d);
        FromAbove(code, j);
        FromAbove(code, j - 1);
        FromAbove(code, j - 2);
        assert Standing(labs, pos, d) && labs[0] in labs;
      }
    }
  }

  /** Main result: on every path every label is reached with the stack as deep as recorded if and only if
      every switch whose dispatch lies on a path has all its case labels as deep as it is itself. */
  lemma FunctionExact(body: Items, n: nat, pos: Positions)
    requires PlanFunction(body, n).Some?
    requires AllKnown(pos, PlanFunction(body, n).value.st.next) && Agrees(PlanFunction(body, n).value.orders, pos)
    ensures Disciplined(Code(PlanFunction(body, n).value.orders, pos), pos)
       <==> DispatchesLevel(PlanFunction(body, n).value.orders, pos)
  {
    hide PlanFunction, Disciplined, Shaped, Agrees, DispatchAt, Code, Path, Standing, Walk, LevelJumps;
    var orders := PlanFunction(body, n).value.orders;
    var code := Code(orders, pos);
    FunctionShaped(body, n);
    FunctionWalks(body, n, pos);
    if DispatchesLevel(orders, pos) {
      LevelIfDispatchesAre(orders, pos);
      WalkSpeaksForPaths(code, pos);
    }
    if Disciplined(code, pos) {
      forall i: nat, labs: seq<nat>, d: nat | DispatchAt(orders, i, labs, d) && OnPath(code, i) ensures Standing(labs, pos, d) {
        var run: seq<Point> :| run != [] && Path(code, run) && run[|run| - 1].i == i;
        DispatchNeeds(orders, pos, i, labs, d, run);
      }
    }
  }

  // ----- case labels before all declarations -----

  /** The case labels that a statement adds to its switch are fixed as deep as the switch, if they are flat. */
  lemma {:induction false} CasesStand(s: Stmt, st: Locals, pos: Positions, base: nat)
    requires PlanStmt(s, st).Some? && Agrees(PlanStmt(s, st).value.orders, pos)
    requires st.cases.Some? && Standing(st.cases.value, pos, base) && base <= st.depth && CasesFlat(s, st.depth - base)
    ensures Standing(PlanStmt(s, st).value.st.cases.value, pos, base)
    decreases s, 1
  {
    hide Head, Tail, Dispatch, Agrees, Standing, KnownAt;
    var n, d := st.next, st.depth;
    match s {
      case Compound(items) =>
        var p := PlanItems(items, st).value;
        AgreesParts(p.orders, [Pop(p.st.depth - d)], pos);
        ItemsCasesStand(items, st, pos, base);
      case If(_, _, _) => IfCasesStand(s, st, pos, base);
      case Loop(_, _) => LoopCasesStand(s, st, pos, base);
      case Case(stmt) => FixedCasesStand(n, stmt, InCase(st), pos, base, Some(n));
      case Default(stmt) => FixedCasesStand(n, stmt, InDefault(st), pos, base, None);
      case Labeled(x, stmt) => FixedCasesStand(Name(st, x).0, stmt, Name(st, x).1, pos, base, None);
      case _ =>
    }
  }

  lemma {:induction false} IfCasesStand(s: Stmt, st: Locals, pos: Positions, base: nat)
    requires s.If? && PlanStmt(s, st).Some? && Agrees(PlanStmt(s, st).value.orders, pos)
    requires st.cases.Some? && Standing(st.cases.value, pos, base) && base <= st.depth && CasesFlat(s, st.depth - base)
    ensures Standing(PlanStmt(s, st).value.st.cases.value, pos, base)
    decreases s, 0
  {
    hide Agrees, Standing, KnownAt;
    var p := PlanStmt(s.thn, InIf(st)).value;
    var q := PlanStmt(s.els, p.st).value;
    IfAgrees(s.guard, st.next, st.depth, p.orders, q.orders, pos);
    CasesStand(s.thn, InIf(st), pos, base);
    CasesStand(s.els, p.st, pos, base);
  }

  lemma {:induction false} LoopCasesStand(s: Stmt, st: Locals, pos: Positions, base: nat)
    requires s.Loop? && PlanStmt(s, st).Some? && Agrees(PlanStmt(s, st).value.orders, pos)
    requires st.cases.Some? && Standing(st.cases.value, pos, base) && base <= st.depth && CasesFlat(s, st.depth - base)
    ensures Standing(PlanStmt(s, st).value.st.cases.value, pos, base)
    decreases s, 0
  {
    hide Head, Tail, Agrees, Standing, KnownAt;
    var n, d := st.next, st.depth;
    var st' := InLoop(s.kind, st);
    var p := PlanStmt(s.body, st').value;
    AgreesParts(Eval(Before(s.kind), st.depth), Head(s.kind, n, d) + p.orders + Tail(s.kind, n, d), pos);
    AgreesParts(Head(s.kind, n, d) + p.orders, Tail(s.kind, n, d), pos);
    AgreesParts(Head(s.kind, n, d), p.orders, pos);
    CasesStand(s.body, st', pos, base);
  }

  lemma {:induction false} FixedCasesStand(l: nat, s: Stmt, st: Locals, pos: Positions, base: nat, added: Option<nat>)
    requires PlanStmt(s, st).Some? && Agrees([Fix(At(l), st.depth)] + PlanStmt(s, st).value.orders, pos)
    requires st.cases.Some? && base <= st.depth && CasesFlat(s, st.depth - base)
    requires var labs := st.cases.value;
             match added
             case None => Standing(labs, pos, base)
             case Some(k) => k == l && st.depth == base && labs != [] && labs[|labs| - 1] == l && Standing(labs[..|labs| - 1], pos, base)
    ensures Standing(PlanStmt(s, st).value.st.cases.value, pos, base)
    decreases s, 2
  {
    hide Agrees, Standing, KnownAt, PlanStmt, CasesFlat;
    var labs := st.cases.value;
    FixAgrees(At(l), st.depth, PlanStmt(s, st).value.orders, pos);
    if added.Some? {
      assert labs == labs[..|labs| - 1] + [l];
      OneMoreStands(labs[..|labs| - 1], l, pos, base);
    }
    CasesStand(s, st, pos, base);
  }

  lemma OneMoreStands(labs: seq<nat>, l: nat, pos: Positions, base: int)
    requires Standing(labs, pos, base) && KnownAt(pos, l, base)
    ensures Standing(labs + [l], pos, base)
  {
  }

  lemma {:induction false} ItemsCasesStand(items: Items, st: Locals, pos: Positions, base: nat)
    requires PlanItems(items, st).Some? && Agrees(PlanItems(items, st).value.orders, pos)
    requires st.cases.Some? && Standing(st.cases.value, pos, base) && base <= st.depth && CasesFlatIn(items, st.depth - base)
    ensures Standing(PlanItems(items, st).value.st.cases.value, pos, base)
    decreases items
  {
    hide Agrees, Standing, PlanStmt;
    match items {
      case End =>
      case Declare(footprint, init, rest) =>
        var st' := st.(depth := st.depth + footprint);
        AgreesParts([Push(footprint)], Eval(init, st'.depth) + PlanItems(rest, st').value.orders, pos);
        AgreesParts(Eval(init, st'.depth), PlanItems(rest, st').value.orders, pos);
        ItemsCasesStand(rest, st', pos, base);
      case Then(head, rest) =>
        var p := PlanStmt(head, st).value;
        AgreesParts(p.orders, PlanItems(rest, p.st).value.orders, pos);
        CasesStand(head, st, pos, base);
        ItemsCasesStand(rest, p.st, pos, base);
    }
  }

  lemma NoCases(pos: Positions, d: int)
    ensures Standing([], pos, d)
  {
  }

  /** All comparisons are with case labels as deep as their switches. */
  predicate Level(orders: seq<Order>, pos: Positions) {
    forall o :: o in orders && Tries(o) ==> KnownAt(pos, o.lab.id, o.depth)
  }

  lemma LevelParts(a: seq<Order>, b: seq<Order>, pos: Positions)
    requires Level(a, pos) && Level(b, pos)
    ensures Level(a + b, pos)
  {
  }

  lemma NoTriesLevel(orders: seq<Order>, pos: Positions)
    requires NoTries(orders)
    ensures Level(orders, pos)
  {
  }

  lemma {:induction false} ComparisonsLevel(labs: seq<nat>, d: nat, pos: Positions)
    requires Standing(labs, pos, d)
    ensures Level(Comparisons(labs, d), pos)
    decreases |labs|
  {
    if labs != [] {
      assert labs[0] in labs && forall l :: l in labs[1..] ==> l in labs;
      ComparisonsLevel(labs[1..], d, pos);
    }
  }

  lemma {:induction false} PlanLevel(s: Stmt, st: Locals, pos: Positions)
    requires PlanStmt(s, st).Some? && Agrees(PlanStmt(s, st).value.orders, pos) && WellPlaced(s)
    ensures Level(PlanStmt(s, st).value.orders, pos)
    decreases s, 1
  {
    hide Level, Agrees, PlanStmt, WellPlaced;
    match s {
      case Compound(_) => BlockLevel(s, st, pos);
      case If(_, _, _) => IfLevel(s, st, pos);
      case Loop(_, _) => LoopLevel(s, st, pos);
      case Switch(_, _) => SwitchLevel(s, st, pos);
      case Case(_) => LabelLevel(s, st, pos);
      case Default(_) => LabelLevel(s, st, pos);
      case Labeled(_, _) => LabelLevel(s, st, pos);
      case _ => JumpLevel(s, st, pos);
    }
  }

  lemma JumpLevel(s: Stmt, st: Locals, pos: Positions)
    requires s.Empty? || s.Expr? || s.Return? || s.Break? || s.Continue? || s.Goto?
    requires PlanStmt(s, st).Some?
    ensures Level(PlanStmt(s, st).value.orders, pos)
  {
  }

  lemma {:induction false} BlockLevel(s: Stmt, st: Locals, pos: Positions)
    requires s.Compound? && PlanStmt(s, st).Some? && Agrees(PlanStmt(s, st).value.orders, pos) && WellPlaced(s)
    ensures Level(PlanStmt(s, st).value.orders, pos)
    decreases s, 0
  {
    hide Level, Agrees, PlanItems;
    var q := PlanItems(s.items, st).value;
    AgreesParts(q.orders, [Pop(q.st.depth - st.depth)], pos);
    ItemsLevel(s.items, st, pos);
    NoTriesLevel([Pop(q.st.depth - st.depth)], pos);
    LevelParts(q.orders, [Pop(q.st.depth - st.depth)], pos);
  }

  lemma {:induction false} IfLevel(s: Stmt, st: Locals, pos: Positions)
    requires s.If? && PlanStmt(s, st).Some? && Agrees(PlanStmt(s, st).value.orders, pos) && WellPlaced(s)
    ensures Level(PlanStmt(s, st).value.orders, pos)
    decreases s, 0
  {
    hide Level, Agrees;
    var p := PlanStmt(s.thn, InIf(st)).value;
    var q := PlanStmt(s.els, p.st).value;
    var n, d := st.next, st.depth;
    IfAgrees(s.guard, n, d, p.orders, q.orders, pos);
    PlanLevel(s.thn, InIf(st), pos);
    PlanLevel(s.els, p.st, pos);
    var a, m, b := [GoIfZero(At(n), d, false, Guard(s.guard, d))], [Go(At(n + 1), d, false), Fix(At(n), d)], [Fix(At(n + 1), d)];
    NoTriesLevel(a, pos);
    NoTriesLevel(m, pos);
    NoTriesLevel(b, pos);
    LevelParts(a, p.orders, pos);
    LevelParts(a + p.orders, m, pos);
    LevelParts(a + p.orders + m, q.orders, pos);
    LevelParts(a + p.orders + m + q.orders, b, pos);
  }

  lemma {:induction false} LoopLevel(s: Stmt, st: Locals, pos: Positions)
    requires s.Loop? && PlanStmt(s, st).Some? && Agrees(PlanStmt(s, st).value.orders, pos) && WellPlaced(s)
    ensures Level(PlanStmt(s, st).value.orders, pos)
    decreases s, 0
  {
    hide Level, Agrees;
    var p := PlanStmt(s.body, InLoop(s.kind, st)).value;
    var h, t := Head(s.kind, st.next, st.depth), Tail(s.kind, st.next, st.depth);
    var i := Eval(Before(s.kind), st.depth);
    AgreesParts(i, h + p.orders + t, pos);
    AgreesParts(h + p.orders, t, pos);
    AgreesParts(h, p.orders, pos);
    PlanLevel(s.body, InLoop(s.kind, st), pos);
    NoTriesLevel(i, pos);
    NoTriesLevel(h, pos);
    NoTriesLevel(t, pos);
    LevelParts(h, p.orders, pos);
    LevelParts(h + p.orders, t, pos);
    LevelParts(i, h + p.orders + t, pos);
  }

  lemma {:induction false} SwitchLevel(s: Stmt, st: Locals, pos: Positions)
    requires s.Switch? && PlanStmt(s, st).Some? && Agrees(PlanStmt(s, st).value.orders, pos) && WellPlaced(s)
    ensures Level(PlanStmt(s, st).value.orders, pos)
    decreases s, 0
  {
    hide Level, Agrees, Standing, Comparisons;
    var st' := InSwitch(st);
    var p := PlanStmt(s.body, st').value;
    var n, d, labs, dflt := st.next, st.depth, p.st.cases.value, p.st.dflt;
    SwitchAgrees(s.on, n, d, p.orders, Dispatch(labs, dflt, d), pos);
    PlanLevel(s.body, st', pos);
    NoCases(pos, d);
    CasesStand(s.body, st', pos, d);
    ComparisonsLevel(labs, d, pos);
    var a, m := [Do(s.on, d), Push(8), Go(AtValue(n + 1), d, false)], [Go(At(n), d, false), Fix(AtValue(n + 1), d)];
    var c, e, f := Comparisons(labs, d), if dflt.Some? then [Go(At(dflt.value), d, true)] else [], [Fix(At(n), d)];
    NoTriesLevel(a, pos);
    NoTriesLevel(m, pos);
    NoTriesLevel(e, pos);
    NoTriesLevel(f, pos);
    LevelParts(a, p.orders, pos);
    LevelParts(a + p.orders, m, pos);
    LevelParts(c, e, pos);
    LevelParts(a + p.orders + m, c + e, pos);
    LevelParts(a + p.orders + m + (c + e), f, pos);
  }

  lemma {:induction false} LabelLevel(s: Stmt, st: Locals, pos: Positions)
    requires (s.Case? || s.Default? || s.Labeled?) && PlanStmt(s, st).Some? && Agrees(PlanStmt(s, st).value.orders, pos)
    requires WellPlaced(s)
    ensures Level(PlanStmt(s, st).value.orders, pos)
    decreases s, 0
  {
    hide Level, Agrees;
    match s {
      case Case(stmt) => BehindLevel(st.next, st, stmt, InCase(st), pos);
      case Default(stmt) => BehindLevel(st.next, st, stmt, InDefault(st), pos);
      case Labeled(x, stmt) => BehindLevel(Name(st, x).0, st, stmt, Name(st, x).1, pos);
    }
  }

  lemma {:induction false} BehindLevel(l: nat, st: Locals, s: Stmt, st': Locals, pos: Positions)
    requires PlanStmt(s, st').Some? && Agrees([Fix(At(l), st.depth)] + PlanStmt(s, st').value.orders, pos) && WellPlaced(s)
    ensures Level([Fix(At(l), st.depth)] + PlanStmt(s, st').value.orders, pos)
    decreases s, 2
  {
    hide Level, Agrees, PlanStmt, WellPlaced;
    FixAgrees(At(l), st.depth, PlanStmt(s, st').value.orders, pos);
    PlanLevel(s, st', pos);
    NoTriesLevel([Fix(At(l), st.depth)], pos);
    LevelParts([Fix(At(l), st.depth)], PlanStmt(s, st').value.orders, pos);
  }

  lemma {:induction false} ItemsLevel(items: Items, st: Locals, pos: Positions)
    requires PlanItems(items, st).Some? && Agrees(PlanItems(items, st).value.orders, pos) && WellPlacedIn(items)
    ensures Level(PlanItems(items, st).value.orders, pos)
    decreases items
  {
    hide Level, Agrees, PlanStmt, WellPlaced;
    match items {
      case End => NoTriesLevel([], pos);
      case Declare(footprint, init, rest) =>
        var st' := st.(depth := st.depth + footprint);
        var q := PlanItems(rest, st').value;
        AgreesParts([Push(footprint)], Eval(init, st'.depth) + q.orders, pos);
        AgreesParts(Eval(init, st'.depth), q.orders, pos);
        ItemsLevel(rest, st', pos);
        NoTriesLevel([Push(footprint)], pos);
        NoTriesLevel(Eval(init, st'.depth), pos);
        LevelParts(Eval(init, st'.depth), q.orders, pos);
        LevelParts([Push(footprint)], Eval(init, st'.depth) + q.orders, pos);
      case Then(head, rest) =>
        var p := PlanStmt(head, st).value;
        var q := PlanItems(rest, p.st).value;
        AgreesParts(p.orders, q.orders, pos);
        PlanLevel(head, st, pos);
        ItemsLevel(rest, p.st, pos);
        LevelParts(p.orders, q.orders, pos);
    }
  }

  lemma LevelOrdersJump(orders: seq<Order>, pos: Positions)
    requires Level(orders, pos)
    ensures LevelJumps(Code(orders, pos))
  {
    hide OnPath;
    var code := Code(orders, pos);
    forall j | 0 <= j < |code| && code[j].JumpIfZero? ensures code[j].n == 0 {
      assert orders[j] in orders;
    }
  }

  /** So it is if no case label follows a declaration of a block inside its switch: fall-through, break,
      continue, goto, return, case and default reach their labels, on every path, as deep as recorded. */
  lemma FunctionDisciplined(body: Items, n: nat, pos: Positions)
    requires PlanFunction(body, n).Some? && WellPlacedIn(body)
    requires AllKnown(pos, PlanFunction(body, n).value.st.next) && Agrees(PlanFunction(body, n).value.orders, pos)
    ensures Disciplined(Code(PlanFunction(body, n).value.orders, pos), pos)
  {
    hide Agrees, PlanStmt, Disciplined, Level, Walk, LevelJumps, Code;
    var p := PlanStmt(Compound(body), Fresh(n)).value;
    var b := [Fix(At(n), 0), Finish];
    FunctionWalks(body, n, pos);
    AgreesParts(p.orders, b, pos);
    PlanLevel(Compound(body), Fresh(n), pos);
    NoTriesLevel(b, pos);
    LevelParts(p.orders, b, pos);
    LevelOrdersJump(p.orders + b, pos);
    WalkSpeaksForPaths(Code(p.orders + b, pos), pos);
  }

  // ----- one dispatch by itself -----

  /** The dispatch of a switch that is d deep, with the value on the stack and the label behind it. */
  function DispatchOrders(labs: seq<nat>, dflt: Option<nat>, b: nat, d: nat): seq<Order> {
    [Push(d + 8)] + Dispatch(labs, dflt, d) + [Fix(At(b), d)]
  }

  /** From there every label is reached as recorded if and only if all case labels are as deep as the switch. */
  lemma DispatchExact(labs: seq<nat>, dflt: Option<nat>, b: nat, d: nat, pos: Positions)
    requires LabelsKnown(labs, pos) && KnownAt(pos, b, d) && (dflt.Some? ==> dflt.value < |pos| && pos[dflt.value].Some?)
    ensures Disciplined(Code(DispatchOrders(labs, dflt, b, d), pos), pos) <==> Standing(labs, pos, d)
  {
    hide Disciplined, Code, Standing, DispatchAt, Path, Comparisons, Agrees, LevelJumps, Walk;
    var orders := DispatchOrders(labs, dflt, b, d);
    var code := Code(orders, pos);
    DispatchWalks(labs, dflt, b, d, pos);
    if Standing(labs, pos, d) {
      DispatchLevel(labs, dflt, b, d, pos);
      LevelOrdersJump(orders, pos);
      WalkSpeaksForPaths(code, pos);
    }
    if Disciplined(code, pos) {
      DispatchThere(labs, dflt, b, d, pos);
      DispatchNeeds(orders, pos, 1, labs, d, [Point(0, 0), Point(1, d + 8)]);
    }
  }

  lemma DispatchWalks(labs: seq<nat>, dflt: Option<nat>, b: nat, d: nat, pos: Positions)
    requires LabelsKnown(labs, pos) && KnownAt(pos, b, d) && (dflt.Some? ==> dflt.value < |pos| && pos[dflt.value].Some?)
    ensures Walk(Code(DispatchOrders(labs, dflt, b, d), pos), pos, Live(0)).Some?
  {
    hide Walk, Code, Dispatch, Follow;
    var c, f := Dispatch(labs, dflt, d), [Fix(At(b), d)];
    DispatchLeads(labs, dflt, d, pos, Live(d + 8));
    Done(pos, Live(d), d);
    ThenFix(At(b), d, [], pos, Follow(c, pos, Live(d + 8)).value, d);
    assert f + [] == f;
    Both(c, f, pos, Live(d + 8), d, d);
    ThenMove(Push(d + 8), c + f, pos, Live(0), d);
    assert DispatchOrders(labs, dflt, b, d) == [Push(d + 8)] + (c + f);
    FollowIsWalk(DispatchOrders(labs, dflt, b, d), pos);
  }

  lemma DispatchLevel(labs: seq<nat>, dflt: Option<nat>, b: nat, d: nat, pos: Positions)
    requires Standing(labs, pos, d)
    ensures Level(DispatchOrders(labs, dflt, b, d), pos)
  {
    hide Level, Comparisons;
    var c, e, f := Comparisons(labs, d), if dflt.Some? then [Go(At(dflt.value), d, true)] else [], [Fix(At(b), d)];
    ComparisonsLevel(labs, d, pos);
    NoTriesLevel([Push(d + 8)], pos);
    NoTriesLevel(e, pos);
    NoTriesLevel(f, pos);
    LevelParts(c, e, pos);
    LevelParts([Push(d + 8)], c + e, pos);
    LevelParts([Push(d + 8)] + (c + e), f, pos);
  }

  lemma DispatchThere(labs: seq<nat>, dflt: Option<nat>, b: nat, d: nat, pos: Positions)
    requires KnownAt(pos, b, d)
    ensures var orders := DispatchOrders(labs, dflt, b, d);
            && DispatchAt(orders, 1, labs, d) && Path(Code(orders, pos), [Point(0, 0), Point(1, d + 8)])
            && Agrees(orders, pos)
  {
    hide Comparisons;
    var orders, c := DispatchOrders(labs, dflt, b, d), Comparisons(labs, d);
    assert orders[1..1 + |c|] == c;
    assert orders[1 + |c|] == if dflt.Some? then Go(At(dflt.value), d, true) else Fix(At(b), d);
    ComparisonsFixNone(labs, d);
    assert forall j :: 0 <= j < |c| ==> c[j] in c && orders[1 + j] == c[j];
    assert forall i :: 0 <= i < |orders| && orders[i].Fix? ==> i > |c|;
  }

  // ----- a function that fails -----

  /** A program that the language admits, with a case label behind a declaration:
      { switch (e) { int y; case 1: ; } } */
  function Misplaced(): Items {
    Then(Switch(0, MisplacedBody()), End)
  }

  function MisplacedBody(): Stmt {
    Compound(Declare(4, None, MisplacedTail()))
  }

  function MisplacedTail(): Items {
    Then(Case(Empty), End)
  }

  function MisplacedPlan(): seq<Order> {
    [Do(0, 0), Push(8), Go(AtValue(2), 0, false), Push(4), Fix(At(3), 4), Pop(4), Go(At(1), 0, false), Fix(AtValue(2), 0),
     Push(8), Pop(8), Pop(8), GoIfZero(At(3), 0, true, Equals), Push(8), Pop(8), Fix(At(1), 0), Pop(0), Fix(At(0), 0), Finish]
  }

  /** After a comparison that fails, the stack is 4 deeper than the label behind the switch expects. */
  lemma MisplacedCase()
    ensures Admitted(Misplaced()) && !WellPlacedIn(Misplaced()) && PlanFunction(Misplaced(), 0).Some?
    ensures var p, pos := PlanFunction(Misplaced(), 0).value, [Some(0), Some(0), Some(0), Some(4)];
            Agrees(p.orders, pos) && p.st.next == 4 && AllKnown(pos, 4) && !Disciplined(Code(p.orders, pos), pos)
  {
    hide Disciplined, PlanFunction, Code, Misplaced, GoodAt;
    var pos: Positions := [Some(0), Some(0), Some(0), Some(4)];
    MisplacedAdmitted();
    MisplacedOrders();
    var code := Code(MisplacedPlan(), pos);
    var run := MisplacedRun(code, pos);
    if Disciplined(code, pos) {
      GoodOnPath(code, pos, run, 10);
    }
  }

  lemma MisplacedAdmitted()
    ensures Admitted(Misplaced()) && !WellPlacedIn(Misplaced())
  {
    hide MisplacedTail, Scoped, ScopedIn, Defaults, DefaultsIn, Mentions, MentionsIn, CasesFlat, CasesFlatIn, WellPlaced, WellPlacedIn;
    TailAdmitted();
    DeclarationFirst(4, MisplacedTail());
    OnlySwitch(MisplacedBody());
  }

  lemma DeclarationFirst(n: nat, t: Items)
    ensures var b := Compound(Declare(n, None, t));
            && CasesFlat(b, 0) == CasesFlatIn(t, n) && Defaults(b) == DefaultsIn(t)
            && Scoped(b, true, false, true) == ScopedIn(t, true, false, true)
    ensures forall name :: Mentions(Compound(Declare(n, None, t)), name) == MentionsIn(t, name)
  {
  }

  lemma OnlySwitch(b: Stmt)
    ensures ScopedIn(Then(Switch(0, b), End), false, false, false) <==> Scoped(b, true, false, true) && Defaults(b) <= 1
    ensures WellPlacedIn(Then(Switch(0, b), End)) ==> CasesFlat(b, 0)
    ensures forall name :: MentionsIn(Then(Switch(0, b), End), name) == Mentions(b, name)
  {
    hide ScopedIn, WellPlacedIn, MentionsIn;
    OnlyStatement(Switch(0, b));
    forall name ensures MentionsIn(Then(Switch(0, b), End), name) == Mentions(b, name) {
      OnlyMentions(Switch(0, b), name);
    }
  }

  lemma OnlyStatement(s: Stmt)
    ensures ScopedIn(Then(s, End), false, false, false) == Scoped(s, false, false, false)
    ensures WellPlacedIn(Then(s, End)) == WellPlaced(s)
  {
    hide Scoped, WellPlaced;
    assert ScopedIn(End, false, false, false) && WellPlacedIn(End);
  }

  lemma OnlyMentions(s: Stmt, name: string)
    ensures MentionsIn(Then(s, End), name) == Mentions(s, name)
  {
    hide Mentions;
    assert !MentionsIn(End, name);
  }

  lemma TailAdmitted()
    ensures ScopedIn(MisplacedTail(), true, false, true) && DefaultsIn(MisplacedTail()) == 0 && !CasesFlatIn(MisplacedTail(), 4)
    ensures forall name :: !MentionsIn(MisplacedTail(), name)
  {
    hide Scoped, Defaults, CasesFlat, Mentions;
    EmptyCase();
    assert ScopedIn(End, true, false, true) && DefaultsIn(End) == 0;
    forall name ensures !MentionsIn(MisplacedTail(), name) {
      OnlyMentions(Case(Empty), name);
    }
  }

  lemma EmptyCase()
    ensures Scoped(Case(Empty), true, false, true) && Defaults(Case(Empty)) == 0 && !CasesFlat(Case(Empty), 4)
    ensures forall name :: !Mentions(Case(Empty), name)
  {
    assert Scoped(Empty, true, false, true) && Defaults(Empty) == 0;
    forall name ensures !Mentions(Case(Empty), name) {
      assert !Mentions(Empty, name);
    }
  }

  lemma MisplacedRun(code: seq<Instr>, pos: Positions) returns (run: seq<Point>)
    requires pos == [Some(0), Some(0), Some(0), Some(4)] && code == Code(MisplacedPlan(), pos)
    ensures Path(code, run) && |run| == 11 && !GoodAt(code, pos, run[10])
  {
    hide Code;
    MisplacedInstructions(code, pos);
    run := [Point(0, 0), Point(1, 0), Point(2, 8), Point(7, 8), Point(8, 8), Point(9, 16), Point(10, 8), Point(11, 0),
            Point(12, 4), Point(13, 12), Point(14, 4)];
  }

  lemma MisplacedInstructions(code: seq<Instr>, pos: Positions)
    requires pos == [Some(0), Some(0), Some(0), Some(4)] && code == Code(MisplacedPlan(), pos)
    ensures |code| == 18 && code[0] == Act(0, 0) && code[1] == Grow(8) && code[2] == Jump(AtValue(2), 0)
    ensures code[7] == Mark(AtValue(2)) && code[8] == Grow(8) && code[9] == code[10] == Shrink(8)
    ensures code[11] == JumpIfZero(At(3), -4, Equals) && code[12] == Grow(8) && code[13] == Shrink(8) && code[14] == Mark(At(1))
  {
  }

  lemma MisplacedOrders()
    ensures PlanFunction(Misplaced(), 0).Some? && PlanFunction(Misplaced(), 0).value.st.next == 4
    ensures PlanFunction(Misplaced(), 0).value.orders == MisplacedPlan()
  {
    hide PlanItems, PlanStmt, MisplacedBody, Misplaced;
    var st := Fresh(0);
    SwitchPlanned(st);
    SwitchItems(st);
    BlockPlanned(Misplaced(), st);
    var p := PlanStmt(Switch(0, MisplacedBody()), st).value;
    assert p.orders + [Pop(0)] + [Fix(At(0), 0), Finish] == MisplacedPlan();
  }

  lemma SwitchPlanned(st: Locals)
    requires st == Fresh(0)
    ensures var p := PlanStmt(Switch(0, MisplacedBody()), st);
            p.Some? && p.value.st.next == 4 && p.value.st.depth == 0 && p.value.orders == MisplacedPlan()[..15]
  {
    hide MisplacedBody, Dispatch, SwitchOrders;
    BodyPlanned(InSwitch(st));
    TailDispatched();
    SwitchListed();
  }

  lemma SwitchListed()
    ensures SwitchOrders(0, 1, 0, [Push(4), Fix(At(3), 4), Pop(4)],
                         [Push(8), Pop(8), Pop(8), GoIfZero(At(3), 0, true, Equals), Push(8), Pop(8)])
         == MisplacedPlan()[..15]
  {
  }

  lemma SwitchItems(st: Locals)
    ensures PlanItems(Misplaced(), st)
         == match PlanStmt(Switch(0, MisplacedBody()), st)
            case None => None
            case Some(p) => Some(p)
  {
    hide PlanStmt, MisplacedBody;
    match PlanStmt(Switch(0, MisplacedBody()), st)
    case None =>
    case Some(p) =>
      assert PlanItems(End, p.st) == Some(Planned(p.st, []));
      assert p.orders + [] == p.orders;
  }

  lemma TailDispatched()
    ensures Dispatch([3], None, 0) == [Push(8), Pop(8), Pop(8), GoIfZero(At(3), 0, true, Equals), Push(8), Pop(8)]
  {
    assert [3][1..] == [];
  }

  lemma BodyPlanned(st: Locals)
    requires st.next == 3 && st.depth == 0 && st.cases == Some([])
    ensures PlanStmt(MisplacedBody(), st) == Some(Planned(st.(next := 4, cases := Some([3])), [Push(4), Fix(At(3), 4), Pop(4)]))
  {
    hide MisplacedTail, PlanItems, PlanStmt;
    TailPlanned(st.(depth := 4));
    DeclarationPlanned(4, MisplacedTail(), st);
    assert [Push(4)] + [Fix(At(3), 4)] + [Pop(4)] == [Push(4), Fix(At(3), 4), Pop(4)];
  }

  lemma DeclarationPlanned(n: nat, t: Items, st: Locals)
    requires PlanItems(t, st.(depth := st.depth + n)).Some? && PlanItems(t, st.(depth := st.depth + n)).value.st.depth == st.depth + n
    ensures var q := PlanItems(t, st.(depth := st.depth + n)).value;
            PlanStmt(Compound(Declare(n, None, t)), st) == Some(Planned(q.st.(depth := st.depth), [Push(n)] + q.orders + [Pop(n)]))
  {
    hide PlanStmt;
    var st' := st.(depth := st.depth + n);
    var q := PlanItems(t, st').value;
    assert PlanItems(Declare(n, None, t), st) == Some(Planned(q.st, [Push(n)] + q.orders)) by {
      assert Eval(None, st'.depth) + q.orders == q.orders;
    }
    BlockPlanned(Declare(n, None, t), st);
  }

  lemma BlockPlanned(items: Items, st: Locals)
    ensures PlanStmt(Compound(items), st)
         == match PlanItems(items, st)
            case None => None
            case Some(p) => Some(Planned(p.st.(depth := st.depth), p.orders + [Pop(p.st.depth - st.depth)]))
  {
  }

  lemma TailPlanned(st: Locals)
    requires st.next == 3 && st.depth == 4 && st.cases == Some([])
    ensures PlanItems(MisplacedTail(), st) == Some(Planned(st.(next := 4, cases := Some([3])), [Fix(At(3), 4)]))
  {
    var st' := st.(next := 4, cases := Some([] + [3]));
    assert [] + [3] == [3];
    assert PlanStmt(Empty, st') == Some(Planned(st', []));
    assert [Fix(At(3), 4)] + [] == [Fix(At(3), 4)];
    assert PlanStmt(Case(Empty), st) == Some(Planned(st', [Fix(At(3), 4)]));
    assert PlanItems(End, st') == Some(Planned(st', []));
  }
}
