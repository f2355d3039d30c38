/** How often the plan of a statement fixes each label: the labels that the compiler makes for itself once,
    those with a name as often as the name labels a statement (asmg/c_compile.g). */
module CLabels {
  import opened Options
  import opened CPaths
  import opened CStatements
  import opened CPlan

  function Fixed(orders: seq<Order>, l: nat): nat
    decreases |orders|
  {
    if orders == [] then 0
    else (if orders[0].Fix? && orders[0].lab.id == l then 1 else 0) + Fixed(orders[1..], l)
  }

  lemma {:induction false} FixedParts(a: seq<Order>, b: seq<Order>, l: nat)
    ensures Fixed(a + b, l) == Fixed(a, l) + Fixed(b, l)
    decreases |a|
  {
    if a == [] {
      assert a + b == b;
    } else {
      assert (a + b)[1..] == a[1..] + b;
      FixedParts(a[1..], b, l);
    }
  }

  lemma FixedOne(o: Order, l: nat)
    ensures Fixed([o], l) == if o.Fix? && o.lab.id == l then 1 else 0
  {
  }

  lemma FixedTwo(o: Order, q: Order, l: nat)
    ensures Fixed([o, q], l) == Fixed([o], l) + Fixed([q], l)
  {
    assert [o, q] == [o] + [q];
    FixedParts([o], [q], l);
  }

  lemma {:induction false} NotFixed(orders: seq<Order>, l: nat)
    requires forall o :: o in orders ==> !o.Fix?
    ensures Fixed(orders, l) == 0
    decreases |orders|
  {
    if orders != [] {
      assert orders[0] in orders;
      NotFixed(orders[1..], l);
    }
  }

  // ----- names -----

  /** Every name has a label of its own. */
  predicate NamesOk(st: Locals) {
    && (forall x :: x in st.gotos ==> st.gotos[x] < st.next)
    && (forall x, y :: x in st.gotos && y in st.gotos && st.gotos[x] == st.gotos[y] ==> x == y)
  }

  /** Names keep their labels, and new names get new labels. */
  predicate Extends(a: Locals, b: Locals) {
    && a.next <= b.next
    && (forall x :: x in a.gotos ==> x in b.gotos && b.gotos[x] == a.gotos[x])
    && (forall x :: x in b.gotos && x !in a.gotos ==> b.gotos[x] >= a.next)
  }

  lemma ExtendsOn(a: Locals, b: Locals, c: Locals)
    requires Extends(a, b) && Extends(b, c)
    ensures Extends(a, c)
  {
  }

  lemma ExtendsSame(a: Locals, b: Locals)
    requires b.gotos == a.gotos && b.next >= a.next
    ensures Extends(a, b) && (NamesOk(a) ==> NamesOk(b))
  {
  }

  lemma NameGrows(st: Locals, x: string)
    requires NamesOk(st)
    ensures NamesOk(Name(st, x).1) && Extends(st, Name(st, x).1)
    ensures x in Name(st, x).1.gotos && Name(st, x).1.gotos[x] == Name(st, x).0
  {
  }

  lemma {:induction false} Grows(s: Stmt, st: Locals)
    requires PlanStmt(s, st).Some? && NamesOk(st)
    ensures NamesOk(PlanStmt(s, st).value.st) && Extends(st, PlanStmt(s, st).value.st)
    decreases s
  {
    hide Head, Tail, Dispatch, NamesOk, Extends, Name;
    var n := st.next;
    match s {
      case Compound(items) =>
        var r := PlanItems(items, st).value.st;
        ItemsGrow(items, st);
        GrowsFrom(st, st, r, r.(depth := st.depth));
      case If(_, thn, els) =>
        var st' := InIf(st);
        var p := PlanStmt(thn, st').value.st;
        var q := PlanStmt(els, p).value.st;
        ExtendsSame(st, st');
        Grows(thn, st');
        Grows(els, p);
        ExtendsOn(st', p, q);
        ExtendsOn(st, st', q);
      case Loop(kind, body) =>
        var st' := InLoop(kind, st);
        var p := PlanStmt(body, st').value.st;
        ExtendsSame(st, st');
        Grows(body, st');
        GrowsFrom(st, st', p, p.(cont := st.cont, brk := st.brk));
      case Switch(_, body) =>
        var st' := InSwitch(st);
        var p := PlanStmt(body, st').value.st;
        ExtendsSame(st, st');
        Grows(body, st');
        GrowsFrom(st, st', p, p.(brk := st.brk, dflt := st.dflt, cases := st.cases));
      case Case(stmt) =>
        var st' := InCase(st);
        ExtendsSame(st, st');
        Grows(stmt, st');
        ExtendsOn(st, st', PlanStmt(stmt, st').value.st);
      case Default(stmt) =>
        var st' := InDefault(st);
        ExtendsSame(st, st');
        Grows(stmt, st');
        ExtendsOn(st, st', PlanStmt(stmt, st').value.st);
      case Goto(x) => NameGrows(st, x);
      case Labeled(x, stmt) =>
        var st' := Name(st, x).1;
        NameGrows(st, x);
        Grows(stmt, st');
        ExtendsOn(st, st', PlanStmt(stmt, st').value.st);
      case _ => ExtendsSame(st, st);
    }
  }

  lemma GrowsFrom(a: Locals, b: Locals, c: Locals, d: Locals)
    requires Extends(a, b) && Extends(b, c) && NamesOk(c) && d.gotos == c.gotos && d.next == c.next
    ensures Extends(a, d) && NamesOk(d)
  {
  }

  lemma {:induction false} ItemsGrow(items: Items, st: Locals)
    requires PlanItems(items, st).Some? && NamesOk(st)
    ensures NamesOk(PlanItems(items, st).value.st) && Extends(st, PlanItems(items, st).value.st)
    decreases items
  {
    hide NamesOk, Extends, PlanStmt;
    match items {
      case End => ExtendsSame(st, st);
      case Declare(footprint, _, rest) =>
        var st' := st.(depth := st.depth + footprint);
        ExtendsSame(st, st');
        ItemsGrow(rest, st');
        ExtendsOn(st, st', PlanItems(rest, st').value.st);
      case Then(head, rest) =>
        var p := PlanStmt(head, st).value.st;
        Grows(head, st);
        ItemsGrow(rest, p);
        ExtendsOn(st, p, PlanItems(rest, p).value.st);
    }
  }

  /** The names that have a label are those that were mentioned. */
  lemma {:induction false} NamesMentioned(s: Stmt, st: Locals, x: string)
    requires PlanStmt(s, st).Some?
    ensures x in PlanStmt(s, st).value.st.gotos <==> x in st.gotos || Mentions(s, x)
    decreases s
  {
    hide Head, Tail, Dispatch;
    var n := st.next;
    match s {
      case Compound(items) => ItemsNamesMentioned(items, st, x);
      case If(_, thn, els) =>
        NamesMentioned(thn, InIf(st), x);
        NamesMentioned(els, PlanStmt(thn, InIf(st)).value.st, x);
      case Loop(kind, body) =>
        NamesMentioned(body, InLoop(kind, st), x);
      case Switch(_, body) => NamesMentioned(body, InSwitch(st), x);
      case Case(stmt) => NamesMentioned(stmt, InCase(st), x);
      case Default(stmt) => NamesMentioned(stmt, InDefault(st), x);
      case Labeled(y, stmt) => NamesMentioned(stmt, Name(st, y).1, x);
      case _ =>
    }
  }

  lemma {:induction false} ItemsNamesMentioned(items: Items, st: Locals, x: string)
    requires PlanItems(items, st).Some?
    ensures x in PlanItems(items, st).value.st.gotos <==> x in st.gotos || MentionsIn(items, x)
    decreases items
  {
    hide PlanStmt;
    match items {
      case End =>
      case Declare(footprint, _, rest) => ItemsNamesMentioned(rest, st.(depth := st.depth + footprint), x);
      case Then(head, rest) =>
        NamesMentioned(head, st, x);
        ItemsNamesMentioned(rest, PlanStmt(head, st).value.st, x);
    }
  }

  // ----- counting -----

  /** The label belongs to the name, or to no name. */
  predicate Owned(later: Locals, l: nat, name: Option<string>) {
    match name
    case Some(x) => x in later.gotos && later.gotos[x] == l
    case None => forall x :: x in later.gotos ==> later.gotos[x] != l
  }

  function Within(l: nat, lo: nat, hi: nat): nat {
    if lo <= l < hi then 1 else 0
  }

  /** A label with a name is not among those that were made for something else. */
  lemma NotMine(st: Locals, k: nat, later: Locals, l: nat, x: string)
    requires NamesOk(st) && Extends(st.(next := st.next + k), later) && Owned(later, l, Some(x))
    ensures Within(l, st.next, st.next + k) == 0
  {
  }

  lemma LoopFixes(kind: Kind, n: nat, d: nat, l: nat)
    ensures Fixed(Head(kind, n, d), l) + Fixed(Tail(kind, n, d), l) == Within(l, n, n + LoopLabels(kind))
  {
    hide Fixed;
    var h, t := Head(kind, n, d), Tail(kind, n, d);
    match kind {
      case For(_, _, step) =>
        var a, b := h[..4], [Go(At(n + 2), d, false), Fix(At(n + 3), d)];
        assert h == a + Eval(step, d) + b && a == [h[0], h[1]] + [h[2], h[3]];
        FixedParts(a + Eval(step, d), b, l);
        FixedParts(a, Eval(step, d), l);
        FixedParts([h[0], h[1]], [h[2], h[3]], l);
        EvalFixesNothing(step, d, l);
        TwoFixes(h[0], h[1], l);
        TwoFixes(h[2], h[3], l);
        TwoFixes(b[0], b[1], l);
        TwoFixes(t[0], t[1], l);
      case While(_) =>
        TwoFixes(h[0], h[1], l);
        TwoFixes(t[0], t[1], l);
      case DoWhile(_) =>
        FixedOne(h[0], l);
        assert t == [t[0], t[1]] + [t[2], t[3]];
        FixedParts([t[0], t[1]], [t[2], t[3]], l);
        TwoFixes(t[0], t[1], l);
        TwoFixes(t[2], t[3], l);
    }
  }

  lemma EvalFixesNothing(e: Option<nat>, d: nat, l: nat)
    ensures Fixed(Eval(e, d), l) == 0
  {
  }

  lemma TwoFixes(o: Order, q: Order, l: nat)
    ensures Fixed([o, q], l) == (if o.Fix? && o.lab.id == l then 1 else 0) + (if q.Fix? && q.lab.id == l then 1 else 0)
  {
    hide Fixed;
    FixedTwo(o, q, l);
    FixedOne(o, l);
    FixedOne(q, l);
  }

  lemma {:induction false} DispatchFixesNone(labs: seq<nat>, dflt: Option<nat>, d: nat, l: nat)
    ensures Fixed(Dispatch(labs, dflt, d), l) == 0
  {
    ComparisonsFixNone(labs, d);
    NotFixed(Dispatch(labs, dflt, d), l);
  }

  /** What a statement contributes to the count of a label. */
  function Share(s: Stmt, lo: nat, hi: nat, l: nat, name: Option<string>): nat {
    match name
    case Some(x) => Definitions(s, x)
    case None => Within(l, lo, hi)
  }

  lemma {:induction false} Counted(s: Stmt, st: Locals, later: Locals, l: nat, name: Option<string>)
    requires PlanStmt(s, st).Some? && NamesOk(st) && NamesOk(later) && Extends(PlanStmt(s, st).value.st, later) && Owned(later, l, name)
    ensures Fixed(PlanStmt(s, st).value.orders, l) == Share(s, st.next, PlanStmt(s, st).value.st.next, l, name)
    decreases s, 1
  {
    hide Head, Tail, Dispatch, NamesOk, Extends, Owned, Fixed, Name;
    var n, d := st.next, st.depth;
    match s {
      case Compound(items) =>
        var p := PlanItems(items, st).value;
        ExtendsDepth(p.st, st.depth, later);
        ItemsCounted(items, st, later, l, name);
        FixedParts(p.orders, [Pop(p.st.depth - d)], l);
        FixedOne(Pop(p.st.depth - d), l);
      case If(_, _, _) => IfCounted(s, st, later, l, name);
      case Loop(_, _) => LoopCounted(s, st, later, l, name);
      case Switch(_, _) => SwitchCounted(s, st, later, l, name);
      case Case(stmt) => CaseCounted(n, stmt, st, InCase(st), later, l, name);
      case Default(stmt) => CaseCounted(n, stmt, st, InDefault(st), later, l, name);
      case Labeled(_, _) => LabeledCounted(s, st, later, l, name);
      case Empty => FixesNothing(l);
      case Expr(id) => FixedOne(Do(id, d), l);
      case Goto(x) => GotoCounted(st, x, later, l, name);
      case Return(value) =>
        FixedParts(Eval(value, d), [Go(At(st.ret), d, true)], l);
        EvalFixesNothing(value, d, l);
        FixedOne(Go(At(st.ret), d, true), l);
      case Break => FixedOne(Go(At(st.brk.value), d, true), l);
      case Continue => FixedOne(Go(At(st.cont.value), d, true), l);
    }
  }

  lemma FixesNothing(l: nat)
    ensures Fixed([], l) == 0
  {
  }

  lemma ExtendsDepth(a: Locals, d: nat, b: Locals)
    requires Extends(a.(depth := d), b)
    ensures Extends(a, b)
  {
  }

  lemma GotoCounted(st: Locals, x: string, later: Locals, l: nat, name: Option<string>)
    requires NamesOk(st) && Extends(Name(st, x).1, later) && Owned(later, l, name)
    ensures Fixed([Go(At(Name(st, x).0), st.depth, true)], l) == 0
    ensures name.None? ==> Within(l, st.next, Name(st, x).1.next) == 0
  {
    FixedOne(Go(At(Name(st, x).0), st.depth, true), l);
    NameGrows(st, x);
  }

  lemma {:induction false} IfCounted(s: Stmt, st: Locals, later: Locals, l: nat, name: Option<string>)
    requires s.If? && PlanStmt(s, st).Some? && NamesOk(st) && NamesOk(later)
    requires Extends(PlanStmt(s, st).value.st, later) && Owned(later, l, name)
    ensures Fixed(PlanStmt(s, st).value.orders, l) == Share(s, st.next, PlanStmt(s, st).value.st.next, l, name)
    decreases s, 0
  {
    hide NamesOk, Extends, Owned, Fixed;
    var n, d, st' := st.next, st.depth, InIf(st);
    var p := PlanStmt(s.thn, st').value;
    var q := PlanStmt(s.els, p.st).value;
    ExtendsSame(st, st');
    Grows(s.thn, st');
    Grows(s.els, p.st);
    ExtendsOn(p.st, q.st, later);
    ExtendsOn(st', p.st, later);
    if name.Some? {
      NotMine(st, 2, later, l, name.value);
    }
    Counted(s.thn, st', later, l, name);
    Counted(s.els, p.st, later, l, name);
    var a, m, b := [GoIfZero(At(n), d, false, Guard(s.guard, d))], [Go(At(n + 1), d, false), Fix(At(n), d)], [Fix(At(n + 1), d)];
    FixedParts(a + p.orders + m + q.orders, b, l);
    FixedParts(a + p.orders + m, q.orders, l);
    FixedParts(a + p.orders, m, l);
    FixedParts(a, p.orders, l);
    FixedOne(a[0], l);
    TwoFixes(m[0], m[1], l);
    FixedOne(b[0], l);
  }

  lemma {:induction false} LoopCounted(s: Stmt, st: Locals, later: Locals, l: nat, name: Option<string>)
    requires s.Loop? && PlanStmt(s, st).Some? && NamesOk(st) && NamesOk(later)
    requires Extends(PlanStmt(s, st).value.st, later) && Owned(later, l, name)
    ensures Fixed(PlanStmt(s, st).value.orders, l) == Share(s, st.next, PlanStmt(s, st).value.st.next, l, name)
    decreases s, 0
  {
    hide NamesOk, Extends, Owned, Fixed, Head, Tail;
    var n, d, k := st.next, st.depth, LoopLabels(s.kind);
    var st' := InLoop(s.kind, st);
    var p := PlanStmt(s.body, st').value;
    ExtendsSame(st, st');
    Grows(s.body, st');
    ExtendsSame(p.st, PlanStmt(s, st).value.st);
    ExtendsOn(p.st, PlanStmt(s, st).value.st, later);
    ExtendsOn(st', p.st, later);
    ExtendsSame(st.(next := n + k), st');
    ExtendsOn(st.(next := n + k), st', later);
    if name.Some? {
      NotMine(st, k, later, l, name.value);
    }
    Counted(s.body, st', later, l, name);
    FixedParts(Eval(Before(s.kind), d), Head(s.kind, n, d) + p.orders + Tail(s.kind, n, d), l);
    EvalFixesNothing(Before(s.kind), d, l);
    FixedParts(Head(s.kind, n, d) + p.orders, Tail(s.kind, n, d), l);
    FixedParts(Head(s.kind, n, d), p.orders, l);
    LoopFixes(s.kind, n, d, l);
  }

  lemma {:induction false} SwitchCounted(s: Stmt, st: Locals, later: Locals, l: nat, name: Option<string>)
    requires s.Switch? && PlanStmt(s, st).Some? && NamesOk(st) && NamesOk(later)
    requires Extends(PlanStmt(s, st).value.st, later) && Owned(later, l, name)
    ensures Fixed(PlanStmt(s, st).value.orders, l) == Share(s, st.next, PlanStmt(s, st).value.st.next, l, name)
    decreases s, 0
  {
    hide NamesOk, Extends, Owned, Fixed, Dispatch;
    var n, d := st.next, st.depth;
    var st' := InSwitch(st);
    var p := PlanStmt(s.body, st').value;
    ExtendsSame(st, st');
    Grows(s.body, st');
    ExtendsSame(p.st, PlanStmt(s, st).value.st);
    ExtendsOn(p.st, PlanStmt(s, st).value.st, later);
    ExtendsOn(st', p.st, later);
    ExtendsSame(st.(next := n + 2), st');
    ExtendsOn(st.(next := n + 2), st', later);
    if name.Some? {
      NotMine(st, 2, later, l, name.value);
    }
    Counted(s.body, st', later, l, name);
    SwitchFixes(s.on, n, d, p.orders, Dispatch(p.st.cases.value, p.st.dflt, d), l);
    DispatchFixesNone(p.st.cases.value, p.st.dflt, d, l);
  }

  lemma SwitchFixes(on: nat, n: nat, d: nat, body: seq<Order>, dispatch: seq<Order>, l: nat)
    ensures Fixed(SwitchOrders(on, n, d, body, dispatch), l)
         == Fixed(body, l) + Fixed(dispatch, l) + Within(l, n, n + 2)
  {
    hide Fixed;
    var a, m, b := [Do(on, d), Push(8), Go(AtValue(n + 1), d, false)], [Go(At(n), d, false), Fix(AtValue(n + 1), d)], [Fix(At(n), d)];
    FixedParts(a + body + m + dispatch, b, l);
    FixedParts(a + body + m, dispatch, l);
    FixedParts(a + body, m, l);
    FixedParts(a, body, l);
    NotFixed(a, l);
    TwoFixes(m[0], m[1], l);
    FixedOne(b[0], l);
  }

  /** A statement behind the label n that is made just before it. */
  lemma {:induction false} CaseCounted(n: nat, s: Stmt, st: Locals, st': Locals, later: Locals, l: nat, name: Option<string>)
    requires n == st.next && st'.next == n + 1 && st'.gotos == st.gotos
    requires PlanStmt(s, st').Some? && NamesOk(st) && NamesOk(later)
    requires Extends(PlanStmt(s, st').value.st, later) && Owned(later, l, name)
    ensures Fixed([Fix(At(n), st.depth)] + PlanStmt(s, st').value.orders, l)
         == Share(s, n, PlanStmt(s, st').value.st.next, l, name)
    decreases s, 2
  {
    hide NamesOk, Extends, Owned, Fixed, PlanStmt;
    var p := PlanStmt(s, st').value;
    ExtendsSame(st, st');
    Grows(s, st');
    ExtendsOn(st', p.st, later);
    ExtendsSame(st.(next := n + 1), st');
    ExtendsOn(st.(next := n + 1), st', later);
    if name.Some? {
      NotMine(st, 1, later, l, name.value);
    }
    Counted(s, st', later, l, name);
    FixedParts([Fix(At(n), st.depth)], p.orders, l);
    FixedOne(Fix(At(n), st.depth), l);
  }

  lemma {:induction false} LabeledCounted(s: Stmt, st: Locals, later: Locals, l: nat, name: Option<string>)
    requires s.Labeled? && PlanStmt(s, st).Some? && NamesOk(st) && NamesOk(later)
    requires Extends(PlanStmt(s, st).value.st, later) && Owned(later, l, name)
    ensures Fixed(PlanStmt(s, st).value.orders, l) == Share(s, st.next, PlanStmt(s, st).value.st.next, l, name)
    decreases s, 0
  {
    hide NamesOk, Extends, Owned, Fixed;
    var (k, st') := Name(st, s.name);
    var p := PlanStmt(s.stmt, st').value;
    NameGrows(st, s.name);
    Grows(s.stmt, st');
    ExtendsOn(st', p.st, later);
    Counted(s.stmt, st', later, l, name);
    FixedParts([Fix(At(k), st.depth)], p.orders, l);
    FixedOne(Fix(At(k), st.depth), l);
    NameOwns(st, s.name, later, l, name);
  }

  lemma NameOwns(st: Locals, x: string, later: Locals, l: nat, name: Option<string>)
    requires NamesOk(st) && NamesOk(later) && Extends(Name(st, x).1, later) && Owned(later, l, name)
    ensures Name(st, x).0 == l <==> name == Some(x)
    ensures name.None? ==> Within(l, st.next, Name(st, x).1.next) == 0
  {
    NameGrows(st, x);
  }

  lemma {:induction false} ItemsCounted(items: Items, st: Locals, later: Locals, l: nat, name: Option<string>)
    requires PlanItems(items, st).Some? && NamesOk(st) && NamesOk(later)
    requires Extends(PlanItems(items, st).value.st, later) && Owned(later, l, name)
    ensures Fixed(PlanItems(items, st).value.orders, l)
         == match name
            case Some(x) => DefinitionsIn(items, x)
            case None => Within(l, st.next, PlanItems(items, st).value.st.next)
    decreases items, 0
  {
    hide NamesOk, Extends, Owned, Fixed, PlanStmt;
    match items {
      case End => FixesNothing(l);
      case Declare(footprint, init, rest) =>
        var st' := st.(depth := st.depth + footprint);
        var p := PlanItems(rest, st').value;
        ExtendsSame(st, st');
        ItemsCounted(rest, st', later, l, name);
        FixedParts([Push(footprint)], Eval(init, st'.depth) + p.orders, l);
        FixedParts(Eval(init, st'.depth), p.orders, l);
        EvalFixesNothing(init, st'.depth, l);
        FixedOne(Push(footprint), l);
      case Then(head, rest) =>
        var p := PlanStmt(head, st).value;
        var q := PlanItems(rest, p.st).value;
        Grows(head, st);
        ItemsGrow(rest, p.st);
        ExtendsOn(p.st, q.st, later);
        Counted(head, st, later, l, name);
        ItemsCounted(rest, p.st, later, l, name);
        FixedParts(p.orders, q.orders, l);
    }
  }

  // ----- functions -----

  /** Each label from lo up to hi is fixed once. */
  ghost predicate OnceEach(orders: seq<Order>, lo: nat, hi: nat) {
    forall l: nat :: lo <= l < hi ==> Fixed(orders, l) == 1
  }

  /** The labels of a function are those from n on; each of them is fixed once if and only if every name
      that is used labels exactly one statement. */
  lemma FunctionLabels(body: Items, n: nat)
    requires PlanFunction(body, n).Some?
    ensures var p := PlanFunction(body, n).value;
            && n < p.st.next
            && (OnceEach(p.orders, n, p.st.next) <==> NamesDefined(body))
            && (forall l: nat :: l < n || l >= p.st.next ==> Fixed(p.orders, l) == 0)
  {
    hide Fixed, PlanStmt;
    var p := PlanFunction(body, n).value;
    var later := PlanStmt(Compound(body), Fresh(n)).value.st;
    Grows(Compound(body), Fresh(n));
    forall l: nat | l < n || l >= p.st.next ensures Fixed(p.orders, l) == 0 {
      FunctionCounted(body, n, l, None);
    }
    if OnceEach(p.orders, n, p.st.next) {
      forall x | MentionsIn(body, x) ensures DefinitionsIn(body, x) == 1 {
        NamesMentioned(Compound(body), Fresh(n), x);
        FunctionCounted(body, n, later.gotos[x], Some(x));
      }
    }
    if NamesDefined(body) {
      forall l: nat | n <= l < p.st.next ensures Fixed(p.orders, l) == 1 {
        if x :| x in later.gotos && later.gotos[x] == l {
          NamesMentioned(Compound(body), Fresh(n), x);
          FunctionCounted(body, n, l, Some(x));
        } else {
          FunctionCounted(body, n, l, None);
        }
      }
    }
  }

  lemma FunctionCounted(body: Items, n: nat, l: nat, name: Option<string>)
    requires PlanFunction(body, n).Some?
    requires var later := PlanFunction(body, n).value.st;
             NamesOk(later) && Extends(Fresh(n), later) && Owned(later, l, name)
    ensures var p := PlanFunction(body, n).value;
            (match name
             case Some(x) => Fixed(p.orders, l) == DefinitionsIn(body, x)
             case None => Fixed(p.orders, l) == Within(l, n, p.st.next))
  {
    hide Fixed, PlanStmt;
    var p := PlanStmt(Compound(body), Fresh(n)).value;
    ExtendsSame(p.st, p.st);
    Counted(Compound(body), Fresh(n), p.st, l, name);
    FixedParts(p.orders, [Fix(At(n), 0), Finish], l);
    TwoFixes(Fix(At(n), 0), Finish, l);
  }
}
