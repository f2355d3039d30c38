/** Whole programs and the stages of their compilation (asmg/c_compile.g): what the later stages check of
    the positions that the first has recorded. */
module CProgram {
  import opened Options
  import opened CPaths
  import opened CStatements
  import opened CPlan
  import opened CLabels
  import opened CDiscipline
  import opened CSwitches

  /** The orders for each function, and the number of labels made. */
  datatype Program = Program(next: nat, functions: seq<seq<Order>>)

  function PlanProgram(fs: seq<Items>, n: nat): Option<Program> {
    if fs == [] then Some(Program(n, []))
    else
      match PlanFunction(fs[0], n)
      case None => None
      case Some(p) =>
        match PlanProgram(fs[1..], p.st.next)
        case None => None
        case Some(q) => Some(Program(q.next, [p.orders] + q.functions))
  }

  function All(functions: seq<seq<Order>>): seq<Order> {
    if functions == [] then [] else functions[0] + All(functions[1..])
  }

  lemma {:induction false} ProgramPlanned(fs: seq<Items>, n: nat)
    ensures PlanProgram(fs, n).Some? <==> forall f :: f in fs ==> ScopedIn(f, false, false, false)
    decreases |fs|
  {
    hide PlanFunction;
    if fs != [] {
      FunctionPlanned(fs[0], n);
      assert fs[0] in fs && forall f :: f in fs <==> f == fs[0] || f in fs[1..];
      if PlanFunction(fs[0], n).Some? {
        ProgramPlanned(fs[1..], PlanFunction(fs[0], n).value.st.next);
      }
    }
  }

  lemma {:induction false} ProgramLabels(fs: seq<Items>, n: nat)
    requires PlanProgram(fs, n).Some?
    ensures var q := PlanProgram(fs, n).value;
            && n <= q.next
            && (OnceEach(All(q.functions), n, q.next) <==> forall f :: f in fs ==> NamesDefined(f))
            && (forall l: nat :: l < n || l >= q.next ==> Fixed(All(q.functions), l) == 0)
    decreases |fs|
  {
    hide PlanFunction, Fixed, NamesDefined;
    if fs == [] {
      NothingFixed();
    } else {
      var p := PlanFunction(fs[0], n).value;
      var q := PlanProgram(fs[1..], p.st.next).value;
      assert PlanProgram(fs, n).value.functions[1..] == q.functions;
      assert All(PlanProgram(fs, n).value.functions) == p.orders + All(q.functions);
      FunctionLabels(fs[0], n);
      ProgramLabels(fs[1..], p.st.next);
      OnceInParts(p.orders, All(q.functions), n, p.st.next, q.next);
      assert fs[0] in fs && forall f :: f in fs <==> f == fs[0] || f in fs[1..];
    }
  }

  lemma NothingFixed()
    ensures forall l: nat :: Fixed([], l) == 0
  {
  }

  lemma OnceInParts(a: seq<Order>, b: seq<Order>, lo: nat, mid: nat, hi: nat)
    requires lo <= mid <= hi
    requires forall l: nat :: l < lo || l >= mid ==> Fixed(a, l) == 0
    requires forall l: nat :: l < mid || l >= hi ==> Fixed(b, l) == 0
    ensures OnceEach(a + b, lo, hi) <==> OnceEach(a, lo, mid) && OnceEach(b, mid, hi)
    ensures forall l: nat :: l < lo || l >= hi ==> Fixed(a + b, l) == 0
  {
    hide Fixed;
    forall l: nat ensures Fixed(a + b, l) == Fixed(a, l) + Fixed(b, l) {
      FixedParts(a, b, l);
    }
    if OnceEach(a + b, lo, hi) {
      forall l: nat | lo <= l < mid ensures Fixed(a, l) == 1 {
        assert Fixed(a + b, l) == 1;
      }
      forall l: nat | mid <= l < hi ensures Fixed(b, l) == 1 {
        assert Fixed(a + b, l) == 1;
      }
    }
  }

  // ----- what the stages record and check -----

  /** The position that the first stage leaves for a label: the last that it was fixed at. */
  function LastFix(orders: seq<Order>, l: nat): Option<nat>
    decreases |orders|
  {
    if orders == [] then None
    else
      var o := orders[|orders| - 1];
      if o.Fix? && o.lab.id == l then Some(o.depth) else LastFix(orders[..|orders| - 1], l)
  }

  /** Stages 1 and 2 find each label where the first stage left it; stage 1 finds none fixed twice, and
      stage 2 none that never was. */
  ghost predicate Fine(stage: nat, pos: Positions, orders: seq<Order>, next: nat) {
    stage > 0 ==>
      && next <= |pos| && Agrees(orders, pos)
      && (stage == 1 ==> forall l: nat :: Fixed(orders, l) <= 1)
      && (stage == 2 ==> AllKnown(pos, next))
  }

  /** The positions are those that a first stage with these orders has recorded. */
  ghost predicate Recorded(pos: Positions, orders: seq<Order>, next: nat) {
    |pos| == next && forall l: nat :: l < next ==> pos[l] == LastFix(orders, l)
  }

  lemma FineBefore(stage: nat, pos: Positions, a: seq<Order>, n: nat, b: seq<Order>, m: nat)
    requires Fine(stage, pos, b, m) && a <= b && n <= m
    ensures Fine(stage, pos, a, n)
  {
    hide Agrees, Fixed;
    if stage > 0 {
      var rest := b[|a|..];
      assert b == a + rest;
      AgreesParts(a, rest, pos);
      forall l: nat | stage == 1 ensures Fixed(a, l) <= 1 {
        FixedParts(a, rest, l);
      }
    }
  }

  lemma {:induction false} FixedLast(orders: seq<Order>, o: Order, l: nat)
    ensures Fixed(orders + [o], l) == Fixed(orders, l) + if o.Fix? && o.lab.id == l then 1 else 0
  {
    FixedParts(orders, [o], l);
    FixedOne(o, l);
  }

  lemma {:induction false} FixedSome(orders: seq<Order>, l: nat)
    ensures LastFix(orders, l).Some? <==> Fixed(orders, l) > 0
    decreases |orders|
  {
    if orders != [] {
      var o := orders[|orders| - 1];
      FixedSome(orders[..|orders| - 1], l);
      FixedLast(orders[..|orders| - 1], o, l);
      assert orders == orders[..|orders| - 1] + [o];
    }
  }

  lemma {:induction false} FixedWhere(orders: seq<Order>, i: nat)
    requires i < |orders| && orders[i].Fix?
    ensures Fixed(orders, orders[i].lab.id) >= 1
    ensures Fixed(orders, orders[i].lab.id) == 1 ==> LastFix(orders, orders[i].lab.id) == Some(orders[i].depth)
    decreases |orders|
  {
    var o, rest := orders[|orders| - 1], orders[..|orders| - 1];
    assert orders == rest + [o];
    FixedLast(rest, o, orders[i].lab.id);
    if i < |orders| - 1 {
      FixedWhere(rest, i);
    }
  }

  /** What the first stage recorded passes the second if no label was fixed twice, and the third if besides
      each was fixed: the three stages agree exactly when each label is fixed once. */
  lemma StagesAgree(orders: seq<Order>, n: nat, pos: Positions)
    requires Recorded(pos, orders, n) && forall l: nat :: l >= n ==> Fixed(orders, l) == 0
    ensures Fine(1, pos, orders, n) && Fine(2, pos, orders, n) <==> OnceEach(orders, 0, n)
  {
    hide Fixed, LastFix;
    if OnceEach(orders, 0, n) {
      forall i | 0 <= i < |orders| && orders[i].Fix?
        ensures orders[i].lab.id < |pos| && pos[orders[i].lab.id] == Some(orders[i].depth)
      {
        FixedWhere(orders, i);
      }
      forall l: nat | l < n ensures pos[l].Some? {
        FixedSome(orders, l);
      }
      forall l: nat ensures Fixed(orders, l) <= 1 {
      }
    }
    if Fine(1, pos, orders, n) && Fine(2, pos, orders, n) {
      forall l: nat | 0 <= l < n ensures Fixed(orders, l) == 1 {
        FixedSome(orders, l);
      }
    }
  }

  /** A program has a plan whose stages agree if and only if the language admits its functions. */
  lemma AcceptedIffAdmitted(fs: seq<Items>)
    ensures (PlanProgram(fs, 0).Some? && OnceEach(All(PlanProgram(fs, 0).value.functions), 0, PlanProgram(fs, 0).value.next))
       <==> forall f :: f in fs ==> Admitted(f)
  {
    hide OnceEach, All, PlanProgram, NamesDefined;
    ProgramPlanned(fs, 0);
    if PlanProgram(fs, 0).Some? {
      ProgramLabels(fs, 0);
    }
  }

  // ----- the code of each function -----

  lemma {:induction false} PartsFine(fs: seq<Items>, n: nat, i: nat, pos: Positions, hi: nat)
    requires PlanProgram(fs, n).Some? && i < |fs|
    requires var q := PlanProgram(fs, n).value;
             Agrees(All(q.functions), pos) && q.next <= hi && AllKnown(pos, hi)
    ensures var q := PlanProgram(fs, n).value;
            && |q.functions| == |fs|
            && (Disciplined(Code(q.functions[i], pos), pos) <==> DispatchesLevel(q.functions[i], pos))
            && (WellPlacedIn(fs[i]) ==> Disciplined(Code(q.functions[i], pos), pos))
    decreases |fs|
  {
    hide PlanFunction, Agrees, Disciplined, DispatchesLevel, Code, WellPlacedIn;
    var p := PlanFunction(fs[0], n).value;
    var q := PlanProgram(fs[1..], p.st.next).value;
    assert PlanProgram(fs, n).value.functions[1..] == q.functions;
    AgreesParts(p.orders, All(q.functions), pos);
    ProgramLabels(fs[1..], p.st.next);
    Lengths(fs[1..], p.st.next);
    if i == 0 {
      FunctionExact(fs[0], n, pos);
      if WellPlacedIn(fs[0]) {
        FunctionDisciplined(fs[0], n, pos);
      }
    } else {
      assert fs[1..][i - 1] == fs[i];
      PartsFine(fs[1..], p.st.next, i - 1, pos, hi);
    }
  }

  lemma {:induction false} Lengths(fs: seq<Items>, n: nat)
    requires PlanProgram(fs, n).Some?
    ensures |PlanProgram(fs, n).value.functions| == |fs|
    decreases |fs|
  {
    if fs != [] {
      Lengths(fs[1..], PlanFunction(fs[0], n).value.st.next);
    }
  }
}
