/** What C statements mean, as far as control goes (section 6.8 of ISO/IEC 9899:2011): which expressions are
    evaluated, in which order - those of expression statements, the guards of `if` and of loops, the first and
    the third of a `for`, the values of switches and of returns, and initialisers - and which variables have
    storage then: those of the blocks around it declared before it, and for an initialiser its own as well
    (sections 6.2.1 and 6.2.4).  How guards and comparisons come out is given by a list of decisions; true
    stands for zero, and for the case that the value of a switch equals.  `fuel` bounds the turns of loops and
    the jumps by `goto`; where it or the decisions run out the answer is Short. */
module CMeaning {
  import opened Options
  import opened CStatements

  /** Where a statement is entered: from above, or at one of its labels - a name, the k-th case label or the
      default label of the switch around it. */
  datatype Entry = Start | AtName(name: string) | AtCase(k: nat) | AtDefault

  /** How it is left. */
  datatype Outcome = Normal | Broke | Continued | Returned | Went(name: string)

  /** An expression is evaluated, with so many bytes of variables in scope. */
  datatype Event = Event(id: nat, depth: int)

  datatype Res = Short | Wrong | Res(out: Outcome, rest: seq<bool>, trace: seq<Event>)

  /** How many case labels of the switch around it a statement has. */
  function Cases(s: Stmt): nat {
    match s
    case Compound(items) => CasesIn(items)
    case If(_, thn, els) => Cases(thn) + Cases(els)
    case Loop(_, body) => Cases(body)
    case Case(stmt) => 1 + Cases(stmt)
    case Default(stmt) => Cases(stmt)
    case Labeled(_, stmt) => Cases(stmt)
    case _ => 0
  }

  function CasesIn(items: Items): nat {
    match items
    case End => 0
    case Declare(_, _, rest) => CasesIn(rest)
    case Then(s, rest) => Cases(s) + CasesIn(rest)
  }

  predicate Enters(s: Stmt, e: Entry) {
    match e
    case Start => true
    case AtName(x) => Definitions(s, x) > 0
    case AtCase(k) => k < Cases(s)
    case AtDefault => Defaults(s) > 0
  }

  predicate EntersIn(items: Items, e: Entry) {
    match e
    case Start => true
    case AtName(x) => DefinitionsIn(items, x) > 0
    case AtCase(k) => k < CasesIn(items)
    case AtDefault => DefaultsIn(items) > 0
  }

  /** The entry into what comes after n case labels. */
  function Beyond(e: Entry, n: nat): Entry {
    if e.AtCase? && e.k >= n then AtCase(e.k - n) else e
  }

  function Prefixed(trace: seq<Event>, r: Res): Res {
    if r.Res? then r.(trace := trace + r.trace) else r
  }

  /** The trace of an expression that may be left out. */
  function Evaluated(e: Option<nat>, d: nat): seq<Event> {
    if e.Some? then [Event(e.value, d)] else []
  }

  /** A `break` ends the statement that it belongs to. */
  function Ended(r: Res): Res {
    if r.Res? && r.out.Broke? then r.(out := Normal) else r
  }

  /** The comparisons of a switch, up to the first that finds its value. */
  function Pick(dec: seq<bool>, n: nat): Option<(Option<nat>, seq<bool>)> {
    if n == 0 then Some((None, dec))
    else if dec == [] then None
    else if dec[0] then Some((Some(0), dec[1..]))
    else
      match Pick(dec[1..], n - 1)
      case None => None
      case Some((None, rest)) => Some((None, rest))
      case Some((Some(k), rest)) => Some((Some(k + 1), rest))
  }

  /** A statement that stands where the variables in scope take d bytes. */
  function Exec(s: Stmt, d: nat, e: Entry, dec: seq<bool>, fuel: nat): Res
    requires Enters(s, e)
    decreases fuel, s, 0
  {
    match s
    case Empty => Res(Normal, dec, [])
    case Expr(id) => Res(Normal, dec, [Event(id, d)])
    case Compound(items) => ExecItems(items, d, e, dec, fuel)
    case Return(value) => Res(Returned, dec, Evaluated(value, d))
    case Break => Res(Broke, dec, [])
    case Continue => Res(Continued, dec, [])
    case If(guard, thn, els) =>
      if e.Start? then
        if dec == [] then Short
        else Prefixed([Event(guard, d)], if dec[0] then Exec(els, d, Start, dec[1..], fuel) else Exec(thn, d, Start, dec[1..], fuel))
      else if Enters(thn, e) then Exec(thn, d, e, dec, fuel)
      else Exec(els, d, Beyond(e, Cases(thn)), dec, fuel)
    case Loop(kind, body) =>
      if e.Start? then Prefixed(Evaluated(Before(kind), d), Turns(kind, body, d, dec, fuel))
      else AfterBody(kind, body, d, Exec(body, d, e, dec, fuel), fuel)
    case Switch(on, body) =>
      if e.Start? then
        match Pick(dec, Cases(body))
        case None => Short
        case Some((Some(k), rest)) =>
          PickInside(dec, Cases(body));
          Prefixed([Event(on, d)], Ended(Exec(body, d, AtCase(k), rest, fuel)))
        case Some((None, rest)) =>
          Prefixed([Event(on, d)], if Defaults(body) > 0 then Ended(Exec(body, d, AtDefault, rest, fuel)) else Res(Normal, rest, []))
      else Ended(Exec(body, d, e, dec, fuel))
    case Case(stmt) => Exec(stmt, d, if e == AtCase(0) then Start else Beyond(e, 1), dec, fuel)
    case Default(stmt) => Exec(stmt, d, if e.AtDefault? then Start else e, dec, fuel)
    case Goto(x) => Res(Went(x), dec, [])
    case Labeled(x, stmt) => Exec(stmt, d, if e == AtName(x) then Start else e, dec, fuel)
  }

  /** From where the turns of a loop start. */
  function Turns(kind: Kind, body: Stmt, d: nat, dec: seq<bool>, fuel: nat): Res
    decreases fuel, body, 2
  {
    if Top(kind).None? then AfterBody(kind, body, d, Exec(body, d, Start, dec, fuel), fuel)
    else if dec == [] then Short
    else
      Prefixed([Event(Top(kind).value, d)],
               if dec[0] then Res(Normal, dec[1..], []) else AfterBody(kind, body, d, Exec(body, d, Start, dec[1..], fuel), fuel))
  }

  /** From the end of the body of a loop on. */
  function AfterBody(kind: Kind, body: Stmt, d: nat, r: Res, fuel: nat): Res
    decreases fuel, body, 1
  {
    if !r.Res? || (!r.out.Normal? && !r.out.Continued?) then Ended(r)
    else if kind.DoWhile? then
      if r.rest == [] then Short
      else
        Prefixed(r.trace + [Event(kind.guard, d)],
                 if r.rest[0] then Res(Normal, r.rest[1..], [])
                 else if fuel == 0 then Short
                 else Turns(kind, body, d, r.rest[1..], fuel - 1))
    else if fuel == 0 then Short
    else Prefixed(r.trace + Evaluated(Between(kind), d), Turns(kind, body, d, r.rest, fuel - 1))
  }

  /** The rest of a block; behind a declaration its variable is in scope. */
  function ExecItems(items: Items, d: nat, e: Entry, dec: seq<bool>, fuel: nat): Res
    requires EntersIn(items, e)
    decreases fuel, items, 0
  {
    match items
    case End => Res(Normal, dec, [])
    case Declare(n, init, rest) =>
      if e.Start? then Prefixed(Evaluated(init, d + n), ExecItems(rest, d + n, Start, dec, fuel)) else ExecItems(rest, d + n, e, dec, fuel)
    case Then(s, rest) =>
      if Enters(s, e) then
        var r := Exec(s, d, e, dec, fuel);
        if !r.Res? || !r.out.Normal? then r else Prefixed(r.trace, ExecItems(rest, d, Start, r.rest, fuel))
      else ExecItems(rest, d, Beyond(e, Cases(s)), dec, fuel)
  }

  lemma {:induction false} PickInside(dec: seq<bool>, n: nat)
    ensures var r := Pick(dec, n); r.Some? && r.value.0.Some? ==> r.value.0.value < n
    decreases n
  {
    if n > 0 && dec != [] && !dec[0] {
      PickInside(dec[1..], n - 1);
    }
  }

  /** The body of a function: a `goto` goes on at the label of that name, wherever it stands. */
  function ExecBody(body: Items, e: Entry, dec: seq<bool>, fuel: nat): Res
    requires EntersIn(body, e)
    decreases fuel
  {
    var r := ExecItems(body, 0, e, dec, fuel);
    if !r.Res? || r.out.Normal? || r.out.Returned? then r
    else if !r.out.Went? || DefinitionsIn(body, r.out.name) == 0 then Wrong
    else if fuel == 0 then Short
    else Prefixed(r.trace, ExecBody(body, AtName(r.out.name), r.rest, fuel - 1))
  }

  // ----- statements that are scoped are left only to where there is something -----

  /** The result is an outcome that the context has a place for. */
  predicate Fits(r: Res, brk: bool, cont: bool, names: set<string>) {
    && !r.Wrong?
    && (r.Res? ==> (r.out.Broke? ==> brk) && (r.out.Continued? ==> cont) && (r.out.Went? ==> r.out.name in names))
  }

  /** The names that a statement goes to. */
  function Goals(s: Stmt): set<string> {
    match s
    case Compound(items) => GoalsIn(items)
    case If(_, thn, els) => Goals(thn) + Goals(els)
    case Loop(_, body) => Goals(body)
    case Switch(_, body) => Goals(body)
    case Case(stmt) => Goals(stmt)
    case Default(stmt) => Goals(stmt)
    case Goto(x) => {x}
    case Labeled(_, stmt) => Goals(stmt)
    case _ => {}
  }

  function GoalsIn(items: Items): set<string> {
    match items
    case End => {}
    case Declare(_, _, rest) => GoalsIn(rest)
    case Then(s, rest) => Goals(s) + GoalsIn(rest)
  }

  lemma {:induction false} ExecFits(s: Stmt, d: nat, e: Entry, dec: seq<bool>, fuel: nat, brk: bool, cont: bool, inSwitch: bool)
    requires Scoped(s, brk, cont, inSwitch) && Enters(s, e)
    ensures Fits(Exec(s, d, e, dec, fuel), brk, cont, Goals(s))
    decreases fuel, s, 1
  {
    match s {
      case Compound(items) => ItemsFit(items, d, e, dec, fuel, brk, cont, inSwitch);
      case If(_, _, _) => IfFits(s, d, e, dec, fuel, brk, cont, inSwitch);
      case Loop(kind, body) =>
        if e.Start? {
          TurnsFit(kind, body, d, dec, fuel, inSwitch, brk, cont);
        } else {
          ExecFits(body, d, e, dec, fuel, true, true, inSwitch);
          AfterBodyFits(kind, body, d, Exec(body, d, e, dec, fuel), fuel, inSwitch, brk, cont);
        }
      case Switch(_, _) => SwitchFits(s, d, e, dec, fuel, brk, cont, inSwitch);
      case Case(stmt) => ExecFits(stmt, d, if e == AtCase(0) then Start else Beyond(e, 1), dec, fuel, brk, cont, inSwitch);
      case Default(stmt) => ExecFits(stmt, d, if e.AtDefault? then Start else e, dec, fuel, brk, cont, inSwitch);
      case Labeled(x, stmt) => ExecFits(stmt, d, if e == AtName(x) then Start else e, dec, fuel, brk, cont, inSwitch);
      case _ =>
    }
  }

  lemma {:induction false} IfFits(s: Stmt, d: nat, e: Entry, dec: seq<bool>, fuel: nat, brk: bool, cont: bool, inSwitch: bool)
    requires s.If? && Scoped(s, brk, cont, inSwitch) && Enters(s, e)
    ensures Fits(Exec(s, d, e, dec, fuel), brk, cont, Goals(s))
    decreases fuel, s, 0
  {
    if e.Start? {
      if dec != [] {
        ExecFits(s.els, d, Start, dec[1..], fuel, brk, cont, inSwitch);
        ExecFits(s.thn, d, Start, dec[1..], fuel, brk, cont, inSwitch);
      }
    } else if Enters(s.thn, e) {
      ExecFits(s.thn, d, e, dec, fuel, brk, cont, inSwitch);
    } else {
      ExecFits(s.els, d, Beyond(e, Cases(s.thn)), dec, fuel, brk, cont, inSwitch);
    }
  }

  lemma {:induction false} SwitchFits(s: Stmt, d: nat, e: Entry, dec: seq<bool>, fuel: nat, brk: bool, cont: bool, inSwitch: bool)
    requires s.Switch? && Scoped(s, brk, cont, inSwitch) && Enters(s, e)
    ensures Fits(Exec(s, d, e, dec, fuel), brk, cont, Goals(s))
    decreases fuel, s, 0
  {
    hide Pick;
    PickInside(dec, Cases(s.body));
    var p := Pick(dec, Cases(s.body));
    if !e.Start? {
      ExecFits(s.body, d, e, dec, fuel, true, cont, true);
    } else if p.Some? && p.value.0.Some? {
      ExecFits(s.body, d, AtCase(p.value.0.value), p.value.1, fuel, true, cont, true);
    } else if p.Some? && Defaults(s.body) > 0 {
      ExecFits(s.body, d, AtDefault, p.value.1, fuel, true, cont, true);
    }
  }

  lemma {:induction false} TurnsFit(kind: Kind, body: Stmt, d: nat, dec: seq<bool>, fuel: nat, inSwitch: bool, brk: bool, cont: bool)
    requires Scoped(body, true, true, inSwitch)
    ensures Fits(Turns(kind, body, d, dec, fuel), brk, cont, Goals(body))
    decreases fuel, body, 2
  {
    hide Exec, AfterBody;
    if Top(kind).None? {
      ExecFits(body, d, Start, dec, fuel, true, true, inSwitch);
      AfterBodyFits(kind, body, d, Exec(body, d, Start, dec, fuel), fuel, inSwitch, brk, cont);
    } else if dec != [] && !dec[0] {
      ExecFits(body, d, Start, dec[1..], fuel, true, true, inSwitch);
      AfterBodyFits(kind, body, d, Exec(body, d, Start, dec[1..], fuel), fuel, inSwitch, brk, cont);
    }
  }

  lemma {:induction false} AfterBodyFits(kind: Kind, body: Stmt, d: nat, r: Res, fuel: nat, inSwitch: bool, brk: bool, cont: bool)
    requires Scoped(body, true, true, inSwitch) && Fits(r, true, true, Goals(body))
    ensures Fits(AfterBody(kind, body, d, r, fuel), brk, cont, Goals(body))
    decreases fuel, body, 1
  {
    hide Exec, Turns;
    if fuel > 0 && r.Res? {
      TurnsFit(kind, body, d, r.rest, fuel - 1, inSwitch, brk, cont);
      if r.rest != [] {
        TurnsFit(kind, body, d, r.rest[1..], fuel - 1, inSwitch, brk, cont);
      }
    }
  }

  lemma {:induction false} ItemsFit(items: Items, d: nat, e: Entry, dec: seq<bool>, fuel: nat, brk: bool, cont: bool, inSwitch: bool)
    requires ScopedIn(items, brk, cont, inSwitch) && EntersIn(items, e)
    ensures Fits(ExecItems(items, d, e, dec, fuel), brk, cont, GoalsIn(items))
    decreases fuel, items, 0
  {
    match items {
      case End =>
      case Declare(n, _, rest) => ItemsFit(rest, d + n, e, dec, fuel, brk, cont, inSwitch);
      case Then(s, rest) =>
        if Enters(s, e) {
          var r := Exec(s, d, e, dec, fuel);
          ExecFits(s, d, e, dec, fuel, brk, cont, inSwitch);
          if r.Res? && r.out.Normal? {
            ItemsFit(rest, d, Start, r.rest, fuel, brk, cont, inSwitch);
          }
        } else {
          ItemsFit(rest, d, Beyond(e, Cases(s)), dec, fuel, brk, cont, inSwitch);
        }
    }
  }

  lemma {:induction false} GoalsMentioned(s: Stmt)
    ensures forall x :: x in Goals(s) ==> Mentions(s, x)
    decreases s
  {
    match s {
      case Compound(items) => ItemsGoalsMentioned(items);
      case If(_, thn, els) =>
        GoalsMentioned(thn);
        GoalsMentioned(els);
      case Loop(_, body) => GoalsMentioned(body);
      case Switch(_, body) => GoalsMentioned(body);
      case Case(stmt) => GoalsMentioned(stmt);
      case Default(stmt) => GoalsMentioned(stmt);
      case Labeled(_, stmt) => GoalsMentioned(stmt);
      case _ =>
    }
  }

  lemma {:induction false} ItemsGoalsMentioned(items: Items)
    ensures forall x :: x in GoalsIn(items) ==> MentionsIn(items, x)
    decreases items
  {
    match items {
      case End =>
      case Declare(_, _, rest) => ItemsGoalsMentioned(rest);
      case Then(s, rest) =>
        GoalsMentioned(s);
        ItemsGoalsMentioned(rest);
    }
  }

  /** A function that the language admits never breaks out of nothing, nor goes to a label that is not there. */
  lemma {:induction false} AdmittedNeverWrong(body: Items, e: Entry, dec: seq<bool>, fuel: nat)
    requires Admitted(body) && EntersIn(body, e)
    ensures !ExecBody(body, e, dec, fuel).Wrong?
    decreases fuel
  {
    hide ExecItems, MentionsIn, DefinitionsIn, ScopedIn, GoalsIn;
    ItemsFit(body, 0, e, dec, fuel, false, false, false);
    ItemsGoalsMentioned(body);
    var r := ExecItems(body, 0, e, dec, fuel);
    if r.Res? && r.out.Went? && fuel > 0 {
      assert MentionsIn(body, r.out.name);
      AdmittedNeverWrong(body, AtName(r.out.name), r.rest, fuel - 1);
    }
  }
}
