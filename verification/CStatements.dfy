/** The statements that the C compiler reads (asmg/c_compile.g), and which of them the language admits. */
module CStatements {
  import opened Options

  /** The expressions of a loop; each of those of a `for` may be left out. */
  datatype Kind =
    | For(init: Option<nat>, check: Option<nat>, step: Option<nat>)
    | While(guard: nat)
    | DoWhile(guard: nat)

  /** Statements (section 6.8 of ISO/IEC 9899:2011); a declaration is not one.  Where there is no `else`
      the second branch is empty.  An expression is known by its number; the constants of case labels have none. */
  datatype Stmt =
    | Empty
    | Expr(id: nat)
    | Compound(items: Items)
    | Return(value: Option<nat>) | Break | Continue
    | If(guard: nat, thn: Stmt, els: Stmt)
    | Loop(kind: Kind, body: Stmt)
    | Switch(on: nat, body: Stmt)
    | Case(stmt: Stmt) | Default(stmt: Stmt)
    | Goto(name: string) | Labeled(name: string, stmt: Stmt)

  /** The items of a block; a declaration takes stack for its variable, and may give it a value. */
  datatype Items = End | Declare(footprint: nat, init: Option<nat>, rest: Items) | Then(head: Stmt, rest: Items)

  /** What a loop evaluates once, before its turns. */
  function Before(kind: Kind): Option<nat> {
    if kind.For? then kind.init else None
  }

  /** What it evaluates before each turn, to see whether it goes on; without it, it does. */
  function Top(kind: Kind): Option<nat> {
    match kind
    case For(_, check, _) => check
    case While(guard) => Some(guard)
    case DoWhile(_) => None
  }

  /** What it evaluates between one turn and the next; for `do` that is its guard instead. */
  function Between(kind: Kind): Option<nat> {
    if kind.For? then kind.step else None
  }

  // ----- what the language admits (sections 6.8.1, 6.8.4.2 and 6.8.6 of ISO/IEC 9899:2011) -----

  /** `break`, `continue`, `case` and `default` stand where they have a meaning, and no switch has two defaults. */
  predicate Scoped(s: Stmt, brk: bool, cont: bool, inSwitch: bool) {
    match s
    case Empty => true
    case Expr(_) => true
    case Compound(items) => ScopedIn(items, brk, cont, inSwitch)
    case Return(_) => true
    case Break => brk
    case Continue => cont
    case If(_, thn, els) => Scoped(thn, brk, cont, inSwitch) && Scoped(els, brk, cont, inSwitch)
    case Loop(_, body) => Scoped(body, true, true, inSwitch)
    case Switch(_, body) => Scoped(body, true, cont, true) && Defaults(body) <= 1
    case Case(stmt) => inSwitch && Scoped(stmt, brk, cont, inSwitch)
    case Default(stmt) => inSwitch && Scoped(stmt, brk, cont, inSwitch)
    case Goto(_) => true
    case Labeled(_, stmt) => Scoped(stmt, brk, cont, inSwitch)
  }

  predicate ScopedIn(items: Items, brk: bool, cont: bool, inSwitch: bool) {
    match items
    case End => true
    case Declare(_, _, rest) => ScopedIn(rest, brk, cont, inSwitch)
    case Then(s, rest) => Scoped(s, brk, cont, inSwitch) && ScopedIn(rest, brk, cont, inSwitch)
  }

  /** How many default labels of the switch around it a statement has. */
  function Defaults(s: Stmt): nat {
    match s
    case Compound(items) => DefaultsIn(items)
    case If(_, thn, els) => Defaults(thn) + Defaults(els)
    case Loop(_, body) => Defaults(body)
    case Case(stmt) => Defaults(stmt)
    case Default(stmt) => 1 + Defaults(stmt)
    case Labeled(_, stmt) => Defaults(stmt)
    case _ => 0
  }

  function DefaultsIn(items: Items): nat {
    match items
    case End => 0
    case Declare(_, _, rest) => DefaultsIn(rest)
    case Then(s, rest) => Defaults(s) + DefaultsIn(rest)
  }

  /** How often the name labels a statement. */
  function Definitions(s: Stmt, name: string): nat {
    match s
    case Compound(items) => DefinitionsIn(items, name)
    case If(_, thn, els) => Definitions(thn, name) + Definitions(els, name)
    case Loop(_, body) => Definitions(body, name)
    case Switch(_, body) => Definitions(body, name)
    case Case(stmt) => Definitions(stmt, name)
    case Default(stmt) => Definitions(stmt, name)
    case Labeled(n, stmt) => (if n == name then 1 else 0) + Definitions(stmt, name)
    case _ => 0
  }

  function DefinitionsIn(items: Items, name: string): nat {
    match items
    case End => 0
    case Declare(_, _, rest) => DefinitionsIn(rest, name)
    case Then(s, rest) => Definitions(s, name) + DefinitionsIn(rest, name)
  }

  /** A `goto` or a label uses the name. */
  predicate Mentions(s: Stmt, name: string) {
    match s
    case Compound(items) => MentionsIn(items, name)
    case If(_, thn, els) => Mentions(thn, name) || Mentions(els, name)
    case Loop(_, body) => Mentions(body, name)
    case Switch(_, body) => Mentions(body, name)
    case Case(stmt) => Mentions(stmt, name)
    case Default(stmt) => Mentions(stmt, name)
    case Goto(n) => n == name
    case Labeled(n, stmt) => n == name || Mentions(stmt, name)
    case _ => false
  }

  predicate MentionsIn(items: Items, name: string) {
    match items
    case End => false
    case Declare(_, _, rest) => MentionsIn(rest, name)
    case Then(s, rest) => Mentions(s, name) || MentionsIn(rest, name)
  }

  /** Every name that is used labels one statement of the function. */
  ghost predicate NamesDefined(body: Items) {
    forall name :: MentionsIn(body, name) ==> DefinitionsIn(body, name) == 1
  }

  /** The body of a function is as the language wants it. */
  ghost predicate Admitted(body: Items) {
    ScopedIn(body, false, false, false) && NamesDefined(body)
  }

  // ----- where case labels stand -----

  /** The case labels of the switch that the statement is the body of stand as deep as the switch, when
      the statement stands `off` deeper. */
  predicate CasesFlat(s: Stmt, off: nat) {
    match s
    case Compound(items) => CasesFlatIn(items, off)
    case If(_, thn, els) => CasesFlat(thn, off) && CasesFlat(els, off)
    case Loop(_, body) => CasesFlat(body, off)
    case Case(stmt) => off == 0 && CasesFlat(stmt, off)
    case Default(stmt) => CasesFlat(stmt, off)
    case Labeled(_, stmt) => CasesFlat(stmt, off)
    case _ => true
  }

  predicate CasesFlatIn(items: Items, off: nat) {
    match items
    case End => true
    case Declare(n, _, rest) => CasesFlatIn(rest, off + n)
    case Then(s, rest) => CasesFlat(s, off) && CasesFlatIn(rest, off)
  }

  /** In no switch does a case label follow a declaration of a block that it is in. */
  predicate WellPlaced(s: Stmt) {
    match s
    case Compound(items) => WellPlacedIn(items)
    case If(_, thn, els) => WellPlaced(thn) && WellPlaced(els)
    case Loop(_, body) => WellPlaced(body)
    case Switch(_, body) => CasesFlat(body, 0) && WellPlaced(body)
    case Case(stmt) => WellPlaced(stmt)
    case Default(stmt) => WellPlaced(stmt)
    case Labeled(_, stmt) => WellPlaced(stmt)
    case _ => true
  }

  predicate WellPlacedIn(items: Items) {
    match items
    case End => true
    case Declare(_, _, rest) => WellPlacedIn(rest)
    case Then(s, rest) => WellPlaced(s) && WellPlacedIn(rest)
  }
}
