/** What the names of a G program stand for, by its text: constants have the values that are written down,
    and everything else has a place. */
module GData {
  import opened Options
  import opened GSyntax
  import opened GCompile
  import opened GTwoPass
  import opened GEarly

  /** Where something lies; `at` gives the places. */
  function Place(at: Table, name: string): int {
    if Named(name) in at then at[Named(name)].loc else 0
  }

  /** A number, or the value or the place of a symbol. */
  function ValueIn(names: Table, operand: Operand): int {
    match operand
    case Literal(v) => v
    case SymbolOf(name) => Place(names, name)
  }

  /** The names behind a declaration. */
  function Bind(d: Decl, names: Table, at: Table): Table {
    match d
    case Fun(name, arity, _) => names[Named(name) := Entry(Place(at, name), arity)]
    case Ifun(name, arity) => if Named(name) in names then names else names[Named(name) := Entry(UNDEFINED, arity)]
    case Const(name, operand) => names[Named(name) := Entry(ValueIn(names, operand), CONSTANT)]
    case Global(name) => names[Named(name) := Entry(Place(at, name), VARIABLE)]
    case Array(name, _) => names[Named(name) := Entry(Place(at, name), CONSTANT)]
  }

  /** The names behind a program. */
  function NamesOf(p: Program, names: Table, at: Table): Table {
    if p.End? then names else NamesOf(p.tail, Bind(p.head, names, at), at)
  }

  /** The symbols of a program that starts with those of `table`: names by the text, with functions, globals,
      arrays and labels where `at` has them. */
  function SymbolsOf(p: Program, table: Table, at: Table): Table {
    NamesOf(p, table, at) + map sym | sym in at && sym.Label? :: at[sym]
  }

  // ----- what the compiler puts into its table -----

  ghost predicate SameNames(a: Table, b: Table) {
    forall f: string :: SameName(a, b, f)
  }

  predicate SameName(a: Table, b: Table, f: string) {
    (Named(f) in a <==> Named(f) in b) && (Named(f) in b ==> a[Named(f)] == b[Named(f)])
  }

  /** What has a location keeps it. */
  lemma Settled(t: Table, final: Table, name: string)
    requires Grows(t, final) && Named(name) in t && (t[Named(name)].arity < 0 || t[Named(name)].loc >= 0)
    ensures Place(final, name) == t[Named(name)].loc
  {
  }

  lemma BindFollows(d: Decl, s: S, names: Table, final: Table)
    requires s.stage == 0 && RunDecl(d, s).Some? && SameNames(names, s.table) && Grows(RunDecl(d, s).value.s.table, final)
    ensures SameNames(Bind(d, names, final), RunDecl(d, s).value.s.table)
  {
    hide RunDecl, Bind, SameNames;
    forall f: string ensures SameName(Bind(d, names, final), RunDecl(d, s).value.s.table, f) {
      SameNamesAt(names, s.table, f);
      if d.name == f {
        OwnName(d, s, names, final);
      } else {
        OtherName(d, s, names, final, f);
      }
    }
    AllSameNames(Bind(d, names, final), RunDecl(d, s).value.s.table);
  }

  lemma SameNamesAt(a: Table, b: Table, f: string)
    requires SameNames(a, b)
    ensures SameName(a, b, f)
  {
  }

  lemma AllSameNames(a: Table, b: Table)
    requires forall f: string :: SameName(a, b, f)
    ensures SameNames(a, b)
  {
  }

  lemma OwnName(d: Decl, s: S, names: Table, final: Table)
    requires s.stage == 0 && RunDecl(d, s).Some? && SameNames(names, s.table) && Grows(RunDecl(d, s).value.s.table, final)
    ensures SameName(Bind(d, names, final), RunDecl(d, s).value.s.table, d.name)
  {
    hide RunBlock, SameNames, Zeros;
    SameNamesAt(names, s.table, d.name);
    var t := RunDecl(d, s).value.s.table;
    match d
    case Fun(_, _, _) =>
      FunDefines(d, s);
      Settled(t, final, d.name);
    case Ifun(_, _) =>
    case Const(_, operand) =>
      if operand.SymbolOf? {
        SameNamesAt(names, s.table, operand.name);
      }
    case Global(_) => Settled(t, final, d.name);
    case Array(_, _) => Settled(t, final, d.name);
  }

  lemma OtherName(d: Decl, s: S, names: Table, final: Table, f: string)
    requires s.stage == 0 && RunDecl(d, s).Some? && SameName(names, s.table, f) && f != d.name
    ensures SameName(Bind(d, names, final), RunDecl(d, s).value.s.table, f)
  {
    hide RunBlock, Zeros;
    match d
    case Fun(_, _, _) => FunKeeps(d, s, f);
    case _ =>
  }

  lemma {:induction false} NamesFollow(p: Program, s: S, names: Table, final: Table)
    requires s.stage == 0 && RunProgram(p, s).Some? && SameNames(names, s.table) && Grows(RunProgram(p, s).value.s.table, final)
    ensures SameNames(NamesOf(p, names, final), RunProgram(p, s).value.s.table)
    decreases p
  {
    hide RunDecl, Bind, SameNames;
    if p.Decls? {
      var o := RunDecl(p.head, s).value;
      DeclFacts(p.head, s);
      ProgramFacts(p.tail, o.s);
      GrowsTrans(o.s.table, RunProgram(p.tail, o.s).value.s.table, final);
      BindFollows(p.head, s, names, final);
      NamesFollow(p.tail, o.s, Bind(p.head, names, final), final);
    }
  }

  /** The text has no labels. */
  lemma {:induction false} LabelsApart(p: Program, names: Table, at: Table, id: nat)
    ensures Label(id) in NamesOf(p, names, at) <==> Label(id) in names
    decreases p
  {
    if p.Decls? {
      LabelsApart(p.tail, Bind(p.head, names, at), at, id);
    }
  }

  /** The table that the first pass leaves is the one that the text asks for: each `const` has its number,
      or the value of the symbol it names, and every name is of the kind, and takes the arguments, that it
      was declared with. */
  lemma TableIsText(p: Program, start: nat, table: Table)
    requires RunPass(p, 0, start, table).Some?
    ensures var final := RunPass(p, 0, start, table).value.s.table; SymbolsOf(p, table, final) == final
  {
    hide RunProgram, NamesOf, SameNames;
    var s := S(0, [], 0, start, table, true);
    var final := RunProgram(p, s).value.s.table;
    ProgramFacts(p, s);
    AllSameNames(table, s.table);
    NamesFollow(p, s, table, final);
    forall sym ensures sym in SymbolsOf(p, table, final) <==> sym in final {
      SymbolThere(p, table, final, sym);
    }
    forall sym | sym in final ensures SymbolsOf(p, table, final)[sym] == final[sym] {
      SymbolThere(p, table, final, sym);
    }
  }

  lemma SymbolThere(p: Program, table: Table, final: Table, sym: Sym)
    requires SameNames(NamesOf(p, table, final), final) && Grows(table, final)
    ensures sym in SymbolsOf(p, table, final) <==> sym in final
    ensures sym in final ==> SymbolsOf(p, table, final)[sym] == final[sym]
  {
    hide NamesOf, SameNames;
    match sym
    case Named(f) => SameNamesAt(NamesOf(p, table, final), final, f);
    case Label(id) => LabelsApart(p, table, final, id);
  }

  // ----- the declarations of a program -----

  function Count(p: Program): nat {
    if p.End? then 0 else 1 + Count(p.tail)
  }

  /** The i-th declaration. */
  function DeclAt(p: Program, i: nat): Decl
    requires i < Count(p)
  {
    if i == 0 then p.head else DeclAt(p.tail, i - 1)
  }
}
