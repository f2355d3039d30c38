/** The symbol table of attic/staging.c: three arrays filled from the front, searched in order. */
module GSymbols {
  import opened Options
  import opened GSyntax
  import opened GCompile

  /** The three columns, row by row, are the table. */
  ghost predicate Lists(names: seq<Sym>, locs: seq<int>, arities: seq<int>, table: Table) {
    && |names| == |locs| == |arities| == |table|
    && (forall i :: 0 <= i < |names| ==> names[i] in table && table[names[i]] == Entry(locs[i], arities[i]))
    && (forall k :: k in table ==> k in names)
    && (forall i, j :: 0 <= i < j < |names| ==> names[i] != names[j])
  }

  lemma ListsAdd(names: seq<Sym>, locs: seq<int>, arities: seq<int>, table: Table, sym: Sym, e: Entry)
    requires Lists(names, locs, arities, table) && sym !in table
    ensures Lists(names + [sym], locs + [e.loc], arities + [e.arity], table[sym := e])
  {
  }

  lemma ListsUpdate(names: seq<Sym>, locs: seq<int>, arities: seq<int>, table: Table, i: nat, loc: int)
    requires Lists(names, locs, arities, table) && i < |names|
    ensures names[i] in table && table[names[i]].arity == arities[i]
    ensures Lists(names, locs[i := loc], arities, table[names[i] := Entry(loc, arities[i])])
  {
    assert table[names[i] := Entry(loc, arities[i])].Keys == table.Keys;
  }

  class SymbolTable {
    const names: array<Sym>
    const locs: array<int>
    const arities: array<int>
    var num: nat
    ghost var table: Table

    ghost predicate Valid()
      reads this, names, locs, arities
    {
      && names.Length == locs.Length == arities.Length == SYMBOL_TABLE_LEN && locs != arities
      && num <= SYMBOL_TABLE_LEN && |table| == num && Lists(names[..num], locs[..num], arities[..num], table)
    }

    constructor ()
      ensures Valid() && table == map[] && fresh(names) && fresh(locs) && fresh(arities)
    {
      names := new Sym[SYMBOL_TABLE_LEN](_ => Label(0));
      locs := new int[SYMBOL_TABLE_LEN];
      arities := new int[SYMBOL_TABLE_LEN];
      num := 0;
      table := map[];
    }

    /** get_symbol_idx */
    method IndexOf(sym: Sym) returns (i: nat)
      requires Valid()
      ensures i <= num && (i == num <==> sym !in table) && (i < num ==> names[i] == sym)
    {
      i := 0;
      while i < num
        invariant i <= num && forall k :: 0 <= k < i ==> names[..num][k] != sym
      {
        if names[i] == sym {
          assert names[..num][i] in table;
          return;
        }
        i := i + 1;
      }
    }

    /** find_symbol */
    method Find(sym: Sym) returns (e: Option<Entry>)
      requires Valid()
      ensures e == if sym in table then Some(table[sym]) else None
    {
      var i := IndexOf(sym);
      assert i < num ==> names[..num][i] == sym;
      e := if i == num then None else Some(Entry(locs[i], arities[i]));
    }

    /** add_symbol */
    method Add(sym: Sym, loc: int, arity: int) returns (ok: bool)
      requires Valid()
      modifies this, names, locs, arities
      ensures Valid()
      ensures ok <==> SymFits(sym) && sym !in old(table) && |old(table)| < SYMBOL_TABLE_LEN
      ensures table == if ok then old(table)[sym := Entry(loc, arity)] else old(table)
    {
      hide Lists;
      if sym.Named? && !(0 < |sym.name| < MAX_NAME_LEN) {
        return false;
      }
      var e := Find(sym);
      if e.Some? || num >= SYMBOL_TABLE_LEN {
        return false;
      }
      ListsAdd(names[..num], locs[..num], arities[..num], table, sym, Entry(loc, arity));
      locs[num] := loc;
      arities[num] := arity;
      names[num] := sym;
      table := table[sym := Entry(loc, arity)];
      num := num + 1;
      ok := true;
      assert names[..num] == old(names[..num]) + [sym] && locs[..num] == old(locs[..num]) + [loc];
      assert arities[..num] == old(arities[..num]) + [arity];
    }

    /** add_symbol_wrapper */
    method AddWrapper(sym: Sym, loc: int, arity: int, stage: nat, ghost s: S) returns (ok: bool)
      requires Valid() && stage < 2 && s.stage == stage && s.table == table
      modifies this, names, locs, arities
      ensures Valid() && (ok <==> Define(s, sym, loc, arity).Some?)
      ensures ok ==> table == Define(s, sym, loc, arity).value.table
    {
      hide Lists;
      if stage == 0 {
        ok := Add(sym, loc, arity);
      } else {
        var e := Find(sym);
        ok := e == Some(Entry(loc, arity));
      }
    }

    /** add_symbol_placeholder */
    method AddPlaceholder(name: string, arity: int, stage: nat, ghost s: S) returns (ok: bool)
      requires Valid() && stage < 2 && s.stage == stage && s.table == table
      modifies this, names, locs, arities
      ensures Valid() && (ok <==> Declare(s, name, arity).Some?)
      ensures ok ==> table == Declare(s, name, arity).value.table
    {
      hide Lists;
      var e := Find(Named(name));
      if stage != 0 && e.None? {
        return false;
      }
      if e.None? {
        ok := Add(Named(name), UNDEFINED, arity);
      } else {
        ok := arity == e.value.arity;
      }
    }

    /** fix_symbol_placeholder */
    method FixPlaceholder(name: string, loc: int, arity: int, stage: nat, ghost s: S) returns (ok: bool)
      requires Valid() && stage < 2 && s.stage == stage && s.table == table
      modifies this, names, locs, arities
      ensures Valid() && (ok <==> Fix(s, name, loc, arity).Some?)
      ensures ok ==> table == Fix(s, name, loc, arity).value.table
    {
      hide Lists;
      var e := Find(Named(name));
      if stage != 0 && e.None? {
        return false;
      }
      if e.None? {
        ok := Add(Named(name), loc, arity);
        return;
      }
      if arity != e.value.arity || !(loc == e.value.loc || (stage == 0 && e.value.loc == UNDEFINED)) {
        return false;
      }
      var i := IndexOf(Named(name));
      assert names[..num][i] == Named(name);
      ListsUpdate(names[..num], locs[..num], arities[..num], table, i, loc);
      locs[i] := loc;
      table := table[Named(name) := Entry(loc, arity)];
      ok := true;
      assert locs[..num] == old(locs[..num])[i := loc];
    }
  }
}
