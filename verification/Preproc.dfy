/** Replacing object-like macros until nothing changes (asmg/c_preproc.g). */
module Preproc {

  type Tok = string

  /** The macros: what each stands for. */
  type Defines = map<Tok, seq<Tok>>

  /** A token that a pass changes: a macro that is not just its own name. */
  predicate Active(defs: Defines, t: Tok) {
    t in defs && defs[t] != [t]
  }

  // ----- macros that never come to an end -----

  /** The macro has one of c in its replacement. */
  predicate LeadsInto(defs: Defines, t: Tok, c: set<Tok>) {
    t in defs && exists u :: u in c && u in defs[t]
  }

  /** Macros each of which has one of them in its replacement. */
  ghost predicate Trap(defs: Defines, c: set<Tok>) {
    forall t :: t in c ==> Active(defs, t) && LeadsInto(defs, t, c)
  }

  /** The token starts a chain of macros that never ends: it stands in a trap.  (The way from a macro to
      a trap, together with the trap, is a trap.) */
  ghost predicate Endless(defs: Defines, t: Tok) {
    exists c: set<Tok> :: Trap(defs, c) && t in c
  }

  ghost predicate AllEnd(defs: Defines, toks: seq<Tok>) {
    forall t :: t in toks ==> !Endless(defs, t)
  }

  lemma Leads(defs: Defines, t: Tok, u: Tok, c: set<Tok>)
    requires t in defs && u in c && u in defs[t]
    ensures LeadsInto(defs, t, c)
  {
  }

  lemma Successor(defs: Defines, t: Tok, c: set<Tok>) returns (u: Tok)
    requires LeadsInto(defs, t, c)
    ensures u in c && t in defs && u in defs[t]
  {
    u :| u in c && u in defs[t];
  }

  lemma TrapMore(defs: Defines, c: set<Tok>, t: Tok, u: Tok)
    requires Trap(defs, c) && u in c && Active(defs, t) && u in defs[t]
    ensures Trap(defs, c + {t})
  {
    hide LeadsInto;
    forall v | v in c + {t} ensures Active(defs, v) && LeadsInto(defs, v, c + {t}) {
      var w := u;
      if v in c {
        w := Successor(defs, v, c);
      }
      Leads(defs, v, w, c + {t});
    }
  }

  lemma NextInTrap(defs: Defines, t: Tok) returns (u: Tok)
    requires Endless(defs, t)
    ensures Active(defs, t) && u in defs[t] && Endless(defs, u)
  {
    hide LeadsInto;
    var c: set<Tok> :| Trap(defs, c) && t in c;
    u := Successor(defs, t, c);
    assert Endless(defs, u);
  }

  lemma IntoTrap(defs: Defines, t: Tok, u: Tok)
    requires Active(defs, t) && u in defs[t] && Endless(defs, u)
    ensures Endless(defs, t)
  {
    hide Active, LeadsInto;
    var c: set<Tok> :| Trap(defs, c) && u in c;
    TrapMore(defs, c, t, u);
    assert Trap(defs, c + {t}) && t in c + {t};
  }

  /** A token never ends exactly if it is a macro with such a token in its replacement. */
  lemma EndlessStep(defs: Defines, t: Tok)
    ensures Endless(defs, t) <==> Active(defs, t) && exists u :: u in defs[t] && Endless(defs, u)
  {
    hide Endless;
    if Endless(defs, t) {
      var u := NextInTrap(defs, t);
    }
    if Active(defs, t) && exists u :: u in defs[t] && Endless(defs, u) {
      var u :| u in defs[t] && Endless(defs, u);
      IntoTrap(defs, t, u);
    }
  }

  /** The macros of s that have another macro of s in their replacement. */
  function Peel(defs: Defines, s: set<Tok>): set<Tok> {
    set t | t in s && LeadsInto(defs, t, s)
  }

  /** How often s can be peeled before the token goes. */
  function Layer(defs: Defines, s: set<Tok>, t: Tok): nat
    decreases |s|
  {
    var p := Peel(defs, s);
    if p == s || t !in p then 0
    else Fewer(defs, s); 1 + Layer(defs, p, t)
  }

  lemma Fewer(defs: Defines, s: set<Tok>)
    requires Peel(defs, s) != s
    ensures |Peel(defs, s)| < |s|
  {
    var t :| t in s && t !in Peel(defs, s);
    Subset(Peel(defs, s), s - {t});
  }

  lemma {:induction false} Subset(a: set<Tok>, b: set<Tok>)
    requires a <= b
    ensures |a| <= |b|
    decreases |a|
  {
    if a != {} {
      var t :| t in a;
      Subset(a - {t}, b - {t});
    }
  }

  lemma PeelIsTrap(defs: Defines, s: set<Tok>)
    requires (forall v :: v in s ==> Active(defs, v)) && Peel(defs, s) == s
    ensures Trap(defs, s)
  {
    hide LeadsInto, Active;
    forall v | v in s ensures LeadsInto(defs, v, s) {
      assert v in Peel(defs, s);
    }
  }

  lemma PeelsOff(defs: Defines, s: set<Tok>, t: Tok)
    requires !Endless(defs, t) && (forall v :: v in s ==> Active(defs, v)) && t in s
    ensures Peel(defs, s) != s
  {
    hide Trap, LeadsInto, Active;
    if Peel(defs, s) == s {
      PeelIsTrap(defs, s);
    }
  }

  lemma {:induction false} LayersFall(defs: Defines, s: set<Tok>, t: Tok, u: Tok)
    requires !Endless(defs, t) && (forall v :: v in s ==> Active(defs, v))
    requires t in s && u in s && t in defs && u in defs[t]
    ensures Layer(defs, s, u) < Layer(defs, s, t)
    decreases |s|
  {
    hide Endless, Active, LeadsInto;
    var p := Peel(defs, s);
    Leads(defs, t, u, s);
    PeelsOff(defs, s, t);
    Fewer(defs, s);
    if u in p {
      LayersFall(defs, p, t, u);
    }
  }

  function Macros(defs: Defines): set<Tok> {
    set t | t in defs && Active(defs, t)
  }

  /** How far a token stands above the end of its expansion. */
  function Rank(defs: Defines, t: Tok): nat {
    if Active(defs, t) then Layer(defs, Macros(defs), t) + 1 else 0
  }

  lemma RankFalls(defs: Defines, t: Tok, u: Tok)
    requires !Endless(defs, t) && Active(defs, t) && u in defs[t]
    ensures !Endless(defs, u) && Rank(defs, u) < Rank(defs, t)
  {
    hide Endless, Layer;
    EndlessStep(defs, t);
    if Active(defs, u) {
      LayersFall(defs, Macros(defs), t, u);
    }
  }

  /** The highest rank in the list. */
  function Height(defs: Defines, toks: seq<Tok>): nat {
    if toks == [] then 0
    else
      var h := Height(defs, toks[1..]);
      if Rank(defs, toks[0]) > h then Rank(defs, toks[0]) else h
  }

  lemma {:induction false} HeightAbove(defs: Defines, toks: seq<Tok>, h: nat)
    ensures Height(defs, toks) <= h <==> forall t :: t in toks ==> Rank(defs, t) <= h
    decreases |toks|
  {
    hide Rank;
    if toks != [] {
      HeightAbove(defs, toks[1..], h);
      assert toks[0] in toks;
      assert forall t :: t in toks[1..] ==> t in toks;
      assert forall t :: t in toks ==> t == toks[0] || t in toks[1..];
    }
  }

  lemma ReplacementLower(defs: Defines, t: Tok)
    requires !Endless(defs, t) && Active(defs, t)
    ensures AllEnd(defs, defs[t]) && Height(defs, defs[t]) < Rank(defs, t)
  {
    hide Endless, Rank;
    forall u | u in defs[t] ensures !Endless(defs, u) && Rank(defs, u) <= Rank(defs, t) - 1 {
      RankFalls(defs, t, u);
    }
    MacroRank(defs, t);
    HeightAbove(defs, defs[t], Rank(defs, t) - 1);
  }

  lemma MacroRank(defs: Defines, t: Tok)
    ensures Rank(defs, t) > 0 <==> Active(defs, t)
  {
  }

  // ----- what macros mean: each token expanded by itself, to the end -----

  ghost function Expansion(defs: Defines, toks: seq<Tok>): seq<Tok>
    requires AllEnd(defs, toks)
    decreases Height(defs, toks), |toks|
  {
    if toks == [] then []
    else
      (if Active(defs, toks[0]) then ReplacementLower(defs, toks[0]); Expansion(defs, defs[toks[0]]) else [toks[0]])
      + Expansion(defs, toks[1..])
  }

  lemma {:induction false} ExpansionConcat(defs: Defines, a: seq<Tok>, b: seq<Tok>)
    requires AllEnd(defs, a) && AllEnd(defs, b)
    ensures AllEnd(defs, a + b) && Expansion(defs, a + b) == Expansion(defs, a) + Expansion(defs, b)
    decreases |a|
  {
    hide Endless, Height;
    if a == [] {
      assert a + b == b;
    } else {
      assert (a + b)[0] == a[0] && (a + b)[1..] == a[1..] + b;
      ExpansionConcat(defs, a[1..], b);
    }
  }

  // ----- a pass over the whole list -----

  function Once(defs: Defines, t: Tok): seq<Tok> {
    if t in defs then defs[t] else [t]
  }

  function Pass(defs: Defines, toks: seq<Tok>): seq<Tok> {
    if toks == [] then [] else Once(defs, toks[0]) + Pass(defs, toks[1..])
  }

  predicate Changes(defs: Defines, toks: seq<Tok>) {
    exists t :: t in toks && Active(defs, t)
  }

  function Passes(defs: Defines, toks: seq<Tok>, n: nat): seq<Tok> {
    if n == 0 then toks else Pass(defs, Passes(defs, toks, n - 1))
  }

  lemma {:induction false} FromPass(defs: Defines, toks: seq<Tok>, u: Tok)
    requires u in Pass(defs, toks)
    ensures exists t :: t in toks && u in Once(defs, t)
    decreases |toks|
  {
    if u in Once(defs, toks[0]) {
      assert toks[0] in toks;
    } else {
      FromPass(defs, toks[1..], u);
      var t :| t in toks[1..] && u in Once(defs, t);
      assert t in toks;
    }
  }

  lemma OnceKeeps(defs: Defines, t: Tok)
    requires !Endless(defs, t)
    ensures AllEnd(defs, [t]) && AllEnd(defs, Once(defs, t)) && Expansion(defs, Once(defs, t)) == Expansion(defs, [t])
  {
    hide Endless, Height;
    assert Expansion(defs, [t][1..]) == [];
    if Active(defs, t) {
      ReplacementLower(defs, t);
      assert Expansion(defs, [t]) == Expansion(defs, defs[t]) + [];
    } else {
      assert Once(defs, t) == [t];
    }
  }

  /** A pass does not change what the list expands to. */
  lemma {:induction false} PassKeeps(defs: Defines, toks: seq<Tok>)
    requires AllEnd(defs, toks)
    ensures AllEnd(defs, Pass(defs, toks)) && Expansion(defs, Pass(defs, toks)) == Expansion(defs, toks)
    decreases |toks|
  {
    hide Endless, Height, Expansion, Once;
    if toks != [] {
      PassKeeps(defs, toks[1..]);
      OnceKeeps(defs, toks[0]);
      ExpansionConcat(defs, Once(defs, toks[0]), Pass(defs, toks[1..]));
      ExpansionConcat(defs, [toks[0]], toks[1..]);
      assert [toks[0]] + toks[1..] == toks;
    }
  }

  /** Where a pass changes nothing, the list is its own expansion. */
  lemma {:induction false} PassDone(defs: Defines, toks: seq<Tok>)
    requires !Changes(defs, toks)
    ensures AllEnd(defs, toks) && Pass(defs, toks) == toks && Expansion(defs, toks) == toks
    decreases |toks|
  {
    hide Endless, Height;
    if toks != [] {
      assert toks[0] in toks;
      EndlessStep(defs, toks[0]);
      forall t | t in toks[1..] ensures !Active(defs, t) {
        assert t in toks;
      }
      PassDone(defs, toks[1..]);
    }
  }

  /** A pass brings the highest macro down. */
  lemma HeightFalls(defs: Defines, toks: seq<Tok>)
    requires AllEnd(defs, toks) && Changes(defs, toks)
    ensures Height(defs, Pass(defs, toks)) < Height(defs, toks)
  {
    hide Endless, Rank, Height, Pass;
    var h := Height(defs, toks);
    HeightAbove(defs, toks, h);
    var c :| c in toks && Active(defs, c);
    MacroRank(defs, c);
    forall u | u in Pass(defs, toks) ensures Rank(defs, u) <= h - 1 {
      FromPass(defs, toks, u);
      var t :| t in toks && u in Once(defs, t);
      MacroRank(defs, u);
      if Active(defs, t) {
        RankFalls(defs, t, u);
      }
    }
    HeightAbove(defs, Pass(defs, toks), h - 1);
  }

  /** A list that has a token of a trap keeps one through every pass. */
  lemma {:induction false} TrapToken(defs: Defines, c: set<Tok>, toks: seq<Tok>, t: Tok, n: nat) returns (u: Tok)
    requires Trap(defs, c) && t in c && t in toks
    ensures u in c && u in Passes(defs, toks, n)
    decreases n
  {
    hide Pass, Once;
    u := t;
    if n > 0 {
      var v := TrapToken(defs, c, toks, t, n - 1);
      assert LeadsInto(defs, v, c);
      u :| u in c && u in defs[v];
      InOnce(defs, v, u);
      IntoPass(defs, Passes(defs, toks, n - 1), v, u);
    }
  }

  lemma InOnce(defs: Defines, t: Tok, u: Tok)
    requires t in defs && u in defs[t]
    ensures u in Once(defs, t)
  {
  }

  lemma {:induction false} IntoPass(defs: Defines, toks: seq<Tok>, t: Tok, u: Tok)
    requires t in toks && u in Once(defs, t)
    ensures u in Pass(defs, toks)
    decreases |toks|
  {
    if t != toks[0] {
      IntoPass(defs, toks[1..], t, u);
    }
  }

  lemma {:induction false} Shift(defs: Defines, toks: seq<Tok>, n: nat)
    ensures Passes(defs, toks, n + 1) == Passes(defs, Pass(defs, toks), n)
    decreases n
  {
    hide Pass;
    if n > 0 {
      Shift(defs, toks, n - 1);
    }
  }

  /** As many passes as the list is high are enough. */
  lemma {:induction false} EnoughPasses(defs: Defines, toks: seq<Tok>) returns (n: nat)
    requires AllEnd(defs, toks)
    ensures n <= Height(defs, toks) && !Changes(defs, Passes(defs, toks, n)) && Passes(defs, toks, n) == Expansion(defs, toks)
    decreases Height(defs, toks)
  {
    hide AllEnd, Height, Changes, Pass, Expansion;
    n := 0;
    if Changes(defs, toks) {
      HeightFalls(defs, toks);
      PassKeeps(defs, toks);
      n := EnoughPasses(defs, Pass(defs, toks));
      Shift(defs, toks, n);
      n := n + 1;
    } else {
      PassDone(defs, toks);
    }
  }

  /** The repeated passes come to an end exactly if no token of the list stands in a trap.  Macros that
      the list does not lead to may be as circular as they like. */
  lemma EndsIff(defs: Defines, toks: seq<Tok>)
    ensures (exists n: nat :: !Changes(defs, Passes(defs, toks, n))) <==> AllEnd(defs, toks)
  {
    hide Changes, Passes;
    if AllEnd(defs, toks) {
      var n := EnoughPasses(defs, toks);
    } else {
      var t :| t in toks && Endless(defs, t);
      var c: set<Tok> :| Trap(defs, c) && t in c;
      forall n: nat ensures Changes(defs, Passes(defs, toks, n)) {
        var u := TrapToken(defs, c, toks, t, n);
        TrapChanges(defs, c, Passes(defs, toks, n), u);
      }
    }
  }

  lemma TrapChanges(defs: Defines, c: set<Tok>, toks: seq<Tok>, u: Tok)
    requires Trap(defs, c) && u in c && u in toks
    ensures Changes(defs, toks)
  {
  }

  // ----- the same as rewriting, one macro at a time -----

  /** One macro somewhere in the list gives way to its replacement. */
  ghost predicate Rewritten(defs: Defines, a: seq<Tok>, b: seq<Tok>) {
    exists i :: 0 <= i < |a| && Active(defs, a[i]) && b == a[..i] + defs[a[i]] + a[i + 1..]
  }

  ghost predicate RewrittenTimes(defs: Defines, a: seq<Tok>, b: seq<Tok>, n: nat)
    decreases n
  {
    if n == 0 then a == b else exists m :: Rewritten(defs, a, m) && RewrittenTimes(defs, m, b, n - 1)
  }

  ghost predicate Rewrites(defs: Defines, a: seq<Tok>, b: seq<Tok>) {
    exists n: nat :: RewrittenTimes(defs, a, b, n)
  }

  lemma RewritesSelf(defs: Defines, a: seq<Tok>)
    ensures Rewrites(defs, a, a)
  {
    assert RewrittenTimes(defs, a, a, 0);
  }

  lemma {:induction false} TimesAdd(defs: Defines, a: seq<Tok>, b: seq<Tok>, c: seq<Tok>, n: nat, m: nat)
    requires RewrittenTimes(defs, a, b, n) && RewrittenTimes(defs, b, c, m)
    ensures RewrittenTimes(defs, a, c, n + m)
    decreases n
  {
    hide Rewritten;
    if n > 0 {
      var x :| Rewritten(defs, a, x) && RewrittenTimes(defs, x, b, n - 1);
      TimesAdd(defs, x, b, c, n - 1, m);
    }
  }

  lemma RewritesOn(defs: Defines, a: seq<Tok>, b: seq<Tok>, c: seq<Tok>)
    requires Rewrites(defs, a, b) && Rewrites(defs, b, c)
    ensures Rewrites(defs, a, c)
  {
    hide RewrittenTimes;
    var n: nat :| RewrittenTimes(defs, a, b, n);
    var m: nat :| RewrittenTimes(defs, b, c, m);
    TimesAdd(defs, a, b, c, n, m);
  }

  lemma OneRewritten(defs: Defines, a: seq<Tok>, i: nat)
    requires i < |a| && Active(defs, a[i])
    ensures Rewrites(defs, a, a[..i] + defs[a[i]] + a[i + 1..])
  {
    var b := a[..i] + defs[a[i]] + a[i + 1..];
    assert Rewritten(defs, a, b) && RewrittenTimes(defs, b, b, 0);
    assert RewrittenTimes(defs, a, b, 1);
  }

  /** A pass replaces what it replaces one after the other. */
  lemma {:induction false} PassRewrites(defs: Defines, done: seq<Tok>, toks: seq<Tok>)
    ensures Rewrites(defs, done + toks, done + Pass(defs, toks))
    decreases |toks|
  {
    hide Rewrites, Active;
    if toks == [] {
      RewritesSelf(defs, done);
      assert done + toks == done && done + Pass(defs, toks) == done;
    } else {
      var a, t, rest := done + toks, toks[0], toks[1..];
      var b := done + Once(defs, t) + rest;
      PassRewrites(defs, done + Once(defs, t), rest);
      FirstRewrites(defs, done, t, rest);
      assert a == done + [t] + rest;
      assert done + Once(defs, t) + Pass(defs, rest) == done + Pass(defs, toks);
      RewritesOn(defs, a, b, done + Pass(defs, toks));
    }
  }

  lemma FirstRewrites(defs: Defines, done: seq<Tok>, t: Tok, rest: seq<Tok>)
    ensures Rewrites(defs, done + [t] + rest, done + Once(defs, t) + rest)
  {
    hide Rewrites;
    var a := done + [t] + rest;
    if Active(defs, t) {
      OneRewritten(defs, a, |done|);
      assert a[..|done|] == done && a[|done| + 1..] == rest;
    } else {
      RewritesSelf(defs, a);
    }
  }

  /** Replacing one macro does not change what the list expands to. */
  lemma RewrittenKeeps(defs: Defines, a: seq<Tok>, b: seq<Tok>)
    requires AllEnd(defs, a) && Rewritten(defs, a, b)
    ensures AllEnd(defs, b) && Expansion(defs, b) == Expansion(defs, a)
  {
    hide AllEnd, Expansion, Once, Height;
    var i :| 0 <= i < |a| && Active(defs, a[i]) && b == a[..i] + defs[a[i]] + a[i + 1..];
    var x, t, y := a[..i], a[i], a[i + 1..];
    assert a == x + [t] + y;
    PartsEnd(defs, x, t, y);
    OnceKeeps(defs, t);
    OnceActive(defs, t);
    ExpansionConcat(defs, x, [t]);
    ExpansionConcat(defs, x + [t], y);
    ExpansionConcat(defs, x, defs[t]);
    ExpansionConcat(defs, x + defs[t], y);
  }

  lemma OnceActive(defs: Defines, t: Tok)
    ensures Active(defs, t) ==> t in defs && Once(defs, t) == defs[t]
  {
  }

  lemma PartsEnd(defs: Defines, x: seq<Tok>, t: Tok, y: seq<Tok>)
    requires AllEnd(defs, x + [t] + y)
    ensures AllEnd(defs, x) && AllEnd(defs, y) && !Endless(defs, t)
  {
    hide Endless;
    var a := x + [t] + y;
    assert t in a;
    forall u | u in x || u in y ensures !Endless(defs, u) {
      assert u in a;
    }
  }

  /** However a list without endless macros is rewritten, and in whatever order: once no macro is left, it
      is the expansion. */
  lemma {:induction false} OneNormalForm(defs: Defines, a: seq<Tok>, b: seq<Tok>, n: nat)
    requires AllEnd(defs, a) && RewrittenTimes(defs, a, b, n) && !Changes(defs, b)
    ensures b == Expansion(defs, a)
    decreases n
  {
    hide AllEnd, Expansion, Rewritten, Changes;
    if n == 0 {
      PassDone(defs, b);
    } else {
      var m :| Rewritten(defs, a, m) && RewrittenTimes(defs, m, b, n - 1);
      RewrittenKeeps(defs, a, m);
      OneNormalForm(defs, m, b, n - 1);
    }
  }

  /** A token of a trap stays, or its replacement brings another. */
  lemma {:induction false} TrapStays(defs: Defines, c: set<Tok>, t: Tok, a: seq<Tok>, b: seq<Tok>, n: nat) returns (u: Tok)
    requires Trap(defs, c) && t in c && t in a && RewrittenTimes(defs, a, b, n)
    ensures u in c && u in b
    decreases n
  {
    u := t;
    if n > 0 {
      var m :| Rewritten(defs, a, m) && RewrittenTimes(defs, m, b, n - 1);
      var v := TrapRewritten(defs, c, t, a, m);
      u := TrapStays(defs, c, v, m, b, n - 1);
    }
  }

  lemma TrapRewritten(defs: Defines, c: set<Tok>, t: Tok, a: seq<Tok>, b: seq<Tok>) returns (u: Tok)
    requires Trap(defs, c) && t in c && t in a && Rewritten(defs, a, b)
    ensures u in c && u in b
  {
    hide LeadsInto;
    var i :| 0 <= i < |a| && Active(defs, a[i]) && b == a[..i] + defs[a[i]] + a[i + 1..];
    assert a == a[..i] + [a[i]] + a[i + 1..];
    u := t;
    if t == a[i] {
      u := Successor(defs, t, c);
    }
  }

  /** A list can be rewritten until no macro is left exactly if no token of it stands in a trap. */
  lemma NormalFormIff(defs: Defines, a: seq<Tok>)
    ensures (exists b :: Rewrites(defs, a, b) && !Changes(defs, b)) <==> AllEnd(defs, a)
  {
    hide Changes, RewrittenTimes, Passes;
    if AllEnd(defs, a) {
      var n := EnoughPasses(defs, a);
      PassesRewrite(defs, a, n);
    } else {
      var t :| t in a && Endless(defs, t);
      var c: set<Tok> :| Trap(defs, c) && t in c;
      forall b | Rewrites(defs, a, b) ensures Changes(defs, b) {
        var n: nat :| RewrittenTimes(defs, a, b, n);
        var u := TrapStays(defs, c, t, a, b, n);
        TrapChanges(defs, c, b, u);
      }
    }
  }

  lemma {:induction false} PassesRewrite(defs: Defines, a: seq<Tok>, n: nat)
    ensures Rewrites(defs, a, Passes(defs, a, n))
    decreases n
  {
    hide Rewrites, Pass;
    if n == 0 {
      RewritesSelf(defs, a);
    } else {
      var b := Passes(defs, a, n - 1);
      PassesRewrite(defs, a, n - 1);
      PassRewrites(defs, [], b);
      assert [] + b == b && [] + Pass(defs, b) == Pass(defs, b);
      RewritesOn(defs, a, b, Pass(defs, b));
    }
  }

  // ----- the code -----

  /** process_token, for a token that is no function-like macro. */
  method ProcessToken(defs: Defines, tokens: seq<Tok>, tok: Tok) returns (out: seq<Tok>, changed: bool)
    ensures out == tokens + Once(defs, tok) && (changed <==> Active(defs, tok))
  {
    out, changed := tokens, false;
    if tok in defs {
      var repl := defs[tok];
      var different := true;
      if |repl| == 1 {
        if repl[0] == tok {
          different := false;
        }
      }
      if different {
        changed := true;
      }
      assert different <==> repl != [tok];
      var j := 0;
      while j < |repl|
        invariant 0 <= j <= |repl| && out == tokens + repl[..j]
      {
        out := out + [repl[j]];
        j := j + 1;
      }
    } else {
      out := out + [tok];
    }
  }

  /** preproc_replace_int */
  method ReplaceInt(defs: Defines, intoks: seq<Tok>) returns (outtoks: seq<Tok>, changed: bool)
    ensures outtoks == Pass(defs, intoks) && (changed <==> Changes(defs, intoks))
  {
    hide Changes, Pass, Once, Active;
    outtoks, changed := [], false;
    var i := 0;
    assert intoks[0..] == intoks && intoks[..0] == [];
    NothingChanges(defs);
    while i < |intoks|
      invariant 0 <= i <= |intoks| && outtoks + Pass(defs, intoks[i..]) == Pass(defs, intoks)
      invariant changed <==> Changes(defs, intoks[..i])
    {
      var c;
      outtoks, c := ProcessToken(defs, outtoks, intoks[i]);
      assert intoks[..i + 1] == intoks[..i] + [intoks[i]];
      PassStep(defs, intoks, i);
      ChangesOne(defs, intoks[..i], intoks[i]);
      changed := changed || c;
      i := i + 1;
    }
    assert intoks[..i] == intoks && intoks[i..] == [];
    PassNothing(defs);
  }

  lemma PassNothing(defs: Defines)
    ensures Pass(defs, []) == []
  {
  }

  lemma PassStep(defs: Defines, toks: seq<Tok>, i: nat)
    requires i < |toks|
    ensures Pass(defs, toks[i..]) == Once(defs, toks[i]) + Pass(defs, toks[i + 1..])
  {
    assert toks[i..][1..] == toks[i + 1..];
  }

  lemma NothingChanges(defs: Defines)
    ensures !Changes(defs, [])
  {
  }

  lemma ChangesOne(defs: Defines, toks: seq<Tok>, t: Tok)
    ensures Changes(defs, toks + [t]) <==> Changes(defs, toks) || Active(defs, t)
  {
    assert t in toks + [t];
    assert forall u :: u in toks ==> u in toks + [t];
    assert forall u :: u in toks + [t] ==> u in toks || u == t;
  }

  /** preproc_replace: where the repeated passes come to an end at all, what is left is every token's
      expansion. */
  method Replace(defs: Defines, intoks0: seq<Tok>) returns (intoks: seq<Tok>)
    requires AllEnd(defs, intoks0)
    ensures intoks == Expansion(defs, intoks0) && Rewrites(defs, intoks0, intoks) && !Changes(defs, intoks)
  {
    hide AllEnd, Changes, Height, Pass, Expansion, Rewrites;
    var changed := true;
    intoks := intoks0;
    RewritesSelf(defs, intoks0);
    while changed
      invariant AllEnd(defs, intoks) && Expansion(defs, intoks) == Expansion(defs, intoks0)
      invariant Rewrites(defs, intoks0, intoks)
      invariant !changed ==> !Changes(defs, intoks)
      decreases Height(defs, intoks), changed
    {
      var outtoks;
      outtoks, changed := ReplaceInt(defs, intoks);
      PassKeeps(defs, intoks);
      PassRewrites(defs, [], intoks);
      assert [] + intoks == intoks && [] + outtoks == outtoks;
      RewritesOn(defs, intoks0, intoks, outtoks);
      if changed {
        HeightFalls(defs, intoks);
      } else {
        PassDone(defs, intoks);
      }
      intoks := outtoks;
    }
    PassDone(defs, intoks);
  }
}
