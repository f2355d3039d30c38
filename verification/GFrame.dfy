/** How an activation of the meaning of a program is laid out on the processor's stack, and how single
    stack operations keep the two in step. */
module GFrame {
  import opened Options
  import opened GSyntax
  import opened GCompile
  import opened GMachine
  import opened GSemantics

  /** The word x is a rendering of v; an undefined value may be any word. */
  predicate Refines(v: Val, x: int) {
    v.Word? ==> v.value == x
  }

  ghost predicate Agree(st: Store, mem: Mem) {
    forall a :: a in st ==> Refines(st[a], Load(mem, a))
  }

  /** The program has no cell in [lo, hi). */
  ghost predicate NoKeys(st: Store, lo: int, hi: int) {
    forall a :: lo <= a < hi ==> a !in st
  }

  /** On the part of the stack from lo up, the same cells belong to the program, and the words of the
      other cells (return addresses, saved frames, pending values) are as they were. */
  ghost predicate Kept(w: World, lo: int, st: Store, mem: Mem, st': Store, mem': Mem) {
    forall a :: lo <= a < w.top ==> (a in st <==> a in st') && (a !in st ==> Load(mem', a) == Load(mem, a))
  }

  ghost predicate TempsHold(fr: Frame, mem: Mem) {
    forall i :: 0 <= i < |fr.temps| ==> Refines(fr.temps[i], Load(mem, Cell(fr, |fr.names| + i)))
  }

  /** The last argument lies just above the return address. */
  ghost predicate ArgsHold(fr: Frame, mem: Mem) {
    forall i :: 0 <= i < |fr.args| ==> Refines(fr.args[i], Load(mem, fr.bp + 8 + 4 * (|fr.args| - 1 - i)))
  }

  /** The processor's stack is the frame: in particular esp == ebp - 4 * depth. */
  ghost predicate Laid(w: World, fr: Frame, st: Store, m: M) {
    && m.ebp == fr.bp && m.esp == fr.bp - 4 * Depth(fr)
    && w.limit <= m.esp && fr.bp + 8 + 4 * |fr.args| <= w.top
    && Agree(st, m.mem) && TempsHold(fr, m.mem) && ArgsHold(fr, m.mem)
    && NoKeys(st, w.limit, fr.bp - 4 * |fr.names|) && NoKeys(st, fr.bp, fr.bp + 8 + 4 * |fr.args|)
  }

  lemma KeptSelf(w: World, lo: int, st: Store, mem: Mem)
    ensures Kept(w, lo, st, mem, st, mem)
  {
  }

  lemma KeptTrans(w: World, lo: int, st: Store, mem: Mem, st1: Store, mem1: Mem, st2: Store, mem2: Mem)
    requires Kept(w, lo, st, mem, st1, mem1) && Kept(w, lo, st1, mem1, st2, mem2)
    ensures Kept(w, lo, st, mem, st2, mem2)
  {
    forall a | lo <= a < w.top ensures (a in st <==> a in st2) && (a !in st ==> Load(mem2, a) == Load(mem, a)) {
      assert a in st <==> a in st1;
    }
  }

  lemma KeptAbove(w: World, lo: int, hi: int, st: Store, mem: Mem, st': Store, mem': Mem)
    requires Kept(w, lo, st, mem, st', mem') && lo <= hi
    ensures Kept(w, hi, st, mem, st', mem')
  {
  }

  /** A cell that is not the program's keeps its word. */
  lemma KeptAt(w: World, lo: int, st: Store, mem: Mem, st': Store, mem': Mem, a: int)
    requires Kept(w, lo, st, mem, st', mem') && lo <= a < w.top && a !in st
    ensures a !in st' && Load(mem', a) == Load(mem, a)
  {
  }

  lemma KeptNoKeys(w: World, lo: int, st: Store, mem: Mem, st': Store, mem': Mem, hi: int)
    requires Kept(w, lo, st, mem, st', mem') && NoKeys(st, lo, hi) && hi <= w.top
    ensures NoKeys(st', lo, hi)
  {
    forall a | lo <= a < hi ensures a !in st' {
      assert a in st <==> a in st';
    }
  }

  /** The words that a function must leave alone for its return: the saved frame and the address. */
  lemma LinkWords(w: World, fr: Frame, st: Store, m: M)
    requires Laid(w, fr, st, m)
    ensures fr.bp !in st && fr.bp + 4 !in st && fr.bp + 4 < w.top
  {
  }

  // ----- moves of the stack -----

  /** One more value: the word below esp is outside the program's memory. */
  lemma LaidPush(w: World, fr: Frame, st: Store, m: M, v: Val, m': M)
    requires Laid(w, fr, st, m) && Room(w, fr, 1)
    requires m'.ebp == m.ebp && m'.esp == m.esp - 4 && (exists x :: Refines(v, x) && m'.mem == m.mem[m.esp - 4 := x])
    ensures Laid(w, fr.(temps := fr.temps + [v]), st, m')
    ensures Kept(w, fr.bp - 4 * Depth(fr), st, m.mem, st, m'.mem) && Kept(w, fr.bp, st, m.mem, st, m'.mem)
  {
    var fr' := fr.(temps := fr.temps + [v]);
    var x :| Refines(v, x) && m'.mem == m.mem[m.esp - 4 := x];
    assert m.esp - 4 !in st;
    assert Agree(st, m'.mem);
    forall i | 0 <= i < |fr'.temps| ensures Refines(fr'.temps[i], Load(m'.mem, Cell(fr', |fr'.names| + i))) {
      if i < |fr.temps| {
        assert Cell(fr', |fr'.names| + i) == Cell(fr, |fr.names| + i);
      }
    }
    assert ArgsHold(fr', m'.mem);
  }

  /** Fewer values. */
  lemma LaidDrop(w: World, fr: Frame, st: Store, m: M, k: nat, m': M)
    requires Laid(w, fr, st, m) && k <= |fr.temps|
    requires m'.ebp == m.ebp && m'.esp == fr.bp - 4 * (|fr.names| + k) && m'.mem == m.mem
    ensures Laid(w, fr.(temps := fr.temps[..k]), st, m')
  {
    var fr' := fr.(temps := fr.temps[..k]);
    forall i | 0 <= i < |fr'.temps| ensures Refines(fr'.temps[i], Load(m'.mem, Cell(fr', |fr'.names| + i))) {
      assert Cell(fr', |fr'.names| + i) == Cell(fr, |fr.names| + i);
    }
    assert ArgsHold(fr', m'.mem);
  }

  lemma LaidTop(w: World, fr: Frame, st: Store, m: M)
    requires Laid(w, fr, st, m) && fr.temps != []
    ensures Refines(fr.temps[|fr.temps| - 1], Load(m.mem, m.esp))
  {
    assert Cell(fr, |fr.names| + (|fr.temps| - 1)) == m.esp;
  }

  /** The i-th of the values, by its distance from esp. */
  lemma LaidTemp(w: World, fr: Frame, st: Store, m: M, i: nat)
    requires Laid(w, fr, st, m) && i < |fr.temps|
    ensures Refines(fr.temps[i], Load(m.mem, m.esp + 4 * (|fr.temps| - 1 - i)))
  {
    assert Cell(fr, |fr.names| + i) == m.esp + 4 * (|fr.temps| - 1 - i);
  }

  /** The stack pointer and nothing else decides, with the frame, whether the frame is laid out. */
  lemma LaidSame(w: World, fr: Frame, st: Store, m: M, m': M)
    requires Laid(w, fr, st, m) && m'.ebp == m.ebp && m'.esp == m.esp && m'.mem == m.mem
    ensures Laid(w, fr, st, m')
  {
  }

  /** A new local, not initialised. */
  lemma LaidLocal(w: World, fr: Frame, st: Store, m: M, name: string, m': M)
    requires Laid(w, fr, st, m) && Room(w, fr, 1) && fr.temps == []
    requires m'.ebp == m.ebp && m'.esp == m.esp - 4 && m'.mem == m.mem
    ensures var st' := st[Cell(fr, |fr.names|) := Undef];
            Laid(w, fr.(names := fr.names + [name]), st', m') && Kept(w, fr.bp, st, m.mem, st', m'.mem)
  {
    var fr' := fr.(names := fr.names + [name]);
    var st' := st[Cell(fr, |fr.names|) := Undef];
    assert Agree(st', m'.mem);
    assert ArgsHold(fr', m'.mem);
    assert NoKeys(st', w.limit, fr.bp - 4 * |fr'.names|);
    assert NoKeys(st', fr.bp, fr.bp + 8 + 4 * |fr.args|);
  }

  /** Locals go away, the values stay below nothing: only allowed when there are none, or no local goes. */
  lemma LaidForget(w: World, fr: Frame, st: Store, m: M, k: nat, m': M)
    requires Laid(w, fr, st, m) && k <= |fr.names| && (fr.temps == [] || k == |fr.names|)
    requires m'.ebp == m.ebp && m'.esp == fr.bp - 4 * (k + |fr.temps|) && m'.mem == m.mem
    ensures var st' := Forget(st, Cell(fr, |fr.names| - 1), Cell(fr, k - 1));
            Laid(w, fr.(names := fr.names[..k]), st', m') && Kept(w, fr.bp, st, m.mem, st', m'.mem)
  {
    var st' := Forget(st, Cell(fr, |fr.names| - 1), Cell(fr, k - 1));
    var fr' := fr.(names := fr.names[..k]);
    assert Agree(st', m'.mem);
    forall i | 0 <= i < |fr'.temps| ensures Refines(fr'.temps[i], Load(m'.mem, Cell(fr', |fr'.names| + i))) {
      assert Cell(fr', |fr'.names| + i) == Cell(fr, |fr.names| + i);
    }
    assert ArgsHold(fr', m'.mem);
    assert NoKeys(st', w.limit, fr.bp - 4 * |fr'.names|);
  }

  /** What a call leaves of its caller's frame: everything. */
  lemma LaidKept(w: World, fr: Frame, st: Store, m: M, st': Store, m': M)
    requires Laid(w, fr, st, m) && Kept(w, m.esp, st, m.mem, st', m'.mem)
    requires Agree(st', m'.mem) && NoKeys(st', w.limit, m.esp) && m'.esp == m.esp && m'.ebp == m.ebp
    ensures Laid(w, fr, st', m')
  {
    forall i | 0 <= i < |fr.temps| ensures Refines(fr.temps[i], Load(m'.mem, Cell(fr, |fr.names| + i))) {
      KeptAt(w, m.esp, st, m.mem, st', m'.mem, Cell(fr, |fr.names| + i));
    }
    forall i | 0 <= i < |fr.args| ensures Refines(fr.args[i], Load(m'.mem, fr.bp + 8 + 4 * (|fr.args| - 1 - i))) {
      KeptAt(w, m.esp, st, m.mem, st', m'.mem, fr.bp + 8 + 4 * (|fr.args| - 1 - i));
    }
    KeptNoKeys(w, m.esp, st, m.mem, st', m'.mem, fr.bp - 4 * |fr.names|);
    KeptAbove(w, m.esp, fr.bp, st, m.mem, st', m'.mem);
    KeptNoKeys(w, fr.bp, st, m.mem, st', m'.mem, fr.bp + 8 + 4 * |fr.args|);
  }

  /** The frame of a function that has just saved its caller's: the caller's values are its arguments. */
  lemma LaidCallee(w: World, fr: Frame, st: Store, m: M, n: nat, ret: int, m': M)
    requires Laid(w, fr, st, m) && n <= |fr.temps| && Room(w, fr, 2)
    requires m'.mem == m.mem[m.esp - 4 := ret][m.esp - 8 := m.ebp] && m'.esp == m.esp - 8 && m'.ebp == m.esp - 8
    ensures Laid(w, Frame(m.esp - 8, fr.temps[|fr.temps| - n..], [], []), st, m')
    ensures Kept(w, m.esp, st, m.mem, st, m'.mem)
    ensures Load(m'.mem, m'.ebp) == m.ebp && Load(m'.mem, m'.ebp + 4) == ret
  {
    var args := fr.temps[|fr.temps| - n..];
    var fr' := Frame(m.esp - 8, args, [], []);
    forall i | 0 <= i < |args| ensures Refines(args[i], Load(m'.mem, fr'.bp + 8 + 4 * (|args| - 1 - i))) {
      LaidTemp(w, fr, st, m, |fr.temps| - n + i);
    }
    forall a | a in st ensures Refines(st[a], Load(m'.mem, a)) {
      assert Refines(st[a], Load(m.mem, a));
    }
    assert TempsHold(fr', m'.mem);
    assert NoKeys(st, w.limit, fr'.bp - 4 * |fr'.names|);
    assert NoKeys(st, fr'.bp, fr'.bp + 8 + 4 * |args|);
  }
}
