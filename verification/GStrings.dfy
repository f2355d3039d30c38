/** What lies where the address of a string literal leads: in the loaded code of a program, the bytes of
    the literal, and a zero behind them. */
module GStrings {
  import opened Options
  import opened GSyntax
  import opened GCompile
  import opened GTwoPass
  import opened GMachine

  // ----- the strings of a program -----

  predicate InPushes(x: Push, ps: Pushes) {
    ps.Then? && (ps.head == x || InPushes(x, ps.tail))
  }

  predicate InItem(x: Push, item: Item)
    decreases item, 0
  {
    match item
    case Expr(p) => p == x
    case If(guard, _, thn, els) => InPushes(x, guard) || InBlock(x, thn) || InElse(x, els)
    case While(_, _, guard, body) => InPushes(x, guard) || InBlock(x, body)
    case _ => false
  }

  predicate InElse(x: Push, els: Else)
    decreases els, 0
  {
    els.ElseBlock? && InBlock(x, els.block)
  }

  predicate InBlock(x: Push, b: Block)
    decreases b, 0
  {
    b.Cons? && (InItem(x, b.head) || InBlock(x, b.tail))
  }

  predicate InProgram(x: Push, p: Program) {
    p.Decls? && ((p.head.Fun? && InBlock(x, p.head.body)) || InProgram(x, p.tail))
  }

  // ----- where they lie -----

  /** These bytes lie in consecutive cells from a on. */
  ghost predicate BytesAt(img: Image, a: int, bytes: seq<int>) {
    forall k :: 0 <= k < |bytes| ==> ByteAt(img, a + k, bytes[k])
  }

  predicate ByteAt(img: Image, a: int, b: int) {
    a in img.code && img.code[a] == Byte(b)
  }

  /** The address that pushing x pushes leads to its bytes and a zero. */
  ghost predicate StringAt(img: Image, table: Table, x: Push)
    requires x.Str?
  {
    Label(x.strLab) in table && BytesAt(img, table[Label(x.strLab)].loc, x.bytes + [0])
  }

  lemma {:induction false} BytesLoaded(img: Image, loc: int, bytes: seq<int>)
    requires CodeAt(img, loc, DataBytes(bytes))
    ensures BytesAt(img, loc, bytes)
    decreases |bytes|
  {
    if bytes != [] {
      var code := DataBytes(bytes);
      assert code[1..] == DataBytes(bytes[1..]);
      BytesLoaded(img, loc + 1, bytes[1..]);
      forall k | 0 <= k < |bytes| ensures ByteAt(img, loc + k, bytes[k]) {
        if k == 0 {
          assert code[0] == Byte(bytes[0]);
        } else {
          assert bytes[1..][k - 1] == bytes[k] && ByteAt(img, loc + 1 + (k - 1), bytes[1..][k - 1]);
        }
      }
    }
  }

  /** Behind the jump over it. */
  lemma StringLoaded(img: Image, x: Push, s: S)
    requires x.Str? && s.stage == 1 && RunPush(x, s).Some? && CodeAt(img, s.loc, RunPush(x, s).value.code)
    ensures StringAt(img, s.table, x)
  {
    hide CodeAt, Sizes, BytesAt;
    var jump := [Jmp(LabelLoc(s, x.jmpLab).value - (s.loc + 5))];
    var s1 := Emit(s, jump);
    var d := RunData(x.bytes, x.strLab, x.jmpLab, s1).value;
    assert d.code == DataBytes(x.bytes + [0]) && s.table[Label(x.strLab)].loc == s1.loc;
    var push := RunPush(x, s).value.code[|jump| + |d.code|..];
    assert RunPush(x, s).value.code == jump + d.code + push;
    CodeAtSplit3(img, s.loc, jump, d.code, push);
    BytesLoaded(img, s1.loc, x.bytes + [0]);
  }

  lemma {:induction false} PushesLoaded(img: Image, x: Push, ps: Pushes, s: S)
    requires x.Str? && s.stage == 1 && InPushes(x, ps) && RunPushes(ps, s).Some? && CodeAt(img, s.loc, RunPushes(ps, s).value.code)
    ensures StringAt(img, s.table, x)
    decreases ps
  {
    hide CodeAt, RunPush, StringAt;
    var o := RunPush(ps.head, s).value;
    PushFacts(ps.head, s);
    CodeAtSplit(img, s.loc, o.code, RunPushes(ps.tail, o.s).value.code);
    if ps.head == x {
      StringLoaded(img, x, s);
    } else {
      PushesLoaded(img, x, ps.tail, o.s);
    }
  }

  lemma GuardLoaded(img: Image, x: Push, guard: Pushes, target: nat, s: S)
    requires x.Str? && s.stage == 1 && InPushes(x, guard)
    requires RunGuard(guard, target, s).Some? && CodeAt(img, s.loc, RunGuard(guard, target, s).value.code)
    ensures StringAt(img, s.table, x)
  {
    hide CodeAt, RunPushes, RunBranch, StringAt;
    var o := RunPushes(guard, s).value;
    CodeAtSplit(img, s.loc, o.code, RunBranch(target, o.s).value.code);
    PushesLoaded(img, x, guard, s);
  }

  lemma {:induction false} ItemLoaded(img: Image, x: Push, item: Item, s: S)
    requires x.Str? && s.stage == 1 && InItem(x, item) && RunItem(item, s).Some? && CodeAt(img, s.loc, RunItem(item, s).value.code)
    ensures StringAt(img, s.table, x)
    decreases item, 1
  {
    hide CodeAt, RunPush, RunGuard, RunBlock, RunElse, StringAt;
    match item
    case Expr(_) => StringLoaded(img, x, s);
    case If(guard, elseLab, thn, els) =>
      var g := RunGuard(guard, elseLab, s).value;
      var t := RunBlock(thn, g.s).value;
      GuardFacts(guard, elseLab, s);
      BlockFacts(thn, g.s);
      CodeAtSplit3(img, s.loc, g.code, t.code, RunElse(elseLab, els, t.s).value.code);
      if InPushes(x, guard) {
        GuardLoaded(img, x, guard, elseLab, s);
      } else if InBlock(x, thn) {
        BlockLoaded(img, x, thn, g.s);
      } else {
        ElseLoaded(img, x, elseLab, els, t.s);
      }
    case While(_, _, _, _) => WhileLoaded(img, x, item, s);
  }

  lemma {:induction false} WhileLoaded(img: Image, x: Push, item: Item, s: S)
    requires item.While? && x.Str? && s.stage == 1 && InItem(x, item)
    requires RunItem(item, s).Some? && CodeAt(img, s.loc, RunItem(item, s).value.code)
    ensures StringAt(img, s.table, x)
    decreases item, 0
  {
    hide CodeAt, RunGuard, RunBlock, StringAt, Sizes;
    var While(restartLab, endLab, guard, body) := item;
    var g := RunGuard(guard, endLab, s).value;
    var n := NoteLoop(s, g.s);
    var b := RunBlock(body, n).value;
    GuardFacts(guard, endLab, s);
    CodeAtSplit3(img, s.loc, g.code, b.code, [Jmp(LabelLoc(b.s, restartLab).value - (b.s.loc + 5))]);
    if InPushes(x, guard) {
      GuardLoaded(img, x, guard, endLab, s);
    } else {
      BlockLoaded(img, x, body, n);
    }
  }

  lemma {:induction false} ElseLoaded(img: Image, x: Push, elseLab: nat, els: Else, s: S)
    requires x.Str? && s.stage == 1 && InElse(x, els)
    requires RunElse(elseLab, els, s).Some? && CodeAt(img, s.loc, RunElse(elseLab, els, s).value.code)
    ensures StringAt(img, s.table, x)
    decreases els, 2
  {
    hide CodeAt, RunBlock, StringAt, Sizes;
    var jump := [Jmp(LabelLoc(s, els.fiLab).value - (s.loc + 5))];
    var s1 := Emit(s, jump);
    CodeAtSplit(img, s.loc, jump, RunBlock(els.block, s1).value.code);
    BlockLoaded(img, x, els.block, s1);
  }

  lemma {:induction false} BlockLoaded(img: Image, x: Push, b: Block, s: S)
    requires x.Str? && s.stage == 1 && InBlock(x, b) && RunBlock(b, s).Some? && CodeAt(img, s.loc, RunBlock(b, s).value.code)
    ensures StringAt(img, s.table, x)
    decreases b, 1
  {
    hide CodeAt, RunItems, InBlock, StringAt;
    var o := RunItems(b, s).value;
    CodeAtSplit(img, s.loc, o.code, [AddEsp(4 * (|o.s.stack| - |s.stack|))]);
    ItemsLoaded(img, x, b, s);
  }

  lemma {:induction false} ItemsLoaded(img: Image, x: Push, b: Block, s: S)
    requires x.Str? && s.stage == 1 && InBlock(x, b) && RunItems(b, s).Some? && CodeAt(img, s.loc, RunItems(b, s).value.code)
    ensures StringAt(img, s.table, x)
    decreases b, 0
  {
    hide CodeAt, RunItem, InItem, StringAt;
    var o := RunItem(b.head, s).value;
    ItemFacts(b.head, s);
    CodeAtSplit(img, s.loc, o.code, RunItems(b.tail, o.s).value.code);
    if InItem(x, b.head) {
      ItemLoaded(img, x, b.head, s);
    } else {
      ItemsLoaded(img, x, b.tail, o.s);
    }
  }

  lemma FunctionLoaded(img: Image, x: Push, d: Decl, s: S)
    requires x.Str? && d.Fun? && s.stage == 1 && InBlock(x, d.body) && RunDecl(d, s).Some? && CodeAt(img, s.loc, RunDecl(d, s).value.code)
    ensures StringAt(img, s.table, x)
  {
    hide CodeAt, RunBlock, InBlock, StringAt, Sizes;
    var s1 := Fix(s, d.name, s.loc, d.arity).value;
    assert s1.table == s.table by { assert s.table[Named(d.name) := s.table[Named(d.name)]] == s.table; }
    var s2 := Emit(s1, [PushEbp, MovEbpEsp]);
    CodeAtSplit3(img, s.loc, [PushEbp, MovEbpEsp], RunBlock(d.body, s2).value.code, [PopEbp, Return]);
    BlockLoaded(img, x, d.body, s2);
  }

  lemma {:induction false} StringsLoaded(img: Image, x: Push, p: Program, s: S)
    requires x.Str? && s.stage == 1 && InProgram(x, p) && RunProgram(p, s).Some? && CodeAt(img, s.loc, RunProgram(p, s).value.code)
    ensures StringAt(img, s.table, x)
    decreases p
  {
    hide CodeAt, RunDecl, InBlock, StringAt;
    var o := RunDecl(p.head, s).value;
    DeclFacts(p.head, s);
    CodeAtSplit(img, s.loc, o.code, RunProgram(p.tail, o.s).value.code);
    if p.head.Fun? && InBlock(x, p.head.body) {
      FunctionLoaded(img, x, p.head, s);
    } else {
      StringsLoaded(img, x, p.tail, o.s);
    }
  }

  /** In the loaded code of a program that the second pass has accepted, the address pushed for each string
      literal leads to the bytes of its token, in consecutive cells, and a zero behind them. */
  lemma StringsInPlace(p: Program, start: nat, table: Table, img: Image, x: Push)
    requires RunPass(p, 1, start, table).Some? && CodeAt(img, start, RunPass(p, 1, start, table).value.code)
    requires x.Str? && InProgram(x, p)
    ensures StringAt(img, table, x)
  {
    hide RunProgram, CodeAt, StringAt, InProgram;
    StringsLoaded(img, x, p, S(1, [], 0, start, table, true));
  }
}
