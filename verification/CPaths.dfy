/** How code that the C compiler emits for statements moves the stack pointer: only what concerns esp and
    the labels, with everything else left out (asmg/c_compile.g).  A position is written as the depth of
    the stack below ebp; the source keeps its negative. */
module CPaths {
  import opened Options

  /** Labels of statements.  AtValue marks the dispatch of a switch, where the value that is switched on
      still lies on the stack, in 8 bytes. */
  datatype Label = At(id: nat) | AtValue(id: nat)

  /** What a conditional jump decides by: the value of an expression, the constant 1 that stands for a guard
      left out, or whether the value of a switch equals that of a case.  Beside an expression stands how deep the
      compiler takes the stack to be where its code starts (lctx_stack_pos). */
  datatype Test = Guard(id: nat, depth: nat) | One | Equals

  datatype Instr =
    | Grow(bytes: nat)                // sub esp, n, or pushes
    | Shrink(bytes: nat)              // add esp, n, or pops
    | Act(id: nat, depth: nat)      // the code of an expression, which leaves the stack as it was
    | Mark(lab: Label)
    | Jump(lab: Label, n: int)  // add esp, n; jmp
    | JumpIfZero(lab: Label, n: int, test: Test)   // the test; add esp, n without touching the flags; jz
    | Leave                       // the epilogue

  /** The recorded positions of labels. */
  type Positions = seq<Option<nat>>

  /** The depth that a label is to be reached with. */
  function Expected(pos: Positions, l: Label): Option<int> {
    if l.id < |pos| && pos[l.id].Some? then Some(pos[l.id].value + if l.AtValue? then 8 else 0) else None
  }

  // ----- paths -----

  /** From instruction i at depth d, control can go on at j with depth e. */
  predicate Step(code: seq<Instr>, i: nat, d: int, j: nat, e: int) {
    i < |code| && j <= |code| &&
    match code[i]
    case Grow(n) => j == i + 1 && e == d + n
    case Shrink(n) => j == i + 1 && e == d - n
    case Act(_, _) => j == i + 1 && e == d
    case Mark(_) => j == i + 1 && e == d
    case Jump(l, n) => e == d - n && j < |code| && code[j] == Mark(l)
    case JumpIfZero(l, n, test) => e == d - n && (j == i + 1 || (test != One && j < |code| && code[j] == Mark(l)))
    case Leave => false
  }

  /** A point of a path: about to execute an instruction, at some depth. */
  datatype Point = Point(i: nat, depth: int)

  /** A path from the start of the code, at depth 0. */
  predicate Path(code: seq<Instr>, run: seq<Point>) {
    && run != [] && run[0] == Point(0, 0)
    && forall k :: 0 <= k < |run| - 1 ==> Step(code, run[k].i, run[k].depth, run[k + 1].i, run[k + 1].depth)
  }

  /** A label is reached, or jumped to, with its recorded depth, an expression evaluated with the stack as deep
      as the compiler takes it to be, and the function left with an empty stack. */
  predicate GoodAt(code: seq<Instr>, pos: Positions, p: Point) {
    p.i < |code| ==>
      match code[p.i]
      case Mark(l) => Expected(pos, l) == Some(p.depth)
      case Jump(l, n) => Expected(pos, l) == Some(p.depth - n)
      case JumpIfZero(l, n, test) => Expected(pos, l) == Some(p.depth - n) && (test.Guard? ==> test.depth == p.depth)
      case Leave => p.depth == 0
      case Grow(_) => true
      case Shrink(_) => true
      case Act(_, depth) => depth == p.depth
  }

  /** So it is on every path. */
  ghost predicate Disciplined(code: seq<Instr>, pos: Positions) {
    forall run: seq<Point>, k: nat :: Path(code, run) && k < |run| ==> GoodAt(code, pos, run[k])
  }

  /** Control can come there. */
  ghost predicate OnPath(code: seq<Instr>, i: nat) {
    exists run: seq<Point> :: run != [] && Path(code, run) && run[|run| - 1].i == i
  }

  // ----- one walk through the code -----

  /** What is known at a place of the code: the depth, or that control does not come from above. */
  datatype Flow = Live(depth: int) | Dead

  /** Past one instruction, as if a conditional jump moved the stack only when it is taken; None if a label
      would be reached, or an expression evaluated, at the wrong depth. */
  function Past(i: Instr, pos: Positions, f: Flow): Option<Flow> {
    match f
    case Dead =>
      if i.Mark? then
        (match Expected(pos, i.lab)
         case None => None
         case Some(d) => Some(Live(d)))
      else Some(Dead)
    case Live(d) =>
      match i
      case Grow(n) => Some(Live(d + n))
      case Shrink(n) => Some(Live(d - n))
      case Act(_, depth) => if depth == d then Some(Live(d)) else None
      case Mark(l) => if Expected(pos, l) == Some(d) then Some(Live(d)) else None
      case Jump(l, n) => if Expected(pos, l) == Some(d - n) then Some(Dead) else None
      case JumpIfZero(l, n, test) =>
        if Expected(pos, l) == Some(d - n) && (test.Guard? ==> test.depth == d) then Some(Live(d)) else None
      case Leave => if d == 0 then Some(Dead) else None
  }

  function Walk(code: seq<Instr>, pos: Positions, f: Flow): Option<Flow>
    decreases |code|
  {
    if code == [] then Some(f)
    else
      match Past(code[0], pos, f)
      case None => None
      case Some(g) => Walk(code[1..], pos, g)
  }

  lemma {:induction false} WalkConcat(a: seq<Instr>, b: seq<Instr>, pos: Positions, f: Flow)
    ensures Walk(a + b, pos, f)
         == match Walk(a, pos, f)
            case None => None
            case Some(g) => Walk(b, pos, g)
    decreases |a|
  {
    if a == [] {
      assert a + b == b;
    } else {
      assert (a + b)[1..] == a[1..] + b;
      match Past(a[0], pos, f)
      case None =>
      case Some(g) => WalkConcat(a[1..], b, pos, g);
    }
  }

  lemma WalkOne(i: Instr, pos: Positions, f: Flow)
    ensures Walk([i], pos, f) == Past(i, pos, f)
  {
    assert [i][1..] == [];
  }

  lemma WalkPrefix(code: seq<Instr>, k: nat, pos: Positions, f: Flow)
    requires k <= |code| && Walk(code, pos, f).Some?
    ensures Walk(code[..k], pos, f).Some?
    ensures k < |code| ==> Walk(code[..k + 1], pos, f) == Past(code[k], pos, Walk(code[..k], pos, f).value)
  {
    hide Walk, Past;
    assert code == code[..k] + code[k..];
    WalkConcat(code[..k], code[k..], pos, f);
    if k < |code| {
      assert code[..k + 1] == code[..k] + [code[k]];
      WalkConcat(code[..k], [code[k]], pos, f);
      WalkOne(code[k], pos, Walk(code[..k], pos, f).value);
    }
  }

  /** Where control can be, and how deep: as the walk says, or at a label with the depth recorded for it. */
  ghost predicate Known(code: seq<Instr>, pos: Positions, i: nat, d: int) {
    && i <= |code|
    && (Walk(code[..i], pos, Live(0)) == Some(Live(d))
        || (i < |code| && code[i].Mark? && Expected(pos, code[i].lab) == Some(d)))
  }

  lemma KnownStep(code: seq<Instr>, pos: Positions, i: nat, d: int, j: nat, e: int)
    requires Walk(code, pos, Live(0)).Some? && Known(code, pos, i, d) && Step(code, i, d, j, e)
    requires code[i].JumpIfZero? ==> code[i].n == 0
    ensures Known(code, pos, j, e)
  {
    hide Walk;
    WalkPrefix(code, i, pos, Live(0));
    WalkPrefix(code, i + 1, pos, Live(0));
  }

  lemma KnownGood(code: seq<Instr>, pos: Positions, i: nat, d: int)
    requires Walk(code, pos, Live(0)).Some? && Known(code, pos, i, d)
    ensures GoodAt(code, pos, Point(i, d))
  {
    hide Walk;
    if i < |code| {
      WalkPrefix(code, i, pos, Live(0));
      WalkPrefix(code, i + 1, pos, Live(0));
    }
  }

  lemma {:induction false} PathKnown(code: seq<Instr>, pos: Positions, run: seq<Point>, k: nat)
    requires Walk(code, pos, Live(0)).Some? && LevelJumps(code) && Path(code, run) && k < |run|
    ensures Known(code, pos, run[k].i, run[k].depth)
    decreases k
  {
    hide Known, Walk, LevelJumps;
    if k == 0 {
      StartKnown(code, pos);
    } else {
      PathKnown(code, pos, run, k - 1);
      assert Step(code, run[k - 1].i, run[k - 1].depth, run[k - 1 + 1].i, run[k - 1 + 1].depth);
      LevelThere(code, run, k - 1);
      KnownStep(code, pos, run[k - 1].i, run[k - 1].depth, run[k].i, run[k].depth);
    }
  }

  lemma StartKnown(code: seq<Instr>, pos: Positions)
    ensures Known(code, pos, 0, 0)
  {
    assert code[..0] == [];
  }

  /** The conditional jumps that control can come to do not move the stack. */
  ghost predicate LevelJumps(code: seq<Instr>) {
    forall i :: 0 <= i < |code| && code[i].JumpIfZero? && OnPath(code, i) ==> code[i].n == 0
  }

  lemma LevelThere(code: seq<Instr>, run: seq<Point>, k: nat)
    requires LevelJumps(code) && Path(code, run) && k < |run| && run[k].i < |code|
    ensures code[run[k].i].JumpIfZero? ==> code[run[k].i].n == 0
  {
    hide Path;
    PathPrefix(code, run, k);
    assert run[..k + 1][k].i == run[k].i;
  }

  lemma PathPrefix(code: seq<Instr>, run: seq<Point>, k: nat)
    requires Path(code, run) && k < |run|
    ensures Path(code, run[..k + 1])
  {
    hide Step;
    var r := run[..k + 1];
    forall j | 0 <= j < |r| - 1 ensures Step(code, r[j].i, r[j].depth, r[j + 1].i, r[j + 1].depth) {
      assert Step(code, run[j].i, run[j].depth, run[j + 1].i, run[j + 1].depth);
    }
  }

  lemma PathMore(code: seq<Instr>, run: seq<Point>, p: Point)
    requires Path(code, run) && Step(code, run[|run| - 1].i, run[|run| - 1].depth, p.i, p.depth)
    ensures Path(code, run + [p])
  {
    hide Step;
    var r := run + [p];
    forall j | 0 <= j < |run| ensures Step(code, r[j].i, r[j].depth, r[j + 1].i, r[j + 1].depth) {
      if j < |run| - 1 {
        assert Step(code, run[j].i, run[j].depth, run[j + 1].i, run[j + 1].depth);
      }
    }
  }

  /** A walk that finds nothing wrong speaks for every path, if no conditional jump on a path moves the
      stack. */
  lemma WalkSpeaksForPaths(code: seq<Instr>, pos: Positions)
    requires Walk(code, pos, Live(0)).Some? && LevelJumps(code)
    ensures Disciplined(code, pos)
  {
    hide Known, Walk, Path, Expected, LevelJumps;
    forall run: seq<Point>, k: nat | Path(code, run) && k < |run| ensures GoodAt(code, pos, run[k]) {
      PathKnown(code, pos, run, k);
      KnownGood(code, pos, run[k].i, run[k].depth);
    }
  }

  lemma GoodOnPath(code: seq<Instr>, pos: Positions, run: seq<Point>, k: nat)
    requires Disciplined(code, pos) && Path(code, run) && k < |run|
    ensures GoodAt(code, pos, run[k])
  {
  }

  /** Where no label stands, control comes only from above. */
  lemma FromAbove(code: seq<Instr>, i: nat)
    requires OnPath(code, i) && 0 < i < |code| && !code[i].Mark?
    ensures OnPath(code, i - 1)
  {
    var run: seq<Point> :| run != [] && Path(code, run) && run[|run| - 1].i == i;
    var k := |run| - 2;
    assert |run| > 1;
    assert Step(code, run[k].i, run[k].depth, run[k + 1].i, run[k + 1].depth);
    PathPrefix(code, run, k);
    assert run[..k + 1][|run[..k + 1]| - 1].i == i - 1;
  }
}
