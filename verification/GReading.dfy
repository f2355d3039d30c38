/** Reading and compiling at once, as the token loops of the compiler do, on values: each function pairs
    what GSyntax reads from a position with what GCompile does with it. */
module GReading {
  import opened Options
  import opened GSyntax
  import opened GCompile

  /** What was emitted and the state after it, the next position and the next label. */
  type Read = Option<(Out, nat, nat)>

  function Got(o: Out, pos: nat, lab: nat): Read {
    Some((o, pos, lab))
  }

  /** The rest of a reading, after the code that came before it. */
  function After(code: seq<Instr>, r: Read): Read {
    match r
    case None => None
    case Some((o, p, l)) => Some((Out(o.s, code + o.code), p, l))
  }

  function GuardRes(toks: seq<Token>, pos: nat, lab: nat, s: S): (r: Read)
    requires pos <= |toks|
    ensures r.Some? ==> pos <= r.value.1 < |toks|
  {
    match ParseGuard(toks, pos, lab)
    case None => None
    case Some((ps, p, l)) =>
      match RunPushes(ps, s)
      case None => None
      case Some(o) => Some((o, p, l))
  }

  function ItemRes(toks: seq<Token>, pos: nat, lab: nat, s: S): (r: Read)
    requires pos < |toks|
    ensures r.Some? ==> pos < r.value.1 <= |toks|
  {
    match ParseItem(toks, pos, lab)
    case None => None
    case Some((item, p, l)) =>
      match RunItem(item, s)
      case None => None
      case Some(o) => Some((o, p, l))
  }

  function ItemsRes(toks: seq<Token>, pos: nat, lab: nat, s: S): (r: Read)
    requires pos <= |toks|
    ensures r.Some? ==> pos < r.value.1 <= |toks|
  {
    match ParseItems(toks, pos, lab)
    case None => None
    case Some((b, p, l)) =>
      match RunItems(b, s)
      case None => None
      case Some(o) => Some((o, p, l))
  }

  function BlockRes(toks: seq<Token>, pos: nat, lab: nat, s: S): (r: Read)
    requires pos <= |toks|
    ensures r.Some? ==> pos < r.value.1 <= |toks|
  {
    match ParseBlock(toks, pos, lab)
    case None => None
    case Some((b, p, l)) =>
      match RunBlock(b, s)
      case None => None
      case Some(o) => Some((o, p, l))
  }

  function ElseRes(toks: seq<Token>, pos: nat, lab: nat, elseLab: nat, s: S): (r: Read)
    requires pos <= |toks|
    ensures r.Some? ==> pos <= r.value.1 <= |toks|
  {
    match ParseElse(toks, pos, lab)
    case None => None
    case Some((els, p, l)) =>
      match RunElse(elseLab, els, s)
      case None => None
      case Some(o) => Some((o, p, l))
  }

  /** `else` and its block, once the word is read. */
  function ElseBlockRes(toks: seq<Token>, pos: nat, lab: nat, elseLab: nat, s: S): (r: Read)
    requires pos <= |toks|
    ensures r.Some? ==> pos <= r.value.1 <= |toks|
  {
    match RunSkip(lab, elseLab, s)
    case None => None
    case Some(j) =>
      match BlockRes(toks, pos, lab + 1, j.s)
      case None => None
      case Some((b, p, l)) =>
        match Define(b.s, Label(lab), b.s.loc, VARIABLE)
        case None => None
        case Some(s') => Some((Out(s', j.code + b.code), p, l))
  }

  /** A jump to one label with another label behind it: over the second block of an `if` to its end, or
      back to the guard of a loop. */
  function RunSkip(to: nat, here: nat, s: S): Option<Out> {
    match LabelLoc(s, to)
    case None => None
    case Some(loc) =>
      var jump := [Jmp(loc - (s.loc + 5))];
      var s1 := Emit(s, jump);
      match Define(s1, Label(here), s1.loc, VARIABLE)
      case None => None
      case Some(s2) => Some(Out(s2, jump))
  }

  /** The guard of an `if`, and the jump to a new label. */
  function IfGuardRes(toks: seq<Token>, pos: nat, lab: nat, s: S): (r: Read)
    requires pos <= |toks|
    ensures r.Some? ==> pos <= r.value.1 <= |toks| && r.value.2 > 0
  {
    match GuardRes(toks, pos, lab, s)
    case None => None
    case Some((g, p, l)) =>
      match RunBranch(l, g.s)
      case None => None
      case Some(b) => Some((Out(b.s, g.code + b.code), p, l + 1))
  }

  /** The two branches of an `if`. */
  function BranchesRes(toks: seq<Token>, pos: nat, lab: nat, elseLab: nat, s: S): (r: Read)
    requires pos <= |toks|
    ensures r.Some? ==> pos <= r.value.1 <= |toks|
  {
    match BlockRes(toks, pos, lab, s)
    case None => None
    case Some((t, p, l)) => After(t.code, ElseRes(toks, p, l, elseLab, t.s))
  }

  /** The guard of a loop, and the way out. */
  function LoopGuardRes(toks: seq<Token>, pos: nat, lab: nat, endLab: nat, s: S): (r: Read)
    requires pos <= |toks|
    ensures r.Some? ==> pos <= r.value.1 < |toks|
  {
    match GuardRes(toks, pos, lab, s)
    case None => None
    case Some((g, p, l)) =>
      match RunBranch(endLab, g.s)
      case None => None
      case Some(b) => Some((Out(b.s, g.code + b.code), p, l))
  }

  /** The body of a loop and the way back. */
  function LoopBodyRes(toks: seq<Token>, pos: nat, lab: nat, restartLab: nat, endLab: nat, s: S): (r: Read)
    requires pos <= |toks|
    ensures r.Some? ==> pos <= r.value.1 <= |toks|
  {
    match BlockRes(toks, pos, lab, s)
    case None => None
    case Some((b, p, l)) =>
      match RunSkip(restartLab, endLab, b.s)
      case None => None
      case Some(j) => Some((Out(j.s, b.code + j.code), p, l))
  }

  function DeclRes(toks: seq<Token>, pos: nat, lab: nat, s: S): (r: Read)
    requires pos < |toks|
    ensures r.Some? ==> pos < r.value.1 <= |toks|
  {
    match ParseDecl(toks, pos, lab)
    case None => None
    case Some((d, p, l)) =>
      match RunDecl(d, s)
      case None => None
      case Some(o) => Some((o, p, l))
  }

  /** A function, once its head is read. */
  function FunctionRes(toks: seq<Token>, pos: nat, lab: nat, name: string, arity: nat, s: S): (r: Read)
    requires pos <= |toks|
    ensures r.Some? ==> pos < r.value.1 <= |toks|
  {
    match Fix(s, name, s.loc, arity)
    case None => None
    case Some(s1) =>
      match BlockRes(toks, pos, lab, Emit(s1, [PushEbp, MovEbpEsp]))
      case None => None
      case Some((b, p, l)) =>
        Some((Out(Emit(b.s, [PopEbp, Return]), [PushEbp, MovEbpEsp] + b.code + [PopEbp, Return]), p, l))
  }

  function ProgramRes(toks: seq<Token>, pos: nat, lab: nat, s: S): Option<(Out, nat)>
    requires pos <= |toks|
  {
    match ParseProgram(toks, pos, lab)
    case None => None
    case Some((p, l)) =>
      match RunProgram(p, s)
      case None => None
      case Some(o) => Some((o, l))
  }

  lemma AfterTwice(a: seq<Instr>, b: seq<Instr>, r: Read)
    ensures After(a, After(b, r)) == After(a + b, r)
  {
    if r.Some? {
      assert a + (b + r.value.0.code) == a + b + r.value.0.code;
    }
  }

  lemma AfterNothing(r: Read)
    ensures After([], r) == r
  {
    if r.Some? {
      assert [] + r.value.0.code == r.value.0.code;
    }
  }

  lemma BranchNeedsValue(target: nat, s: S)
    requires RunBranch(target, s).Some?
    ensures s.temps > 0
  {
  }

  /** The closing brace, apart from the code of the block. */
  lemma CloseAfter(s: S, s': S, code: seq<Instr>)
    ensures CloseBlock(s, Out(s', code))
         == match CloseBlock(s, Out(s', []))
            case None => None
            case Some(o) => Some(Out(o.s, code + o.code))
  {
    assert [] + [AddEsp(4 * (|s'.stack| - |s.stack|))] == [AddEsp(4 * (|s'.stack| - |s.stack|))];
  }

  function AfterProgram(code: seq<Instr>, r: Option<(Out, nat)>): Option<(Out, nat)> {
    match r
    case None => None
    case Some((o, l)) => Some((Out(o.s, code + o.code), l))
  }

  lemma AfterProgramTwice(a: seq<Instr>, b: seq<Instr>, r: Option<(Out, nat)>)
    ensures AfterProgram(a, AfterProgram(b, r)) == AfterProgram(a + b, r) && AfterProgram([], r) == r
  {
    if r.Some? {
      assert a + (b + r.value.0.code) == a + b + r.value.0.code && [] + r.value.0.code == r.value.0.code;
    }
  }

  // ----- one step of each loop -----

  /** A turn of the loop of push_expr_until_brace. */
  lemma GuardStep(toks: seq<Token>, pos: nat, lab: nat, s: S)
    requires pos < |toks| && IsPush(toks[pos])
    ensures GuardRes(toks, pos, lab, s)
         == match RunPush(PushOf(toks[pos], lab), s)
            case None => None
            case Some(o) => After(o.code, GuardRes(toks, pos + 1, lab + LabelsOf(toks[pos]), o.s))
  {
    hide RunPush;
  }

  lemma GuardStop(toks: seq<Token>, pos: nat, lab: nat, s: S)
    requires pos <= |toks| && (pos == |toks| || !IsPush(toks[pos]))
    ensures GuardRes(toks, pos, lab, s) == if pos < |toks| && toks[pos] == OpenBrace then Some((Out(s, []), pos, lab)) else None
  {
  }

  /** A turn of the loop of parse_block. */
  lemma ItemsStep(toks: seq<Token>, pos: nat, lab: nat, s: S)
    requires pos < |toks| && toks[pos] != CloseBrace
    ensures ItemsRes(toks, pos, lab, s)
         == match ItemRes(toks, pos, lab, s)
            case None => None
            case Some((o, p, l)) => After(o.code, ItemsRes(toks, p, l, o.s))
  {
    hide RunItem, ParseItem;
  }

  lemma ItemsStop(toks: seq<Token>, pos: nat, lab: nat, s: S)
    requires pos <= |toks| && (pos == |toks| || toks[pos] == CloseBrace)
    ensures ItemsRes(toks, pos, lab, s) == if pos < |toks| then Got(Out(s, []), pos + 1, lab) else None
  {
  }

  lemma BlockReads(toks: seq<Token>, pos: nat, lab: nat, s: S)
    requires pos <= |toks|
    ensures BlockRes(toks, pos, lab, s)
         == if pos == |toks| || toks[pos] != OpenBrace then None
            else
              match ItemsRes(toks, pos + 1, lab, s)
              case None => None
              case Some((o, p, l)) =>
                match CloseBlock(s, o)
                case None => None
                case Some(o') => Some((o', p, l))
  {
    hide RunItems, ParseItems, CloseBlock;
  }

  lemma IfReads(toks: seq<Token>, pos: nat, lab: nat, s: S)
    requires pos < |toks| && toks[pos] == IfWord
    ensures ItemRes(toks, pos, lab, s)
         == match IfGuardRes(toks, pos + 1, lab, s)
            case None => None
            case Some((g, p, l)) => After(g.code, BranchesRes(toks, p, l, l - 1, g.s))
  {
    hide RunPushes, ParseGuard, ParseBlock, ParseElse, RunBlock, RunElse, RunBranch;
    var g := GuardRes(toks, pos + 1, lab, s);
    if g.Some? {
      var (o, p, elseLab) := g.value;
      var b := RunBranch(elseLab, o.s);
      if b.Some? {
        var t := BlockRes(toks, p, elseLab + 1, b.value.s);
        if t.Some? {
          AfterTwice(o.code + b.value.code, t.value.0.code, ElseRes(toks, t.value.1, t.value.2, elseLab, t.value.0.s));
        }
      }
    }
  }

  lemma ElseReads(toks: seq<Token>, pos: nat, lab: nat, elseLab: nat, s: S)
    requires pos <= |toks|
    ensures ElseRes(toks, pos, lab, elseLab, s)
         == if pos == |toks| || toks[pos] != ElseWord then
              (match Define(s, Label(elseLab), s.loc, VARIABLE)
               case None => None
               case Some(s') => Some((Out(s', []), pos, lab)))
            else ElseBlockRes(toks, pos + 1, lab, elseLab, s)
  {
    hide ParseBlock, RunBlock, Define, LabelLoc;
  }

  lemma LoopCode(g: seq<Instr>, b: seq<Instr>, j: Option<Out>)
    ensures j.Some? ==> g + b + j.value.code == g + (b + j.value.code)
  {
  }

  lemma WhileReads(toks: seq<Token>, pos: nat, lab: nat, s: S)
    requires pos < |toks| && toks[pos] == WhileWord
    ensures ItemRes(toks, pos, lab, s)
         == match Define(s, Label(lab), s.loc, VARIABLE)
            case None => None
            case Some(s1) =>
              match LoopGuardRes(toks, pos + 1, lab + 2, lab + 1, s1)
              case None => None
              case Some((g, p, l)) => After(g.code, LoopBodyRes(toks, p, l, lab, lab + 1, NoteLoop(s, g.s)))
  {
    hide RunPushes, ParseGuard, ParseBlock, RunBlock, RunBranch, Define, LabelLoc, NoteLoop;
    var s1 := Define(s, Label(lab), s.loc, VARIABLE);
    if s1.Some? {
      var g := LoopGuardRes(toks, pos + 1, lab + 2, lab + 1, s1.value);
      if g.Some? {
        var b := BlockRes(toks, g.value.1, g.value.2, NoteLoop(s, g.value.0.s));
        if b.Some? {
          LoopCode(g.value.0.code, b.value.0.code, RunSkip(lab, lab + 1, b.value.0.s));
        }
      }
    }
  }

  /** The declarations that one token makes. */
  function DeclOf(tok: Token): Option<Decl> {
    match tok
    case IfunHead(name, arity) => Some(Ifun(name, arity))
    case ConstHead(name, operand) => Some(Const(name, operand))
    case DollarName(name) => Some(Global(name))
    case PercentName(name, operand) => Some(Array(name, operand))
    case _ => None
  }

  lemma DeclReads(toks: seq<Token>, pos: nat, lab: nat, s: S)
    requires pos < |toks| && !toks[pos].FunHead?
    ensures var d, r := DeclOf(toks[pos]), DeclRes(toks, pos, lab, s);
            if d.None? || RunDecl(d.value, s).None? then r.None?
            else r.Some? && r.value.0 == RunDecl(d.value, s).value && r.value.1 == pos + 1 && r.value.2 == lab
  {
    hide RunDecl;
  }

  lemma FunReads(toks: seq<Token>, pos: nat, lab: nat, s: S, name: string, arity: nat)
    requires pos < |toks| && toks[pos] == FunHead(name, arity)
    ensures DeclRes(toks, pos, lab, s)
         == FunctionRes(toks, pos + 1, lab, name, arity, s)
  {
    hide ParseBlock, RunBlock, Fix;
  }

  lemma ProgramStop(toks: seq<Token>, lab: nat, s: S)
    ensures ProgramRes(toks, |toks|, lab, s) == Some((Out(s, []), lab))
  {
  }

  /** A turn of the loop of parse. */
  lemma ProgramStep(toks: seq<Token>, pos: nat, lab: nat, s: S)
    requires pos < |toks|
    ensures ProgramRes(toks, pos, lab, s)
         == match DeclRes(toks, pos, lab, s)
            case None => None
            case Some((o, p, l)) => AfterProgram(o.code, ProgramRes(toks, p, l, o.s))
  {
    hide ParseDecl, RunDecl;
  }
}
