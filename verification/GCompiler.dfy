/** The G compiler itself (attic/gstaging.c): its counters, its stack of names, its symbol table, and the
    token loops that update them.  Each method is proved against the functions of GSyntax (what is read)
    and GCompile (what is done).  A method answers false where the source panics on a failed assertion. */
module GCompiler {
  import opened Options
  import opened GSyntax
  import opened GCompile
  import opened GTwoPass
  import opened GEarly
  import opened GAgree
  import opened GSymbols
  import opened GReading
  import GData
  import GSpelling

  /** Bytes reach the output in the second pass only. */
  function Shown(stage: nat, code: seq<Instr>): seq<Instr> {
    if stage == 1 then code else []
  }

  lemma ShownConcat(stage: nat, a: seq<Instr>, b: seq<Instr>)
    ensures Shown(stage, a + b) == Shown(stage, a) + Shown(stage, b)
  {
  }

  lemma ShownConcat3(stage: nat, a: seq<Instr>, b: seq<Instr>, c: seq<Instr>)
    ensures Shown(stage, a + b + c) == Shown(stage, a) + Shown(stage, b) + Shown(stage, c)
  {
  }

  lemma ShownStages(first: seq<Instr>, second: seq<Instr>)
    ensures Shown(0, first) == [] && Shown(1, second) == second
  {
  }

  lemma NoteOnlyClean(s: S, operand: Operand)
    ensures NoteOperand(s, operand) == s.(clean := NoteOperand(s, operand).clean)
  {
  }

  lemma NoZeros(s: S, n: int)
    ensures Zeros(0) == [] && Emit(s, Zeros(0)) == s && (n <= 0 ==> Zeros(n) == [])
  {
  }

  lemma OneMoreZero(s: S, k: nat)
    ensures Zeros(k + 1) == Zeros(k) + [Byte(0)] && Emit(s, Zeros(k + 1)) == Emit(Emit(s, Zeros(k)), [Byte(0)])
  {
    SizesConcat(Zeros(k), [Byte(0)]);
  }

  lemma ShownNothing(stage: nat)
    ensures Shown(stage, []) == []
  {
  }

  function AddressPush(s: S, strLab: nat): Option<Out> {
    match LabelLoc(s, strLab)
    case None => None
    case Some(strLoc) => EmitPush(s, [PushImm(strLoc)])
  }

  function Deeper(pos: int, n: int): int {
    if pos == -1 then -1 else pos + n
  }

  lemma FindStep(stack: seq<string>, k: nat, name: string)
    requires 0 < k <= |stack| && stack[k - 1] != name
    ensures Find(stack[..k], name) == Deeper(Find(stack[..k - 1], name), 1)
  {
    assert stack[..k][..k - 1] == stack[..k - 1];
  }

  class Compiler {
    const toks: seq<Token>
    var next: nat               // the read position
    var current: Option<Token>  // the token buffer; None is the empty token at the end of the input
    var givenBack: bool
    var stage: nat
    var labelNum: nat
    var loc: nat
    const stackVars: array<string>
    var stackDepth: nat
    var tempDepth: nat
    var blockDepth: nat
    const symbols: SymbolTable
    var out: seq<Instr>
    ghost var clean: bool

    ghost function Repr(): set<object> {
      {this, stackVars, symbols, symbols.names, symbols.locs, symbols.arities}
    }

    ghost predicate Valid()
      reads Repr()
    {
      && stackVars.Length == STACK_LEN && stackDepth <= STACK_LEN && stage < 2
      && next <= |toks| && (givenBack ==> LastRead()) && symbols.Valid()
    }

    /** The buffer holds the token read last. */
    predicate LastRead()
      reads this
    {
      if current.Some? then 0 < next <= |toks| && toks[next - 1] == current.value else next == |toks|
    }

    /** Where the next token is. */
    function Pos(): nat
      reads this
    {
      if givenBack && current.Some? && next > 0 then next - 1 else next
    }

    /** The state of the pass. */
    ghost function State(): (s: S)
      requires Valid()
      reads Repr()
      ensures s.stage == stage && |s.stack| == stackDepth && s.temps == tempDepth && s.loc == loc && s.table == symbols.table
      ensures s.clean == clean
    {
      S(stage, stackVars[..stackDepth], tempDepth, loc, symbols.table, clean)
    }

    /** The pass has gone the way of r. */
    twostate predicate Did(ok: bool, r: Option<Out>)
      reads Repr()
    {
      && (ok <==> r.Some?)
      && (ok ==> Valid() && State() == r.value.s && out == old(out) + Shown(old(stage), r.value.code))
    }

    /** The pass has read and gone the way of r. */
    twostate predicate DidRead(ok: bool, r: Read)
      reads Repr()
    {
      && (ok <==> r.Some?)
      && (ok ==>
            && Valid() && State() == r.value.0.s && out == old(out) + Shown(old(stage), r.value.0.code)
            && Pos() == r.value.1 && labelNum == r.value.2 && blockDepth == old(blockDepth) && stage == old(stage))
    }

    constructor (input: seq<Token>)
      ensures Valid() && toks == input && fresh(symbols) && fresh(symbols.names) && fresh(symbols.locs) && fresh(symbols.arities)
      ensures fresh(stackVars) && symbols.table == map[] && out == []
    {
      toks := input;
      next, current, givenBack := 0, None, false;
      stage, labelNum, loc, stackDepth, tempDepth, blockDepth := 0, 0, 0, 0, 0, 0;
      stackVars := new string[STACK_LEN](_ => "");
      symbols := new SymbolTable();
      out := [];
      clean := true;
    }

    // ----- tokens -----

    /** get_token */
    method GetToken() returns (tok: Option<Token>)
      requires Valid()
      modifies this`next, this`current, this`givenBack
      ensures Valid() && State() == old(State()) && !givenBack && LastRead() && current == tok
      ensures tok == if old(Pos()) < |toks| then Some(toks[old(Pos())]) else None
      ensures Pos() == old(Pos()) + if tok.Some? then 1 else 0
    {
      hide Lists;
      if givenBack {
        givenBack := false;
        return current;
      }
      if next < |toks| {
        current := Some(toks[next]);
        next := next + 1;
      } else {
        current := None;
      }
      tok := current;
    }

    /** give_back_token: never twice in a row, so its assertion cannot fail. */
    method GiveBackToken()
      requires Valid() && !givenBack && LastRead()
      modifies this`givenBack
      ensures Valid() && State() == old(State()) && Pos() == old(Pos()) - if current.Some? then 1 else 0
    {
      givenBack := true;
    }

    /** gen_label */
    method GenLabel() returns (id: nat)
      requires Valid()
      modifies this`labelNum
      ensures Valid() && State() == old(State()) && Pos() == old(Pos()) && id == old(labelNum) && labelNum == id + 1
    {
      id := labelNum;
      labelNum := labelNum + 1;
    }

    ghost method SetClean(c: bool)
      requires Valid()
      modifies this`clean
      ensures Valid() && State() == old(State()).(clean := c) && Pos() == old(Pos())
    {
      clean := c;
    }

    ghost method NoteGuard(before: S)
      requires Valid()
      modifies this`clean
      ensures Valid() && State() == NoteLoop(before, old(State())) && Pos() == old(Pos())
    {
      SetClean(NoteLoop(before, State()).clean);
    }

    // ----- output -----

    /** emit, emit32, emit_str */
    method EmitCode(code: seq<Instr>)
      requires Valid()
      modifies this`loc, this`out
      ensures Valid() && State() == Emit(old(State()), code) && out == old(out) + Shown(stage, code)
    {
      hide Lists;
      if stage == 1 {
        out := out + code;
      }
      loc := loc + Sizes(code);
    }

    // ----- the stack of names -----

    /** push_var(TEMP_VAR, 1) */
    method PushTempVar() returns (ok: bool)
      requires Valid()
      modifies this`stackDepth, this`tempDepth, stackVars
      ensures Valid() && (ok <==> PushTemp(old(State())).Some?) && (ok ==> State() == PushTemp(old(State())).value)
    {
      hide Lists;
      if stackDepth >= STACK_LEN {
        return false;
      }
      stackVars[stackDepth] := TEMP;
      stackDepth := stackDepth + 1;
      tempDepth := tempDepth + 1;
      ok := true;
      assert stackVars[..stackDepth] == old(stackVars[..stackDepth]) + [TEMP];
    }

    /** push_var(name, 0) */
    method PushVar(name: string) returns (ok: bool)
      requires Valid()
      modifies this`stackDepth, this`clean, stackVars
      ensures Valid() && (ok <==> PushLocal(old(State()), name).Some?) && (ok ==> State() == PushLocal(old(State()), name).value)
    {
      hide Lists;
      if !(0 < |name| < MAX_NAME_LEN && stackDepth < STACK_LEN && tempDepth == 0) {
        return false;
      }
      stackVars[stackDepth] := name;
      stackDepth := stackDepth + 1;
      clean := clean && name != TEMP;
      ok := true;
      assert stackVars[..stackDepth] == old(stackVars[..stackDepth]) + [name];
    }

    /** pop_var(1) */
    method PopVar() returns (ok: bool)
      requires Valid()
      modifies this`stackDepth, this`tempDepth
      ensures Valid() && (ok <==> PopTemp(old(State())).Some?) && (ok ==> State() == PopTemp(old(State())).value)
    {
      hide Lists;
      if stackDepth == 0 || tempDepth == 0 {
        return false;
      }
      stackDepth := stackDepth - 1;
      tempDepth := tempDepth - 1;
      ok := true;
      assert stackVars[..stackDepth] == old(stackVars[..stackDepth])[..stackDepth];
    }

    /** The loop that pops as many values as a call takes. */
    method PopVars(n: int) returns (ok: bool)
      requires Valid()
      modifies this`stackDepth, this`tempDepth
      ensures Valid() && (ok <==> PopTemps(old(State()), n).Some?) && (ok ==> State() == PopTemps(old(State()), n).value)
    {
      hide Valid, State, PopTemp;
      var left := n;
      ok := true;
      while left > 0
        invariant Valid() && PopTemps(old(State()), n) == PopTemps(State(), left)
        decreases left
      {
        ok := PopVar();
        if !ok {
          return;
        }
        left := left - 1;
      }
    }

    /** find_in_stack */
    method FindInStack(name: string) returns (pos: int)
      requires Valid()
      ensures Valid() && State() == old(State()) && pos == Find(old(State()).stack, name)
    {
      hide Lists;
      pos := 0;
      ghost var stack := State().stack;
      assert stack[..stackDepth - 0] == stack;
      while pos < stackDepth
        invariant 0 <= pos <= stackDepth
        invariant Find(stack, name) == Deeper(Find(stack[..stackDepth - pos], name), pos)
      {
        if stackVars[stackDepth - 1 - pos] == name {
          return;
        }
        FindStep(stack, stackDepth - pos, name);
        pos := pos + 1;
      }
      pos := -1;
    }

    // ----- symbols -----

    /** get_symbol(write_label(id), 0) */
    method GetLabel(id: nat) returns (r: Option<int>)
      requires Valid()
      ensures Valid() && State() == old(State()) && r == LabelLoc(old(State()), id)
    {
      if stage == 1 {
        var e := symbols.Find(Label(id));
        r := if e.Some? then Some(e.value.loc) else None;
      } else {
        r := Some(0);
      }
    }

    /** add_symbol_wrapper(name, current_loc, -1) and its like */
    method AddSymbolHere(sym: Sym, value: int, arity: int) returns (ok: bool)
      requires Valid()
      modifies symbols, symbols.names, symbols.locs, symbols.arities
      ensures (ok <==> Define(old(State()), sym, value, arity).Some?)
      ensures ok ==> Valid() && State() == Define(old(State()), sym, value, arity).value
    {
      hide Lists;
      ok := symbols.AddWrapper(sym, value, arity, stage, State());
    }

    /** decode_number_or_symbol */
    method DecodeNumberOrSymbol(operand: Operand) returns (r: Option<int>)
      requires Valid()
      ensures Valid() && State() == old(State()) && r == Decode(old(State()), operand)
    {
      match operand
      case Literal(v) => r := Some(v);
      case SymbolOf(name) =>
        var e := symbols.Find(Named(name));
        r := if e.Some? then Some(e.value.loc) else None;
    }

    // ----- expressions -----

    /** push_var(TEMP_VAR, 1) and the code for it */
    method PushValue(code: seq<Instr>) returns (ok: bool)
      requires Valid()
      modifies this`stackDepth, this`tempDepth, this`loc, this`out, stackVars
      ensures Did(ok, EmitPush(old(State()), code))
    {
      ok := PushTempVar();
      if ok {
        EmitCode(code);
      }
    }

    /** push_expr */
    method PushExpr(p: Push) returns (ok: bool)
      requires Valid() && !p.Str?
      modifies this`stackDepth, this`tempDepth, this`loc, this`out, this`clean, stackVars
      ensures Did(ok, RunPush(p, old(State())))
    {
      match p
      case Num(value, addr) =>
        if addr {
          return false;
        }
        ok := PushValue([PushImm(value)]);
      case Ref(name, addr) =>
        clean := clean && name != TEMP;
        ok := PushName(name, addr);
    }

    method PushName(name: string, addr: bool) returns (ok: bool)
      requires Valid()
      modifies this`stackDepth, this`tempDepth, this`loc, this`out, this`clean, stackVars
      ensures Did(ok, RunRef(name, addr, old(State())))
    {
      var pos := FindInStack(name);
      if pos != -1 {
        if addr {
          ok := PushValue([LeaEax(4 * pos), PushEax]);
        } else {
          ok := PushValue([PushStack(4 * pos)]);
        }
        return;
      }
      var e := symbols.Find(Named(name));
      if e.None? || (e.value.arity == CONSTANT && addr) {
        return false;
      }
      if addr || e.value.arity == CONSTANT {
        ok := PushValue([PushImm(e.value.loc)]);
      } else if e.value.arity == VARIABLE {
        ok := PushValue([MovEax(e.value.loc), PushAtEax]);
      } else {
        ok := PushCall(e.value);
      }
    }

    method PushCall(e: Entry) returns (ok: bool)
      requires Valid()
      modifies this`stackDepth, this`tempDepth, this`loc, this`out, this`clean, stackVars
      ensures Did(ok, match PopTemps(NoteArity(old(State()), e.arity), e.arity)
                      case None => None
                      case Some(s) => EmitPush(s, CallCode(old(State()).loc, e)))
    {
      hide PopTemps, EmitPush, Valid, State;
      SetClean(clean && e.arity >= 0);
      var code := [Call(e.loc - (loc + 5)), AddEsp(4 * e.arity), PushEax];
      ok := PopVars(e.arity);
      if ok {
        ok := PushValue(code);
      }
    }

    /** The branch for a string literal, in push_expr_until_brace and in parse_block alike. */
    method PushString(bytes: seq<int>) returns (ok: bool)
      requires Valid()
      modifies this`stackDepth, this`tempDepth, this`loc, this`out, this`labelNum, stackVars
      modifies symbols, symbols.names, symbols.locs, symbols.arities
      ensures Did(ok, RunString(bytes, old(labelNum), old(labelNum) + 1, old(State()))) && (ok ==> labelNum == old(labelNum) + 2)
    {
      hide RunData, LabelLoc, EmitPush, Valid, State, Shown, Emit;
      var strLab := GenLabel();
      var jmpLab := GenLabel();
      var jmpLoc := GetLabel(jmpLab);
      if jmpLoc.None? {
        return false;
      }
      var jump := [Jmp(jmpLoc.value - (loc + 5))];
      EmitCode(jump);
      ghost var d := RunData(bytes, strLab, jmpLab, State());
      ok := PlaceString(bytes, strLab, jmpLab);
      if !ok {
        return;
      }
      ghost var o := AddressPush(State(), strLab);
      ok := PushAddress(strLab);
      if ok {
        ShownConcat3(stage, jump, d.value.code, o.value.code);
      }
    }

    /** push the address of the bytes */
    method PushAddress(strLab: nat) returns (ok: bool)
      requires Valid()
      modifies this`stackDepth, this`tempDepth, this`loc, this`out, stackVars
      ensures Did(ok, AddressPush(old(State()), strLab)) && labelNum == old(labelNum)
    {
      hide LabelLoc, EmitPush, Valid, State, Shown;
      var strLoc := GetLabel(strLab);
      if strLoc.None? {
        return false;
      }
      ok := PushValue([PushImm(strLoc.value)]);
    }

    method PlaceString(bytes: seq<int>, strLab: nat, jmpLab: nat) returns (ok: bool)
      requires Valid()
      modifies this`loc, this`out, symbols, symbols.names, symbols.locs, symbols.arities
      ensures Did(ok, RunData(bytes, strLab, jmpLab, old(State())))
    {
      hide Define, Valid, State;
      ok := AddSymbolHere(Label(strLab), loc, VARIABLE);
      if !ok {
        return;
      }
      EmitCode(DataBytes(bytes + [0]));
      ok := AddSymbolHere(Label(jmpLab), loc, VARIABLE);
    }

    /** A string literal, or a name or number. */
    method PushToken(tok: Token) returns (ok: bool)
      requires Valid() && IsPush(tok)
      modifies this`stackDepth, this`tempDepth, this`loc, this`out, this`clean, this`labelNum, stackVars
      modifies symbols, symbols.names, symbols.locs, symbols.arities
      ensures Did(ok, RunPush(PushOf(tok, old(labelNum)), old(State())))
      ensures ok ==> labelNum == old(labelNum) + LabelsOf(tok) && Pos() == old(Pos())
    {
      hide Valid, State, RunRef, RunString, Shown;
      if tok.StringToken? {
        ok := PushString(tok.bytes);
      } else {
        ok := PushExpr(PushOf(tok, labelNum));
      }
    }

    /** push_expr_until_brace */
    method PushExprUntilBrace() returns (ok: bool)
      requires Valid() && Pos() <= |toks|
      modifies Repr()
      ensures var r := GuardRes(toks, old(Pos()), old(labelNum), old(State()));
              DidRead(ok, if r.Some? && r.value.0.s.temps > 0 then r else None)
    {
      hide Valid, State, RunPush, GuardRes, Shown;
      ghost var whole := GuardRes(toks, Pos(), labelNum, State());
      ghost var code: seq<Instr> := [];
      AfterNothing(whole);
      ShownNothing(stage);
      assert out == old(out) + [];
      while true
        invariant Valid() && Pos() <= |toks| && blockDepth == old(blockDepth) && stage == old(stage)
        invariant whole == After(code, GuardRes(toks, Pos(), labelNum, State())) && out == old(out) + Shown(stage, code)
        decreases |toks| - Pos()
      {
        ghost var pos, lab, s := Pos(), labelNum, State();
        var tok := GetToken();
        if tok.None? || !IsPush(tok.value) {
          GuardStop(toks, pos, lab, s);
          if tok != Some(OpenBrace) {
            return false;
          }
          GiveBackToken();
          break;
        }
        GuardStep(toks, pos, lab, s);
        ghost var o := RunPush(PushOf(tok.value, lab), s);
        ok := PushToken(tok.value);
        if !ok {
          return;
        }
        AfterTwice(code, o.value.code, GuardRes(toks, pos + 1, lab + LabelsOf(tok.value), o.value.s));
        ShownConcat(stage, code, o.value.code);
        code := code + o.value.code;
      }
      assert code + [] == code;
      ok := tempDepth > 0;
    }

    /** pop_var(1); pop eax; cmp eax, 0; je target */
    method EmitBranch(target: nat) returns (ok: bool)
      requires Valid()
      modifies this`stackDepth, this`tempDepth, this`loc, this`out
      ensures Did(ok, RunBranch(target, old(State())))
      ensures ok ==> labelNum == old(labelNum) && Pos() == old(Pos())
    {
      hide Valid, State, Shown, PopTemp, LabelLoc;
      ok := PopVar();
      if !ok {
        return;
      }
      var target_ := GetLabel(target);
      if target_.None? {
        return false;
      }
      EmitCode([PopEax, CmpEax0, Je(target_.value - (loc + 10))]);
    }

    // ----- statements -----

    /** The branch for `;` */
    method EmptyStack() returns (ok: bool)
      requires Valid()
      modifies this`stackDepth, this`tempDepth, this`loc, this`out
      ensures Did(ok, RunItem(Semi, old(State())))
    {
      hide Valid, State, Shown, PopTemps;
      var code := [AddEsp(4 * tempDepth)];
      ok := PopVars(tempDepth);
      if ok {
        EmitCode(code);
      }
    }

    /** The branch for `ret` */
    method Return_() returns (ok: bool)
      requires Valid()
      modifies this`stackDepth, this`tempDepth, this`loc, this`out
      ensures Did(ok, RunItem(Ret, old(State())))
    {
      hide Valid, State, Shown, PopTemp;
      ok := true;
      var code: seq<Instr> := [];
      if tempDepth > 0 {
        code := [PopEax];
        ok := PopVar();
        if !ok {
          return;
        }
      }
      var leave := [AddEsp(4 * stackDepth), PopEbp, Return];
      assert [PopEax] + leave == [PopEax, AddEsp(4 * stackDepth), PopEbp, Return] && [] + leave == leave;
      EmitCode(code + leave);
    }

    /** The branch for `$name` */
    method DeclareVar(name: string) returns (ok: bool)
      requires Valid()
      modifies this`stackDepth, this`clean, this`loc, this`out, stackVars
      ensures Did(ok, RunItem(Local(name), old(State())))
    {
      hide Valid, State, Shown, PushLocal;
      ok := PushVar(name);
      if ok {
        EmitCode([SubEsp4]);
      }
    }

    /** The branch for a backslash */
    method CallIndirect(operand: Operand) returns (ok: bool)
      requires Valid()
      modifies this`stackDepth, this`tempDepth, this`clean, this`loc, this`out, stackVars
      ensures Did(ok, RunIndirect(operand, old(State())))
    {
      hide Valid, State, Shown, PopTemp, PopTemps, EmitPush, Decode;
      var arity := DecodeNumberOrSymbol(operand);
      if arity.None? {
        return false;
      }
      SetClean(NoteOperand(State(), operand).clean && arity.value >= 0);
      ok := PopVar();
      if !ok {
        return;
      }
      ok := PopVars(arity.value);
      if !ok {
        return;
      }
      ok := PushValue([PopEax, CallEax, AddEsp(4 * arity.value), PushEax]);
    }

    /** A turn of the loop of parse_block, once its token is read. */
    method ParseStatement(tok: Token) returns (ok: bool)
      requires Valid() && !givenBack && LastRead() && current == Some(tok)
      modifies Repr()
      ensures DidRead(ok, ItemRes(toks, old(Pos()) - 1, old(labelNum), old(State())))
      decreases |toks| - Pos(), 4
    {
      hide Valid, State, Shown, RunPush, RunRet, RunIndirect, RunGuard, RunBlock, RunElse, GSyntax.ParseBlock, ParseGuard, ParseElse, PopTemps, PushLocal, Emit;
      match tok {
        case Semicolon => ok := EmptyStack();
        case RetWord => ok := Return_();
        case IfWord => ok := ParseIf();
        case WhileWord => ok := ParseWhile();
        case DollarName(name) => ok := DeclareVar(name);
        case Backslash(operand) => ok := CallIndirect(operand);
        case StringToken(_) => ok := PushToken(tok);
        case NumToken(_, _) => ok := PushToken(tok);
        case NameToken(_, _) => ok := PushToken(tok);
        case OpenBrace => ok := false;
        case CloseBrace => ok := false;
        case ElseWord => ok := false;
        case FunHead(_, _) => ok := false;
        case IfunHead(_, _) => ok := false;
        case ConstHead(_, _) => ok := false;
        case PercentName(_, _) => ok := false;
      }
    }

    /** The branch for `if` */
    method ParseIf() returns (ok: bool)
      requires Valid() && !givenBack && LastRead() && current == Some(IfWord)
      modifies Repr()
      ensures DidRead(ok, ItemRes(toks, old(Pos()) - 1, old(labelNum), old(State())))
      decreases |toks| - Pos(), 2
    {
      hide Valid, State, Shown, IfGuardRes, BranchesRes, ItemRes;
      IfReads(toks, Pos() - 1, labelNum, State());
      ghost var g := IfGuardRes(toks, Pos(), labelNum, State());
      ok := ParseIfGuard();
      if !ok {
        return;
      }
      ghost var t := BranchesRes(toks, Pos(), labelNum, labelNum - 1, State());
      ok := ParseBranches(labelNum - 1);
      if ok {
        ShownConcat(stage, g.value.0.code, t.value.0.code);
      }
    }

    /** The guard; the label behind the first block is the last that was made then. */
    method ParseIfGuard() returns (ok: bool)
      requires Valid() && Pos() <= |toks|
      modifies Repr()
      ensures DidRead(ok, IfGuardRes(toks, old(Pos()), old(labelNum), old(State())))
      decreases |toks| - Pos(), 0
    {
      hide Valid, State, Shown, RunBranch, GuardRes;
      ghost var g := GuardRes(toks, Pos(), labelNum, State());
      ok := PushExprUntilBrace();
      if !ok {
        if g.Some? && RunBranch(g.value.2, g.value.0.s).Some? {
          BranchNeedsValue(g.value.2, g.value.0.s);
        }
        return;
      }
      var elseLab := GenLabel();
      ghost var b := RunBranch(elseLab, State());
      ok := EmitBranch(elseLab);
      if ok {
        ShownConcat(stage, g.value.0.code, b.value.code);
      }
    }

    method ParseBranches(elseLab: nat) returns (ok: bool)
      requires Valid() && Pos() <= |toks|
      modifies Repr()
      ensures DidRead(ok, BranchesRes(toks, old(Pos()), old(labelNum), elseLab, old(State())))
      decreases |toks| - Pos(), 1
    {
      hide Valid, State, Shown, BlockRes, ElseRes;
      ghost var t := BlockRes(toks, Pos(), labelNum, State());
      ok := ParseBlock();
      if !ok {
        return;
      }
      ghost var e := ElseRes(toks, Pos(), labelNum, elseLab, State());
      ok := ParseElseBranch(elseLab);
      if ok {
        ShownConcat(stage, t.value.0.code, e.value.0.code);
      }
    }

    /** What follows the first block: `else`, or a token that is given back. */
    method ParseElseBranch(elseLab: nat) returns (ok: bool)
      requires Valid() && Pos() <= |toks|
      modifies Repr()
      ensures DidRead(ok, ElseRes(toks, old(Pos()), old(labelNum), elseLab, old(State())))
      decreases |toks| - Pos(), 1
    {
      hide Valid, State, Shown, ElseBlockRes, ElseRes, Define;
      ElseReads(toks, Pos(), labelNum, elseLab, State());
      var tok := GetToken();
      if tok != Some(ElseWord) {
        ok := AddSymbolHere(Label(elseLab), loc, VARIABLE);
        if ok {
          ShownNothing(stage);
          GiveBackToken();
        }
        return;
      }
      ok := ParseElseBlock(elseLab);
    }

    method ParseElseBlock(elseLab: nat) returns (ok: bool)
      requires Valid() && Pos() <= |toks|
      modifies Repr()
      ensures DidRead(ok, ElseBlockRes(toks, old(Pos()), old(labelNum), elseLab, old(State())))
      decreases |toks| - Pos(), 1
    {
      hide Valid, State, Shown, BlockRes, RunSkip, Define;
      var fiLab := GenLabel();
      ghost var j := RunSkip(fiLab, elseLab, State());
      ok := EmitSkip(fiLab, elseLab);
      if !ok {
        return;
      }
      ghost var b := BlockRes(toks, Pos(), labelNum, State());
      ok := ParseBlock();
      if !ok {
        return;
      }
      ok := AddSymbolHere(Label(fiLab), loc, VARIABLE);
      if ok {
        ShownConcat(stage, j.value.code, b.value.0.code);
      }
    }

    /** jmp to a label; define another one behind the jump. */
    method EmitSkip(to: nat, here: nat) returns (ok: bool)
      requires Valid()
      modifies this`loc, this`out, symbols, symbols.names, symbols.locs, symbols.arities
      ensures Did(ok, RunSkip(to, here, old(State())))
      ensures ok ==> Pos() == old(Pos())
    {
      hide Valid, State, Shown, Define, LabelLoc;
      var target := GetLabel(to);
      if target.None? {
        return false;
      }
      EmitCode([Jmp(target.value - (loc + 5))]);
      ok := AddSymbolHere(Label(here), loc, VARIABLE);
    }

    /** The branch for `while` */
    method ParseWhile() returns (ok: bool)
      requires Valid() && !givenBack && LastRead() && current == Some(WhileWord)
      modifies Repr()
      ensures DidRead(ok, ItemRes(toks, old(Pos()) - 1, old(labelNum), old(State())))
      decreases |toks| - Pos(), 3
    {
      hide Valid, State, Shown, LoopBodyRes, LoopGuardRes, ItemRes, Define, NoteLoop;
      WhileReads(toks, Pos() - 1, labelNum, State());
      ghost var before := State();
      var restartLab := GenLabel();
      var endLab := GenLabel();
      ok := AddSymbolHere(Label(restartLab), loc, VARIABLE);
      if !ok {
        return;
      }
      ok := ParseTurns(restartLab, endLab, before);
    }

    /** The guard and the body of a loop; `before` is the state at its start. */
    method ParseTurns(restartLab: nat, endLab: nat, ghost before: S) returns (ok: bool)
      requires Valid() && Pos() <= |toks|
      modifies Repr()
      ensures var g := LoopGuardRes(toks, old(Pos()), old(labelNum), endLab, old(State()));
              DidRead(ok, if g.None? then None
                          else After(g.value.0.code,
                                     LoopBodyRes(toks, g.value.1, g.value.2, restartLab, endLab, NoteLoop(before, g.value.0.s))))
      decreases |toks| - Pos(), 2
    {
      hide Valid, State, Shown, LoopBodyRes, LoopGuardRes, NoteLoop;
      ghost var g := LoopGuardRes(toks, Pos(), labelNum, endLab, State());
      ok := ParseLoopGuard(endLab);
      if !ok {
        return;
      }
      NoteGuard(before);
      ghost var b := LoopBodyRes(toks, Pos(), labelNum, restartLab, endLab, State());
      ok := ParseLoopBody(restartLab, endLab);
      if ok {
        ShownConcat(stage, g.value.0.code, b.value.0.code);
      }
    }

    method ParseLoopGuard(endLab: nat) returns (ok: bool)
      requires Valid() && Pos() <= |toks|
      modifies Repr()
      ensures DidRead(ok, LoopGuardRes(toks, old(Pos()), old(labelNum), endLab, old(State())))
      decreases |toks| - Pos(), 0
    {
      hide Valid, State, Shown, GuardRes, RunBranch;
      ghost var g := GuardRes(toks, Pos(), labelNum, State());
      ok := PushExprUntilBrace();
      if !ok {
        if g.Some? && RunBranch(endLab, g.value.0.s).Some? {
          BranchNeedsValue(endLab, g.value.0.s);
        }
        return;
      }
      ghost var b := RunBranch(endLab, State());
      ok := EmitBranch(endLab);
      if ok {
        ShownConcat(stage, g.value.0.code, b.value.code);
      }
    }

    method ParseLoopBody(restartLab: nat, endLab: nat) returns (ok: bool)
      requires Valid() && Pos() <= |toks|
      modifies Repr()
      ensures DidRead(ok, LoopBodyRes(toks, old(Pos()), old(labelNum), restartLab, endLab, old(State())))
      decreases |toks| - Pos(), 1
    {
      hide Valid, State, Shown, BlockRes, RunSkip;
      ghost var b := BlockRes(toks, Pos(), labelNum, State());
      ok := ParseBlock();
      if !ok {
        return;
      }
      ghost var j := RunSkip(restartLab, endLab, State());
      ok := EmitSkip(restartLab, endLab);
      if ok {
        ShownConcat(stage, b.value.0.code, j.value.code);
      }
    }

    // ----- blocks -----

    method SetBlockDepth(n: nat)
      requires Valid()
      modifies this`blockDepth
      ensures Valid() && State() == old(State()) && Pos() == old(Pos()) && blockDepth == n
    {
      blockDepth := n;
    }

    /** parse_block */
    method ParseBlock() returns (ok: bool)
      requires Valid() && Pos() <= |toks|
      modifies Repr()
      ensures DidRead(ok, BlockRes(toks, old(Pos()), old(labelNum), old(State())))
      decreases |toks| - Pos(), 0
    {
      hide Valid, State, Shown, BlockRes, ItemsRes, CloseBlock;
      BlockReads(toks, Pos(), labelNum, State());
      ghost var before := State();
      SetBlockDepth(blockDepth + 1);
      var saved := stackDepth;
      var tok := GetToken();
      if tok != Some(OpenBrace) {
        return false;
      }
      ghost var o := ItemsRes(toks, Pos(), labelNum, State());
      ok := ParseStatements();
      if !ok {
        return;
      }
      ok := EndBlock(saved, before, old(out), o.value.0.code);
    }

    /** What follows the loop of parse_block, which has emitted `code`. */
    method EndBlock(saved: nat, ghost before: S, ghost start: seq<Instr>, ghost code: seq<Instr>) returns (ok: bool)
      requires Valid() && |before.stack| == saved && blockDepth > 0 && out == start + Shown(stage, code)
      modifies this`stackDepth, this`clean, this`loc, this`out, this`blockDepth
      ensures var r := CloseBlock(before, Out(old(State()), code));
              (ok <==> r.Some?)
              && (ok ==> Valid() && State() == r.value.s && out == start + Shown(stage, r.value.code)
                         && Pos() == old(Pos()) && blockDepth == old(blockDepth) - 1)
    {
      hide Valid, State, Shown, CloseBlock;
      CloseAfter(before, State(), code);
      ghost var closing := CloseBlock(before, Out(State(), []));
      ok := UnwindStack(saved, before);
      if ok {
        SetBlockDepth(blockDepth - 1);
        ShownConcat(stage, code, closing.value.code);
      }
    }

    /** The loop of parse_block. */
    method ParseStatements() returns (ok: bool)
      requires Valid() && Pos() <= |toks|
      modifies Repr()
      ensures DidRead(ok, ItemsRes(toks, old(Pos()), old(labelNum), old(State())))
      decreases |toks| - Pos(), 5
    {
      hide Valid, State, Shown, ItemsRes, ItemRes;
      ghost var whole := ItemsRes(toks, Pos(), labelNum, State());
      ghost var code: seq<Instr> := [];
      AfterNothing(whole);
      ShownNothing(stage);
      assert out == old(out) + [];
      while true
        invariant Valid() && old(Pos()) <= Pos() <= |toks| && blockDepth == old(blockDepth) && stage == old(stage)
        invariant whole == After(code, ItemsRes(toks, Pos(), labelNum, State())) && out == old(out) + Shown(stage, code)
        decreases |toks| - Pos()
      {
        ghost var pos, lab, s := Pos(), labelNum, State();
        var tok := GetToken();
        if tok.None? || tok.value == CloseBrace {
          ItemsStop(toks, pos, lab, s);
          if tok.None? {
            return false;
          }
          break;
        }
        ItemsStep(toks, pos, lab, s);
        ghost var r := ItemRes(toks, pos, lab, s);
        ok := ParseStatement(tok.value);
        if !ok {
          return;
        }
        AfterTwice(code, r.value.0.code, ItemsRes(toks, r.value.1, r.value.2, r.value.0.s));
        ShownConcat(stage, code, r.value.0.code);
        code := code + r.value.0.code;
      }
      assert code + [] == code;
      ok := true;
    }

    /** The end of parse_block: unwind the stack to the saved depth. */
    method UnwindStack(saved: nat, ghost before: S) returns (ok: bool)
      requires Valid() && |before.stack| == saved
      modifies this`stackDepth, this`clean, this`loc, this`out
      ensures Did(ok, CloseBlock(before, Out(old(State()), [])))
      ensures ok ==> Pos() == old(Pos())
    {
      hide Lists, Shown;
      if stackDepth < saved {
        return false;
      }
      ghost var o := CloseBlock(before, Out(State(), [])).value;
      var code := [AddEsp(4 * (stackDepth - saved))];
      assert [] + code == code;
      EmitCode(code);
      clean := o.s.clean;
      stackDepth := saved;
      ok := true;
      assert stackVars[..stackDepth] == old(stackVars[..stackDepth])[..saved];
    }

    // ----- declarations -----

    /** A turn of the loop of parse, once its first token is read. */
    method ParseDeclaration(tok: Token) returns (ok: bool)
      requires Valid() && !givenBack && LastRead() && current == Some(tok)
      modifies Repr()
      ensures DidRead(ok, DeclRes(toks, old(Pos()) - 1, old(labelNum), old(State())))
    {
      hide Valid, State, Shown, DeclRes, FunctionRes, RunDecl;
      if tok.FunHead? {
        FunReads(toks, Pos() - 1, labelNum, State(), tok.name, tok.arity);
        ok := ParseFunction(tok.name, tok.arity);
        return;
      }
      DeclReads(toks, Pos() - 1, labelNum, State());
      match tok {
        case IfunHead(name, arity) => ok := DeclareFunction(name, arity);
        case ConstHead(name, operand) => ok := DefineConst(name, operand);
        case DollarName(name) => ok := DefineGlobal(name);
        case PercentName(name, operand) => ok := DefineArray(name, operand);
        case _ => ok := false;
      }
    }

    method ParseFunction(name: string, arity: nat) returns (ok: bool)
      requires Valid() && Pos() <= |toks|
      modifies Repr()
      ensures DidRead(ok, FunctionRes(toks, old(Pos()), old(labelNum), name, arity, old(State())))
    {
      hide Valid, State, Shown, Fix, BlockRes, Emit;
      ok := FixSymbolHere(name, arity);
      if !ok {
        return;
      }
      EmitCode([PushEbp, MovEbpEsp]);
      ghost var b := BlockRes(toks, Pos(), labelNum, State());
      ok := ParseBlock();
      if ok {
        EmitCode([PopEbp, Return]);
        ShownConcat3(stage, [PushEbp, MovEbpEsp], b.value.0.code, [PopEbp, Return]);
      }
    }

    /** fix_symbol_placeholder(name, current_loc, arity) */
    method FixSymbolHere(name: string, arity: nat) returns (ok: bool)
      requires Valid()
      modifies symbols, symbols.names, symbols.locs, symbols.arities
      ensures ok <==> Fix(old(State()), name, loc, arity).Some?
      ensures ok ==> Valid() && State() == Fix(old(State()), name, loc, arity).value
    {
      hide Lists;
      ok := symbols.FixPlaceholder(name, loc, arity, stage, State());
    }

    method DeclareFunction(name: string, arity: nat) returns (ok: bool)
      requires Valid()
      modifies symbols, symbols.names, symbols.locs, symbols.arities
      ensures Did(ok, RunDecl(Ifun(name, arity), old(State())))
    {
      hide Lists;
      ok := symbols.AddPlaceholder(name, arity, stage, State());
      ShownNothing(stage);
    }

    method DefineConst(name: string, operand: Operand) returns (ok: bool)
      requires Valid()
      modifies this`clean, symbols, symbols.names, symbols.locs, symbols.arities
      ensures Did(ok, RunDecl(Const(name, operand), old(State())))
      ensures ok ==> Pos() == old(Pos())
    {
      hide Valid, State, Shown, Define, Decode, NoteOperand;
      var v := DecodeNumberOrSymbol(operand);
      if v.None? {
        return false;
      }
      ghost var s := State();
      NoteOnlyClean(s, operand);
      SetClean(NoteOperand(s, operand).clean);
      ok := AddSymbolHere(Named(name), v.value, CONSTANT);
      ShownNothing(stage);
    }

    method DefineGlobal(name: string) returns (ok: bool)
      requires Valid()
      modifies this`loc, this`out, symbols, symbols.names, symbols.locs, symbols.arities
      ensures Did(ok, RunDecl(Global(name), old(State())))
      ensures ok ==> Pos() == old(Pos())
    {
      hide Valid, State, Shown, Define;
      if name == "" {
        return false;
      }
      ok := AddSymbolHere(Named(name), loc, VARIABLE);
      if ok {
        EmitCode(Zeros(4));
      }
    }

    method DefineArray(name: string, operand: Operand) returns (ok: bool)
      requires Valid()
      modifies this`clean, this`loc, this`out, symbols, symbols.names, symbols.locs, symbols.arities
      ensures Did(ok, RunDecl(Array(name, operand), old(State())))
      ensures ok ==> Pos() == old(Pos())
    {
      hide Valid, State, Shown, Define, Decode, NoteOperand;
      if name == "" {
        return false;
      }
      ok := AddSymbolHere(Named(name), loc, CONSTANT);
      if !ok {
        return;
      }
      var len := DecodeNumberOrSymbol(operand);
      if len.None? {
        return false;
      }
      ghost var s := State();
      NoteOnlyClean(s, operand);
      SetClean(NoteOperand(s, operand).clean);
      EmitZeros(len.value);
    }

    /** while len > 0 { emit(0); len--; } */
    method EmitZeros(n: int)
      requires Valid()
      modifies this`loc, this`out
      ensures Valid() && State() == Emit(old(State()), Zeros(n)) && out == old(out) + Shown(stage, Zeros(n))
    {
      hide Valid, State, Shown, Zeros, Emit;
      var len := n;
      NoZeros(State(), n);
      ShownNothing(stage);
      while len > 0
        invariant Valid() && (len >= 0 || len == n) && len <= n
        invariant State() == Emit(old(State()), Zeros(n - len)) && out == old(out) + Shown(stage, Zeros(n - len))
      {
        OneMoreZero(old(State()), n - len);
        ShownConcat(stage, Zeros(n - len), [Byte(0)]);
        EmitCode([Byte(0)]);
        len := len - 1;
      }
    }

    // ----- passes -----

    /** parse */
    method Parse() returns (ok: bool)
      requires Valid() && Pos() <= |toks|
      modifies Repr()
      ensures var r := ProgramRes(toks, old(Pos()), old(labelNum), old(State()));
              (ok <==> r.Some?)
              && (ok ==> Valid() && State() == r.value.0.s && out == old(out) + Shown(old(stage), r.value.0.code)
                         && stage == old(stage) && !givenBack)
    {
      hide Valid, State, Shown, ProgramRes, DeclRes;
      ghost var whole := ProgramRes(toks, Pos(), labelNum, State());
      ghost var code: seq<Instr> := [];
      AfterProgramTwice([], [], whole);
      ShownNothing(stage);
      assert out == old(out) + [];
      while true
        invariant Valid() && Pos() <= |toks| && stage == old(stage)
        invariant whole == AfterProgram(code, ProgramRes(toks, Pos(), labelNum, State())) && out == old(out) + Shown(stage, code)
        decreases |toks| - Pos()
      {
        ghost var pos, lab, s := Pos(), labelNum, State();
        var tok := GetToken();
        if tok.None? {
          ProgramStop(toks, lab, s);
          break;
        }
        ProgramStep(toks, pos, lab, s);
        ghost var r := DeclRes(toks, pos, lab, s);
        ok := ParseDeclaration(tok.value);
        if !ok {
          return;
        }
        AfterProgramTwice(code, r.value.0.code, ProgramRes(toks, r.value.1, r.value.2, r.value.0.s));
        ShownConcat(stage, code, r.value.0.code);
        code := code + r.value.0.code;
      }
      assert code + [] == code;
      ok := true;
    }

    /** One turn of the loop of compile. */
    method Pass(stage_: nat, start: nat) returns (ok: bool)
      requires Valid() && stage_ < 2 && stackDepth == 0 && tempDepth == 0 && !givenBack
      modifies Repr()
      ensures var prog := ParseProgram(toks, 0, 0);
              var r := if prog.Some? then RunPass(prog.value.0, stage_, start, old(symbols.table)) else None;
              && (ok <==> r.Some?)
              && (ok ==> Valid() && State() == r.value.s && out == old(out) + Shown(stage_, r.value.code)
                         && stackDepth == 0 && tempDepth == 0 && !givenBack)
    {
      hide Lists, Shown, RunProgram, ParseProgram;
      next, current := 0, None;
      stage, labelNum, loc := stage_, 0, start;
      clean := true;
      ghost var s := State();
      assert s == S(stage_, [], 0, start, old(symbols.table), true);
      ok := Parse();
      ok := ok && stackDepth == 0 && tempDepth == 0;
    }

    /** compile: two passes over the same input.  It succeeds just when both do, and what is emitted is
        what the second one emits.  A program that the first one accepts is accepted exactly if it takes no
        location too early; one that keeps to the rules never does.  What is read is the program that the
        tokens spell, and its names stand for what its text says. */
    method Compile(start: nat) returns (ok: bool)
      requires Valid() && !givenBack
      modifies Repr()
      ensures var prog := ParseProgram(toks, 0, 0);
              var first := if prog.Some? then RunPass(prog.value.0, 0, start, old(symbols.table)) else None;
              var second := if first.Some? then RunPass(prog.value.0, 1, start, first.value.s.table) else None;
              && (ok <==> second.Some?)
              && (ok ==> Valid() && symbols.table == second.value.s.table && out == old(out) + second.value.code)
              && (first.Some? ==> (ok <==> !ReadsEarly(prog.value.0, DeclaredIn(old(symbols.table)), DefinedIn(old(symbols.table)), first.value.s.table)))
              && (first.Some? && first.value.s.clean ==> ok)
              && (ok ==> GSpelling.SpellProgram(prog.value.0) == toks)
              && (ok ==> GData.SymbolsOf(prog.value.0, old(symbols.table), symbols.table) == symbols.table)
    {
      hide Lists, RunPass, ParseProgram, Shown, Valid, State, ReadsEarly, DeclaredIn, DefinedIn;
      hide GData.SymbolsOf, GSpelling.SpellProgram;
      ghost var prog := ParseProgram(toks, 0, 0);
      ghost var table := symbols.table;
      ClearStack();
      ok := Pass(0, start);
      if !ok {
        return;
      }
      ghost var first := RunPass(prog.value.0, 0, start, table).value;
      SecondPassAgrees(prog.value.0, start, table);
      if first.s.clean {
        CleanAgrees(prog.value.0, start, table);
      }
      ok := Pass(1, start);
      if ok {
        GData.TableIsText(prog.value.0, start, table);
        GSpelling.ProgramSpelled(toks, 0, 0);
        assert toks[0..] == toks;
        ShownStages(first.code, RunPass(prog.value.0, 1, start, first.s.table).value.code);
      }
    }

    method ClearStack()
      requires Valid()
      modifies this`stackDepth, this`tempDepth, this`blockDepth
      ensures Valid() && stackDepth == 0 && tempDepth == 0 && givenBack == old(givenBack)
    {
      blockDepth, stackDepth, tempDepth := 0, 0, 0;
    }
  }
}
