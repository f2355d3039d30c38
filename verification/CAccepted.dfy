/** The other direction: whatever ast_parsev accepts is an expression, grouped as the tables of priorities
    and directions demand, and none of its tokens is lost, added or moved. */
module CAccepted {
  import opened Options
  import opened CAst
  import opened CAstReading
  import opened CBlanks

  /** Proper, but with the operands that the parser takes: it does not look at them, so that a stray closing
      bracket or a colon is one too. */
  predicate Loose(e: Cst) {
    match e
    case Name(tok) => !IsOperator(tok) && tok != LParen && tok != Space
    case Group(x) => Loose(x)
    case Prefix(tok, x) => IsPrefix(tok) && Loose(x) && RightOk(OpOf(e), x)
    case Postfix(x, tok) => (tok == PlusPlus || tok == MinusMinus) && Loose(x) && LeftOk(OpOf(e), x)
    case Binary(l, tok, r) => IsInfix(tok) && Loose(l) && LeftOk(OpOf(e), l) && Loose(r) && RightOk(OpOf(e), r)
    case Ternary(l, c, r) => Loose(l) && LeftOk(OpOf(e), l) && Loose(c) && Loose(r) && RightOk(OpOf(e), r)
    case Call(x, args) => Loose(x) && LeftOk(OpOf(e), x) && (args.Some? ==> Loose(args.value))
    case Index(x, i) => Loose(x) && LeftOk(OpOf(e), x) && Loose(i)
  }

  // ----- what is on the stacks -----

  /** An operator on the stack, with what has been read of its operands; a prefix operator has nothing. */
  datatype Open = Open(op: Op, left: Option<Cst>, center: Option<Cst>)

  function TreeOr(e: Option<Cst>): Ast {
    if e.Some? then TreeOf(e.value) else Placeholder
  }

  function EntryOf(o: Open): Entry {
    Entry(o.op, TreeOr(o.left), if o.center.Some? then Some(TreeOf(o.center.value)) else None)
  }

  function Entries(opens: seq<Open>): (r: seq<Entry>)
    ensures |r| == |opens|
  {
    seq(|opens|, i requires 0 <= i < |opens| => EntryOf(opens[i]))
  }

  /** The stacks; where an operator is wanted, one more operand is on them. */
  function StateOf(opens: seq<Open>, top: Option<Cst>, want: bool): (st: State)
    ensures Shape(st, want)
  {
    if want then Onto(EMPTY, Entries(opens), TreeOr(top)) else Base(Entries(opens))
  }

  function Base(spine: seq<Entry>): State {
    State(Ops(spine), Lefts(spine), Centers(spine))
  }

  /** The operators that are complete once they are pushed. */
  predicate Closed(op: Op) {
    op.Post? || op == Plain(LParen) || op == Plain(LBracket)
  }

  predicate LeftFits(o: Open) {
    o.left.Some? && Loose(o.left.value) && LeftOk(o.op, o.left.value)
  }

  predicate OpenOk(o: Open) {
    match o.op
    case Pre(tok) => IsPrefix(tok) && o.left.None? && o.center.None?
    case Post(tok) => (tok == PlusPlus || tok == MinusMinus) && LeftFits(o) && o.center.None?
    case Plain(tok) =>
      LeftFits(o)
      && if tok == Question then o.center.Some? && Loose(o.center.value)
         else o.center.None? && (tok == LParen || tok == LBracket || IsInfix(tok))
    case Blank => false
  }

  /** The right operand of o, or what stands in its brackets. */
  predicate TopFits(o: Open, top: Option<Cst>) {
    if o.op.Post? then top.None?
    else if o.op == Plain(LParen) then top.Some? ==> Loose(top.value)
    else top.Some? && Loose(top.value) && (o.op != Plain(LBracket) ==> RightOk(o.op, top.value))
  }

  predicate AllOk(opens: seq<Open>) {
    forall i :: 0 <= i < |opens| ==> OpenOk(opens[i])
  }

  predicate Stacked(opens: seq<Open>) {
    && AllOk(opens)
    && (forall i :: 0 <= i < |opens| - 1 ==> Rests(opens, i))
  }

  /** The operator above the i-th has not completed it. */
  predicate Rests(opens: seq<Open>, i: nat)
    requires i + 1 < |opens|
  {
    !Closed(opens[i].op) && !Reduces(opens[i + 1].op, opens[i].op)
  }

  lemma StackedFront(opens: seq<Open>)
    requires Stacked(opens) && opens != []
    ensures var front := opens[..|opens| - 1];
            Stacked(front) && (front != [] ==> OpenOk(Last(front)) && !Closed(Last(front).op) && !Reduces(Last(opens).op, Last(front).op))
  {
    hide OpenOk, Closed, Reduces;
    var front := opens[..|opens| - 1];
    forall i | 0 <= i < |front| - 1 ensures Rests(front, i) {
      assert Rests(opens, i);
    }
    if front != [] {
      assert Rests(opens, |opens| - 2);
    }
  }

  function Last(opens: seq<Open>): Open
    requires opens != []
  {
    opens[|opens| - 1]
  }

  function OpenText(o: Open): seq<Tok>
    requires OpenOk(o)
  {
    match o.op
    case Pre(tok) => [tok]
    case Post(tok) => Tokens(o.left.value) + [tok]
    case Plain(tok) => Tokens(o.left.value) + ([tok] + if tok == Question then Tokens(o.center.value) + [Colon] else [])
  }

  function Text(opens: seq<Open>): seq<Tok>
    requires AllOk(opens)
  {
    if opens == [] then [] else Text(opens[..|opens| - 1]) + OpenText(Last(opens))
  }

  function TopText(o: Open, top: Option<Cst>): seq<Tok>
    requires TopFits(o, top)
  {
    if o.op.Post? then []
    else if o.op == Plain(LParen) then (if top.Some? then Tokens(top.value) else []) + [RParen]
    else if o.op == Plain(LBracket) then Tokens(top.value) + [RBracket]
    else Tokens(top.value)
  }

  /** The operator with its operands. */
  function Combined(o: Open, top: Option<Cst>): Cst
    requires OpenOk(o) && TopFits(o, top)
  {
    match o.op
    case Pre(tok) => Prefix(tok, top.value)
    case Post(tok) => Postfix(o.left.value, tok)
    case Plain(tok) =>
      if tok == LParen then Call(o.left.value, top)
      else if tok == LBracket then Index(o.left.value, top.value)
      else if tok == Question then Ternary(o.left.value, o.center.value, top.value)
      else Binary(o.left.value, tok, top.value)
  }

  lemma TextLast(opens: seq<Open>)
    requires opens != [] && AllOk(opens)
    ensures AllOk(opens[..|opens| - 1])
    ensures Text(opens) == Text(opens[..|opens| - 1]) + OpenText(Last(opens))
  {
    hide OpenOk, OpenText;
  }

  lemma Append(a: seq<Tok>, b: seq<Tok>, c: seq<Tok>)
    ensures (a + b) + c == a + (b + c)
  {
  }

  lemma CombinedIs(o: Open, top: Option<Cst>)
    requires OpenOk(o) && TopFits(o, top)
    ensures var e := Combined(o, top);
            && Loose(e) && !Atomic(e) && OpOf(e) == o.op && Tokens(e) == OpenText(o) + TopText(o, top)
            && TreeOf(e) == Node(o.op, EntryOf(o).left, EntryOf(o).center, TreeOr(top))
  {
    hide Priority, LeftToRight, IsInfix, IsPrefix, LeftOk, RightOk;
    CombinedTokens(o, top);
    NotInfix();
  }

  lemma NotInfix()
    ensures !IsInfix(Question) && !IsInfix(LParen) && !IsInfix(LBracket)
  {
  }

  lemma CombinedTokens(o: Open, top: Option<Cst>)
    requires OpenOk(o) && TopFits(o, top)
    ensures Tokens(Combined(o, top)) == OpenText(o) + TopText(o, top)
  {
    hide Priority, LeftToRight, IsInfix, IsPrefix, LeftOk, RightOk, Loose;
    NotInfix();
  }

  lemma OpenPriority(o: Open)
    requires OpenOk(o)
    ensures 0 < Priority(o.op) < 100 && (Closed(o.op) ==> Priority(o.op) == 1 && LeftToRight(o.op))
    ensures o.op == Plain(Question) ==> EntryOf(o).center.Some?
  {
  }

  // ----- rewinding -----

  /** What is on top when `op` comes: something complete, or a left operand for it. */
  predicate Ready(opens: seq<Open>, top: Option<Cst>, op: Op) {
    if opens != [] && Closed(Last(opens).op) then TopFits(Last(opens), top)
    else top.Some? && Loose(top.value) && LeftOk(op, top.value) && (opens != [] ==> TopFits(Last(opens), top))
  }

  function ReadyText(opens: seq<Open>, top: Option<Cst>): seq<Tok>
    requires if opens == [] then top.Some? else TopFits(Last(opens), top)
  {
    if opens == [] then Tokens(top.value) else TopText(Last(opens), top)
  }

  /** What op leaves of the stacks: it does not reduce what is below it, and its left operand fits. */
  predicate Rewound(opens: seq<Open>, e: Cst, op: Op) {
    Stacked(opens) && Loose(e) && LeftOk(op, e) && (opens == [] || (!Closed(Last(opens).op) && !Reduces(op, Last(opens).op)))
  }

  lemma {:induction false} Rewinds(opens: seq<Open>, top: Option<Cst>, op: Op, center: Option<Ast>) returns (opens': seq<Open>, e: Cst)
    requires Stacked(opens) && Priority(op) > 0 && Ready(opens, top, op)
    ensures Rewound(opens', e, op) && Text(opens') + Tokens(e) == Text(opens) + ReadyText(opens, top)
    ensures Balanced(Push(StateOf(opens, top, true), op, center))
    ensures Rewind(Push(StateOf(opens, top, true), op, center)) == Some(Push(StateOf(opens', Some(e), true), op, center))
    decreases |opens|
  {
    hide Priority, LeftToRight, Loose, LeftOk, OpenOk, Rewind, Closed, TopFits, OpenText, TopText, Text, ReadyText, StateOf, Push,
         Rewound, Ready, Tokens, Combined, Reduces;
    if opens == [] {
      NothingStacked(top, op);
      opens', e := opens, top.value;
      RewindFew(top, op, center);
    } else if Reduces(op, Last(opens).op) {
      LastOk(opens, top, op);
      ReduceLast(opens, top, op, center);
      NextReady(opens, top, op);
      opens', e := Rewinds(opens[..|opens| - 1], Some(Combined(Last(opens), top)), op, center);
      ReducedText(opens, top);
    } else {
      LastOk(opens, top, op);
      LastStays(opens, top, op);
      opens', e := opens, top.value;
      RewindStays(opens, top, op, center);
    }
  }

  lemma NothingStacked(top: Option<Cst>, op: Op)
    requires Ready([], top, op)
    ensures top.Some? && Rewound([], top.value, op) && ReadyText([], top) == Tokens(top.value)
  {
  }

  lemma LastOk(opens: seq<Open>, top: Option<Cst>, op: Op)
    requires Stacked(opens) && opens != [] && Ready(opens, top, op)
    ensures OpenOk(Last(opens)) && TopFits(Last(opens), top) && Priority(Last(opens).op) > 0
  {
    hide OpenOk, TopFits, Priority;
    OpenPriority(Last(opens));
  }

  lemma LastStays(opens: seq<Open>, top: Option<Cst>, op: Op)
    requires Stacked(opens) && opens != [] && Ready(opens, top, op) && Priority(op) > 0 && !Reduces(op, Last(opens).op)
    ensures top.Some? && Rewound(opens, top.value, op) && ReadyText(opens, top) == Tokens(top.value)
  {
    hide OpenOk, Priority, Reduces, LeftOk, Loose;
    ClosedReduces(Last(opens), op);
    NotClosedText(Last(opens), top);
  }

  lemma ReducedText(opens: seq<Open>, top: Option<Cst>)
    requires Stacked(opens) && opens != [] && TopFits(Last(opens), top)
    requires var front := opens[..|opens| - 1]; front == [] || (!Closed(Last(front).op) && TopFits(Last(front), Some(Combined(Last(opens), top))))
    ensures var front, next := opens[..|opens| - 1], Combined(Last(opens), top);
            AllOk(front) && Text(front) + ReadyText(front, Some(next)) == Text(opens) + ReadyText(opens, top)
  {
    hide OpenOk, OpenText, TopText, TopFits, Combined, Closed, Text, Tokens, Loose, TreeOf, OpOf;
    var front, o := opens[..|opens| - 1], Last(opens);
    CombinedIs(o, top);
    NextText(front, Combined(o, top));
    TextLast(opens);
    Append(Text(front), OpenText(o), TopText(o, top));
  }

  lemma NextText(front: seq<Open>, next: Cst)
    requires front == [] || (TopFits(Last(front), Some(next)) && !Closed(Last(front).op))
    ensures ReadyText(front, Some(next)) == Tokens(next)
  {
  }

  lemma NotClosedText(o: Open, top: Option<Cst>)
    requires TopFits(o, top) && !Closed(o.op)
    ensures top.Some? && TopText(o, top) == Tokens(top.value)
  {
  }

  lemma ClosedReduces(o: Open, op: Op)
    requires OpenOk(o) && Priority(op) > 0
    ensures Closed(o.op) ==> Reduces(op, o.op)
  {
    hide OpenOk;
    OpenPriority(o);
    if Priority(op) == 1 && Closed(o.op) {
      LevelsAgree(op, o.op);
    }
  }

  lemma RewindFew(top: Option<Cst>, op: Op, center: Option<Ast>)
    ensures Balanced(Push(StateOf([], top, true), op, center))
    ensures Rewind(Push(StateOf([], top, true), op, center)) == Some(Push(StateOf([], top, true), op, center))
  {
  }

  lemma RewindStays(opens: seq<Open>, top: Option<Cst>, op: Op, center: Option<Ast>)
    requires opens != [] && Priority(op) > 0 && Priority(Last(opens).op) > 0 && !Reduces(op, Last(opens).op)
    ensures var x := Push(StateOf(opens, top, true), op, center); Balanced(x) && Rewind(x) == Some(x)
  {
    hide Priority, Reduces;
    var x := Push(StateOf(opens, top, true), op, center);
    assert x.ops[|x.ops| - 2] == Last(opens).op && x.ops[|x.ops| - 1] == op;
  }

  lemma ReduceLast(opens: seq<Open>, top: Option<Cst>, op: Op, center: Option<Ast>)
    requires opens != [] && Priority(op) > 0 && Reduces(op, Last(opens).op) && OpenOk(Last(opens)) && TopFits(Last(opens), top)
    ensures var front, next := opens[..|opens| - 1], Combined(Last(opens), top);
            && Balanced(Push(StateOf(opens, top, true), op, center)) && Balanced(Push(StateOf(front, Some(next), true), op, center))
            && Rewind(Push(StateOf(opens, top, true), op, center)) == Rewind(Push(StateOf(front, Some(next), true), op, center))
  {
    hide Priority, Reduces, OpenOk, TopFits, Combined;
    var o := Last(opens);
    OpenPriority(o);
    CombinedIs(o, top);
    ReduceTop(EMPTY, Entries(opens), TreeOr(top), op, center);
    assert Entries(opens)[..|opens| - 1] == Entries(opens[..|opens| - 1]);
  }

  lemma NextReady(opens: seq<Open>, top: Option<Cst>, op: Op)
    requires Stacked(opens) && opens != [] && Reduces(op, Last(opens).op) && TopFits(Last(opens), top)
    ensures var front, next := opens[..|opens| - 1], Combined(Last(opens), top);
            && Stacked(front) && Ready(front, Some(next), op)
            && (front != [] ==> !Closed(Last(front).op) && TopFits(Last(front), Some(next)))
  {
    hide Priority, LeftToRight, Combined, OpenOk, TopFits, Loose, LeftOk, RightOk, Reduces, Closed, OpOf, Rests;
    var front, o := opens[..|opens| - 1], Last(opens);
    CombinedIs(o, top);
    var next := Combined(o, top);
    ReducedFitsLeft(op, next);
    StackedFront(opens);
    if front != [] {
      OpenPriority(o);
      OpenPriority(Last(front));
      StackedFitsRight(Last(front).op, next);
      BelowFits(Last(front), next);
    }
  }

  lemma ReducedFitsLeft(op: Op, e: Cst)
    requires !Atomic(e) && Reduces(op, OpOf(e))
    ensures LeftOk(op, e)
  {
    hide Priority, LeftToRight;
  }

  lemma StackedFitsRight(below: Op, e: Cst)
    requires !Atomic(e) && !Reduces(OpOf(e), below) && Priority(OpOf(e)) > 0 && Priority(below) > 0
    ensures RightOk(below, e)
  {
    hide Priority, LeftToRight, OpOf;
    if Priority(OpOf(e)) == Priority(below) {
      LevelsAgree(OpOf(e), below);
    }
  }

  lemma BelowFits(o: Open, e: Cst)
    requires !Closed(o.op) && Loose(e) && RightOk(o.op, e)
    ensures TopFits(o, Some(e))
  {
  }

  // ----- operators that have no priority where they stand -----

  predicate Doomed(st: State) {
    st.ops != [] && Priority(st.ops[0]) == 0
  }

  lemma {:induction false} RewindDoomed(st: State)
    requires Balanced(st) && Doomed(st) && Rewind(st).Some?
    ensures Doomed(Rewind(st).value) && (|st.ops| >= 2 ==> |Rewind(st).value.ops| >= 2)
    decreases |st.ops|
  {
    hide Priority;
    var n := |st.ops|;
    if n >= 2 && Reduces(st.ops[n - 1], st.ops[n - 2]) {
      RewindDoomed(Reduce(st));
    }
  }

  lemma TurnDoomed(st: State, want: bool, tok: Tok, part: Option<(Ast, nat)>)
    requires Shape(st, want) && Doomed(st) && Turn(st, want, tok, part).Some?
    ensures Doomed(Turn(st, want, tok, part).value.0)
  {
    hide Rewind, Priority, IsOperator, IsPrefix;
    if want {
      var op := if tok == PlusPlus || tok == MinusMinus then Post(tok) else Plain(tok);
      PushDoomed(st, op, None);
      if tok == Question {
        PushDoomed(st, op, Some(part.value.0));
      }
    } else {
      PrefixDoomed(st, Pre(tok));
    }
  }

  lemma PushDoomed(st: State, op: Op, center: Option<Ast>)
    requires Shape(st, true) && Doomed(st)
    ensures var x := Push(st, op, center);
            Balanced(x) && (Rewind(x).Some? ==> Doomed(Rewind(x).value) && (Rewind(Rewind(x).value).Some? ==> Doomed(Rewind(Rewind(x).value).value)))
  {
    hide Rewind, Priority;
    var x := Push(st, op, center);
    assert x.ops[0] == st.ops[0];
    if Rewind(x).Some? {
      RewindDoomed(x);
      if Rewind(Rewind(x).value).Some? {
        RewindDoomed(Rewind(x).value);
      }
    }
  }

  lemma PrefixDoomed(st: State, op: Op)
    requires Shape(st, false) && Doomed(st)
    ensures var x := PushOperand(Push(st, op, None), Placeholder); Balanced(x) && (Rewind(x).Some? ==> Doomed(Rewind(x).value))
  {
    hide Rewind, Priority;
    var x := PushOperand(Push(st, op, None), Placeholder);
    assert x.ops[0] == st.ops[0];
    if Rewind(x).Some? {
      RewindDoomed(x);
    }
  }

  predicate Accepts(r: Option<(State, bool, nat)>)
    requires r.Some? ==> Shape(r.value.0, r.value.1)
  {
    r.Some? && r.value.1 && Finish(r.value.0, true).Some?
  }

  lemma {:induction false} LoopDoomed(toks: seq<Tok>, pos: nat, ends: seq<Tok>, st: State, want: bool)
    requires pos <= |toks| && Space !in toks && Shape(st, want) && Doomed(st)
    ensures !Accepts(Loop(toks, pos, ends, st, want))
    decreases |toks| - pos
  {
    hide Step, Doomed, Turn, Part, Rewind;
    if pos == |toks| || toks[pos] in ends {
      if want {
        FinishDoomed(st);
      }
    } else if Step(toks, pos, st, want).Some? {
      StepDoomed(toks, pos, st, want);
      var s := Step(toks, pos, st, want).value;
      LoopDoomed(toks, s.2, ends, s.0, s.1);
    }
  }

  lemma FinishDoomed(st: State)
    requires Shape(st, true) && Doomed(st)
    ensures Finish(st, true).None?
  {
    hide Rewind, Priority;
    var x := Push(st, Blank, None);
    assert x.ops[0] == st.ops[0];
    if Rewind(x).Some? {
      RewindDoomed(x);
    }
  }

  lemma StepDoomed(toks: seq<Tok>, pos: nat, st: State, want: bool)
    requires pos < |toks| && toks[pos] != Space && Shape(st, want) && Doomed(st) && Step(toks, pos, st, want).Some?
    ensures Doomed(Step(toks, pos, st, want).value.0)
  {
    hide Step, Turn, Part, Doomed;
    if !want && toks[pos] == Sizeof {
      SizeofTurn(toks, pos, st);
    }
    StepTurn(toks, pos, st, want);
    TurnDoomed(st, want, toks[pos], Part(toks, pos, want));
  }

  lemma BadInfix(st: State, tok: Tok, part: Option<(Ast, nat)>)
    requires Shape(st, true) && IsOperator(tok) && tok != Question && tok != PlusPlus && tok != MinusMinus && !IsInfix(tok)
    ensures Turn(st, true, tok, part).Some? ==> Doomed(Turn(st, true, tok, part).value.0)
  {
    var x := Push(st, Plain(tok), None);
    assert x.ops[|x.ops| - 1] == Plain(tok);
  }

  // ----- a turn of the loop -----

  /** On top, where an operator is wanted: something that no operator has touched yet. */
  predicate Held(opens: seq<Open>, top: Option<Cst>) {
    if opens != [] && Closed(Last(opens).op) then TopFits(Last(opens), top)
    else top.Some? && Loose(top.value) && Atomic(top.value)
  }

  predicate Standing(opens: seq<Open>, top: Option<Cst>, want: bool) {
    Stacked(opens) && if want then Held(opens, top) else top.None? && (opens == [] || !Closed(Last(opens).op))
  }

  lemma HeldReady(opens: seq<Open>, top: Option<Cst>, op: Op)
    requires Stacked(opens) && Held(opens, top) && Priority(op) > 0
    ensures Ready(opens, top, op)
  {
    hide Loose, OpenOk;
    if opens != [] {
      OpenPriority(Last(opens));
    }
  }

  /** The tokens that have been read. */
  function Seen(opens: seq<Open>, top: Option<Cst>, want: bool): seq<Tok>
    requires Standing(opens, top, want)
  {
    StandingText(opens, top, want);
    Text(opens) + if want then ReadyText(opens, top) else []
  }

  lemma StandingText(opens: seq<Open>, top: Option<Cst>, want: bool)
    requires Standing(opens, top, want)
    ensures want ==> if opens == [] then top.Some? else TopFits(Last(opens), top)
  {
    hide Loose, OpenOk;
    if want && opens != [] {
      OpenPriority(Last(opens));
    }
  }

  /** An operator and its left operand go onto the stacks. */
  lemma OpenPushed(opens: seq<Open>, e: Cst, o: Open)
    requires Rewound(opens, e, o.op) && OpenOk(o) && o.left == Some(e)
    ensures var more := opens + [o];
            Stacked(more) && more != [] && Last(more) == o && Text(more) == Text(opens) + OpenText(o)
            && Push(StateOf(opens, Some(e), true), o.op, EntryOf(o).center) == StateOf(more, None, false)
  {
    hide OpenOk, OpenText, Loose, LeftOk, StateOf, EntryOf, Push, Reduces, Closed, Rests;
    MoreStacked(opens, o);
    PushedState(opens, e, o);
    assert (opens + [o])[..|opens + [o]| - 1] == opens;
  }

  lemma PushedState(opens: seq<Open>, e: Cst, o: Open)
    requires o.left == Some(e)
    ensures Push(StateOf(opens, Some(e), true), o.op, EntryOf(o).center) == StateOf(opens + [o], None, false)
  {
    hide TreeOf;
    var x := EntryOf(o);
    assert Entries(opens + [o]) == Entries(opens) + [x];
    assert Ops(Entries(opens) + [x]) == Ops(Entries(opens)) + [x.op];
    assert Lefts(Entries(opens) + [x]) == Lefts(Entries(opens)) + [x.left];
    assert Centers(Entries(opens) + [x]) == Centers(Entries(opens)) + [x.center];
    assert [] + Ops(Entries(opens)) == Ops(Entries(opens)) && [] + Centers(Entries(opens)) == Centers(Entries(opens));
    assert [] + Lefts(Entries(opens)) + [x.left] == Lefts(Entries(opens)) + [x.left];
  }

  lemma MoreStacked(opens: seq<Open>, o: Open)
    requires Stacked(opens) && OpenOk(o) && (opens == [] || (!Closed(Last(opens).op) && !Reduces(o.op, Last(opens).op)))
    ensures Stacked(opens + [o])
  {
    hide OpenOk, Closed, Reduces;
    var more := opens + [o];
    forall i | 0 <= i < |more| - 1 ensures Rests(more, i) {
      if i < |opens| - 1 {
        assert Rests(opens, i);
      }
    }
  }

  lemma OperandPushed(opens: seq<Open>, top: Option<Cst>)
    ensures PushOperand(StateOf(opens, None, false), TreeOr(top)) == StateOf(opens, top, true)
  {
  }

  /** What stands on the stacks is left alone by another rewinding. */
  lemma RestsRewound(opens: seq<Open>)
    requires Stacked(opens)
    ensures Rewind(StateOf(opens, None, false)) == Some(StateOf(opens, None, false))
  {
    hide OpenOk, Closed, Reduces, Priority;
    var n := |opens|;
    if n >= 2 {
      assert Rests(opens, n - 2);
      OpenPriority(opens[n - 2]);
      OpenPriority(opens[n - 1]);
    }
  }

  lemma InfixTurn(opens: seq<Open>, top: Option<Cst>, tok: Tok, c: Option<Cst>, pos: nat) returns (opens': seq<Open>)
    requires Standing(opens, top, true) && if tok == Question then c.Some? && Loose(c.value) else c.None? && IsInfix(tok)
    ensures Standing(opens', None, false)
    ensures Infix(StateOf(opens, top, true), tok, if c.Some? then Some(TreeOf(c.value)) else None, pos)
         == Some((StateOf(opens', None, false), false, pos))
    ensures Text(opens') == Seen(opens, top, true) + ([tok] + if tok == Question then Tokens(c.value) + [Colon] else [])
  {
    hide Rewind, Loose, LeftOk, StateOf, Text, ReadyText, AllOk, Rests, Held, Push, OpenText, OpenOk, Tokens, TreeOf, Ready,
         Closed, Priority, Reduces, IsInfix, Seen;
    var op := Plain(tok);
    var center := if c.Some? then Some(TreeOf(c.value)) else None;
    InfixPriority(tok);
    HeldReady(opens, top, op);
    SeenIs(opens, top);
    var e;
    opens', e := Rewinds(opens, top, op, center);
    var o := Open(op, Some(e), c);
    InfixOpen(opens', e, o);
    OpenPushed(opens', e, o);
    RestsRewound(opens' + [o]);
    Append(Text(opens'), Tokens(e), [tok] + if tok == Question then Tokens(c.value) + [Colon] else []);
    opens' := opens' + [o];
  }

  lemma SeenIs(opens: seq<Open>, top: Option<Cst>)
    requires Standing(opens, top, true)
    ensures if opens == [] then top.Some? else TopFits(Last(opens), top)
    ensures Seen(opens, top, true) == Text(opens) + ReadyText(opens, top)
  {
    hide Stacked, Held, Text, ReadyText, TopFits;
    StandingText(opens, top, true);
  }

  lemma InfixPriority(tok: Tok)
    requires tok == Question || IsInfix(tok)
    ensures Priority(Plain(tok)) > 0 && !Closed(Plain(tok))
  {
  }

  lemma InfixOpen(opens: seq<Open>, e: Cst, o: Open)
    requires o.op.Plain? && Rewound(opens, e, o.op) && o.left == Some(e)
    requires if o.op.tok == Question then o.center.Some? && Loose(o.center.value) else o.center.None? && IsInfix(o.op.tok)
    ensures OpenOk(o) && OpenText(o) == Tokens(e) + ([o.op.tok] + if o.op.tok == Question then Tokens(o.center.value) + [Colon] else [])
  {
    hide Loose, LeftOk, IsInfix;
  }

  /** A postfix operator, a call or an index. */
  lemma ClosedTurn(opens: seq<Open>, top: Option<Cst>, op: Op, arg: Option<Cst>) returns (opens': seq<Open>)
    requires Standing(opens, top, true) && Closed(op) && (op.Post? ==> op.tok == PlusPlus || op.tok == MinusMinus)
    requires TopFits(Open(op, None, None), arg)
    ensures Standing(opens', arg, true)
    ensures Rewind(Push(StateOf(opens, top, true), op, None)) == Some(StateOf(opens', None, false))
    ensures PushOperand(StateOf(opens', None, false), TreeOr(arg)) == StateOf(opens', arg, true)
    ensures Seen(opens', arg, true) == Seen(opens, top, true) + ([op.tok] + TopText(Open(op, None, None), arg))
  {
    hide Rewind, Loose, LeftOk, StateOf, Text, ReadyText, AllOk, Rests, Held, Push, TopText, OpenText, OpenOk, Tokens, TreeOf,
         Ready, Priority, Reduces, Seen, TopFits;
    ClosedPriority(op);
    HeldReady(opens, top, op);
    SeenIs(opens, top);
    var e;
    opens', e := Rewinds(opens, top, op, None);
    var o := Open(op, Some(e), None);
    ClosedOpen(opens', e, o, arg);
    OpenPushed(opens', e, o);
    Append(Text(opens'), Tokens(e), [op.tok]);
    Append(Text(opens') + Tokens(e), [op.tok], TopText(o, arg));
    opens' := opens' + [o];
    OperandPushed(opens', arg);
    ClosedSeen(opens', arg);
  }

  lemma ClosedPriority(op: Op)
    requires Closed(op) && (op.Post? ==> op.tok == PlusPlus || op.tok == MinusMinus)
    ensures Priority(op) > 0
  {
  }

  lemma ClosedOpen(opens: seq<Open>, e: Cst, o: Open, arg: Option<Cst>)
    requires Rewound(opens, e, o.op) && o == Open(o.op, Some(e), None) && Closed(o.op) && (o.op.Post? ==> o.op.tok == PlusPlus || o.op.tok == MinusMinus)
    requires TopFits(Open(o.op, None, None), arg)
    ensures OpenOk(o) && OpenText(o) == Tokens(e) + [o.op.tok] && TopFits(o, arg) && TopText(o, arg) == TopText(Open(o.op, None, None), arg)
  {
    hide Loose, LeftOk;
  }

  lemma ClosedSeen(opens: seq<Open>, arg: Option<Cst>)
    requires Stacked(opens) && opens != [] && Closed(Last(opens).op) && TopFits(Last(opens), arg)
    ensures Standing(opens, arg, true) && Seen(opens, arg, true) == Text(opens) + TopText(Last(opens), arg)
  {
    hide Loose, OpenOk, TopText, TopFits;
  }

  lemma PrefixTurn(opens: seq<Open>, tok: Tok) returns (opens': seq<Open>)
    requires Standing(opens, None, false) && IsPrefix(tok) && (opens != [] ==> Last(opens).op !in {Plain(Dot), Plain(Arrow)})
    ensures Standing(opens', None, false) && Text(opens') == Text(opens) + [tok]
    ensures var x := PushOperand(Push(StateOf(opens, None, false), Pre(tok), None), Placeholder);
            Balanced(x) && Rewind(x) == Some(StateOf(opens', None, false))
  {
    hide Rewind, Closed, OpenOk, OpenText, Reduces;
    var o := Open(Pre(tok), None, None);
    PrefixOpen(opens, o);
    MoreStacked(opens, o);
    opens' := opens + [o];
    RestsRewound(opens');
    assert opens'[..|opens'| - 1] == opens;
    PrefixState(opens, o);
  }

  lemma PrefixState(opens: seq<Open>, o: Open)
    requires o.left.None? && o.center.None?
    ensures PushOperand(Push(StateOf(opens, None, false), o.op, None), Placeholder) == StateOf(opens + [o], None, false)
  {
    assert Entries(opens + [o]) == Entries(opens) + [EntryOf(o)];
    assert Ops(Entries(opens) + [EntryOf(o)]) == Ops(Entries(opens)) + [o.op];
    assert Lefts(Entries(opens) + [EntryOf(o)]) == Lefts(Entries(opens)) + [Placeholder];
    assert Centers(Entries(opens) + [EntryOf(o)]) == Centers(Entries(opens)) + [None];
  }

  lemma PrefixOpen(opens: seq<Open>, o: Open)
    requires Stacked(opens) && o.op.Pre? && IsPrefix(o.op.tok) && o == Open(o.op, None, None)
    requires opens != [] ==> !Closed(Last(opens).op) && Last(opens).op !in {Plain(Dot), Plain(Arrow)}
    ensures OpenOk(o) && OpenText(o) == [o.op.tok] && !Closed(o.op) && (opens != [] ==> !Reduces(o.op, Last(opens).op))
  {
    hide Loose, LeftOk;
    if opens != [] {
      assert OpenOk(Last(opens));
    }
  }

  // ----- the loop -----

  /** No operator stands right behind `.` or `->`. */
  predicate DotFree(toks: seq<Tok>) {
    forall i :: 0 <= i < |toks| - 1 && IsDot(toks[i]) ==> !IsOperator(toks[i + 1])
  }

  lemma Glue(toks: seq<Tok>, a: nat, b: nat, c: nat)
    requires a <= b <= c <= |toks|
    ensures toks[a..b] + toks[b..c] == toks[a..c]
  {
  }

  lemma GlueOne(toks: seq<Tok>, b: nat, c: nat)
    requires b < c <= |toks|
    ensures [toks[b]] + toks[b + 1..c] == toks[b..c]
  {
  }

  lemma {:induction false} LoopAccepted(toks: seq<Tok>, from: nat, pos: nat, ends: seq<Tok>, opens: seq<Open>, top: Option<Cst>, want: bool) returns (e: Cst)
    requires from <= pos <= |toks| && Space !in toks && DotFree(toks)
    requires Standing(opens, top, want) && toks[from..pos] == Seen(opens, top, want)
    requires Accepts(Loop(toks, pos, ends, StateOf(opens, top, want), want))
    ensures var r := Loop(toks, pos, ends, StateOf(opens, top, want), want).value;
            Loose(e) && TreeOf(e) == Finish(r.0, true).value && from <= r.2 && Tokens(e) == toks[from..r.2]
    decreases |toks| - pos, 3
  {
    hide Step, Seen, StateOf, Standing, Finish, DotFree, Loose, TreeOf, Tokens;
    if pos == |toks| || toks[pos] in ends {
      e := FinishAccepted(opens, top);
    } else {
      var st := StateOf(opens, top, want);
      var r := Step(toks, pos, st, want).value;
      NotDoomed(toks, pos, ends, st, want);
      var opens', top' := StepAccepted(toks, from, pos, opens, top, want);
      e := LoopAccepted(toks, from, r.2, ends, opens', top', r.1);
    }
  }

  lemma FinishAccepted(opens: seq<Open>, top: Option<Cst>) returns (e: Cst)
    requires Standing(opens, top, true) && Finish(StateOf(opens, top, true), true).Some?
    ensures Loose(e) && TreeOf(e) == Finish(StateOf(opens, top, true), true).value && Tokens(e) == Seen(opens, top, true)
  {
    hide Rewind, Loose, LeftOk, Reduces, Tokens, TreeOf, Held;
    HeldReady(opens, top, Blank);
    var opens';
    opens', e := Rewinds(opens, top, Blank, None);
    assert Text([]) == [];
    StandingText(opens, top, true);
  }

  /** Where the parser goes on to accept, the operator it has met has a priority. */
  lemma NotDoomed(toks: seq<Tok>, pos: nat, ends: seq<Tok>, st: State, want: bool)
    requires pos < |toks| && Space !in toks && toks[pos] !in ends && Shape(st, want) && Accepts(Loop(toks, pos, ends, st, want))
    ensures Step(toks, pos, st, want).Some? && (want && IsOperator(toks[pos]) ==> toks[pos] in {Question, PlusPlus, MinusMinus} || IsInfix(toks[pos]))
  {
    hide Step, Turn, Part, IsInfix, IsOperator, Doomed;
    assert toks[pos] in toks;
    var r := Step(toks, pos, st, want);
    if want && IsOperator(toks[pos]) && toks[pos] !in {Question, PlusPlus, MinusMinus} && !IsInfix(toks[pos]) {
      StepTurn(toks, pos, st, want);
      BadInfix(st, toks[pos], Part(toks, pos, want));
      LoopDoomed(toks, r.value.2, ends, r.value.0, r.value.1);
    }
  }

  lemma {:induction false} StepAccepted(toks: seq<Tok>, from: nat, pos: nat, opens: seq<Open>, top: Option<Cst>, want: bool)
    returns (opens': seq<Open>, top': Option<Cst>)
    requires from <= pos < |toks| && Space !in toks && DotFree(toks)
    requires Standing(opens, top, want) && toks[from..pos] == Seen(opens, top, want)
    requires Step(toks, pos, StateOf(opens, top, want), want).Some?
    requires want && IsOperator(toks[pos]) ==> toks[pos] in {Question, PlusPlus, MinusMinus} || IsInfix(toks[pos])
    ensures var r := Step(toks, pos, StateOf(opens, top, want), want).value;
            Standing(opens', top', r.1) && r.0 == StateOf(opens', top', r.1) && toks[from..r.2] == Seen(opens', top', r.1)
    decreases |toks| - pos, 2
  {
    hide Step, Seen, StateOf, Standing, DotFree, Turn, Part, IsOperator, IsInfix;
    assert toks[pos] in toks;
    var st := StateOf(opens, top, want);
    var r := Step(toks, pos, st, want).value;
    if !want && toks[pos] == Sizeof {
      SizeofTurn(toks, pos, st);
    }
    StepTurn(toks, pos, st, want);
    if want {
      opens', top' := OperatorAccepted(toks, from, pos, opens, top, r);
    } else {
      opens', top' := OperandAccepted(toks, from, pos, opens, top, r);
    }
  }

  lemma {:induction false} OperatorAccepted(toks: seq<Tok>, from: nat, pos: nat, opens: seq<Open>, top: Option<Cst>, r: (State, bool, nat))
    returns (opens': seq<Open>, top': Option<Cst>)
    requires from <= pos < |toks| && Space !in toks && DotFree(toks)
    requires Standing(opens, top, true) && toks[from..pos] == Seen(opens, top, true)
    requires IsOperator(toks[pos]) ==> toks[pos] in {Question, PlusPlus, MinusMinus} || IsInfix(toks[pos])
    requires from <= r.2 <= |toks| && Turn(StateOf(opens, top, true), true, toks[pos], Part(toks, pos, true)) == Some(r)
    ensures Standing(opens', top', r.1) && r.0 == StateOf(opens', top', r.1) && toks[from..r.2] == Seen(opens', top', r.1)
    decreases |toks| - pos, 1
  {
    hide Seen, StateOf, Standing, DotFree, IsInfix, Enclosed, Rewind, Infix, Arguments, Tokens, TreeOf, Loose;
    var tok := toks[pos];
    var p := Part(toks, pos, true).value.1;
    top' := None;
    if tok == PlusPlus || tok == MinusMinus {
      opens' := ClosedTurn(opens, top, Post(tok), None);
      Glue(toks, from, pos, p);
      GlueOne(toks, pos, p);
    } else if tok == LParen || tok == LBracket {
      top' := BracketAccepted(toks, pos);
      opens' := ClosedTurn(opens, top, Plain(tok), top');
      Glue(toks, from, pos, p);
    } else {
      var c := CenterAccepted(toks, pos);
      opens' := InfixTurn(opens, top, tok, c, p);
      Glue(toks, from, pos, p);
      BareSeen(opens');
    }
  }

  lemma BareSeen(opens: seq<Open>)
    requires Standing(opens, None, false)
    ensures Seen(opens, None, false) == Text(opens)
  {
  }

  /** The tokens of an argument list or of an index, brackets included. */
  lemma {:induction false} BracketAccepted(toks: seq<Tok>, pos: nat) returns (arg: Option<Cst>)
    requires pos < |toks| && Space !in toks && DotFree(toks) && toks[pos] in {LParen, LBracket} && Part(toks, pos, true).Some?
    ensures TopFits(Open(Plain(toks[pos]), None, None), arg) && TreeOr(arg) == Part(toks, pos, true).value.0
    ensures pos < Part(toks, pos, true).value.1 <= |toks|
    ensures toks[pos..Part(toks, pos, true).value.1] == [toks[pos]] + TopText(Open(Plain(toks[pos]), None, None), arg)
    decreases |toks| - pos, 0
  {
    hide Enclosed, DotFree, Loose, Tokens, TreeOf;
    var p := Part(toks, pos, true).value.1;
    if toks[pos] == LParen && toks[pos + 1] == RParen {
      arg := None;
      assert toks[pos..p] == [LParen] + ([] + [RParen]);
    } else {
      var e := EnclosedAccepted(toks, pos + 1, if toks[pos] == LParen then RParen else RBracket);
      arg := Some(e);
      GlueOne(toks, pos, p);
    }
  }

  /** An infix operator; for the question mark with what stands before the colon. */
  lemma {:induction false} CenterAccepted(toks: seq<Tok>, pos: nat) returns (c: Option<Cst>)
    requires pos < |toks| && Space !in toks && DotFree(toks) && toks[pos] !in {LParen, LBracket} && Part(toks, pos, true).Some?
    ensures c.Some? <==> toks[pos] == Question
    ensures c.Some? ==> Loose(c.value) && TreeOf(c.value) == Part(toks, pos, true).value.0
    ensures pos < Part(toks, pos, true).value.1 <= |toks|
    ensures toks[pos..Part(toks, pos, true).value.1] == [toks[pos]] + if toks[pos] == Question then Tokens(c.value) + [Colon] else []
    decreases |toks| - pos, 0
  {
    hide Enclosed, DotFree, Loose, Tokens, TreeOf;
    c := None;
    if toks[pos] == Question {
      var e := EnclosedAccepted(toks, pos + 1, Colon);
      c := Some(e);
    }
    GlueOne(toks, pos, Part(toks, pos, true).value.1);
  }

  lemma {:induction false} OperandAccepted(toks: seq<Tok>, from: nat, pos: nat, opens: seq<Open>, top: Option<Cst>, r: (State, bool, nat))
    returns (opens': seq<Open>, top': Option<Cst>)
    requires from <= pos < |toks| && Space !in toks && DotFree(toks)
    requires Standing(opens, top, false) && toks[from..pos] == Seen(opens, top, false)
    requires from <= r.2 <= |toks| && Turn(StateOf(opens, top, false), false, toks[pos], Part(toks, pos, false)) == Some(r)
    ensures Standing(opens', top', r.1) && r.0 == StateOf(opens', top', r.1) && toks[from..r.2] == Seen(opens', top', r.1)
    decreases |toks| - pos, 1
  {
    hide Seen, StateOf, Standing, DotFree, Enclosed, Rewind, Tokens, TreeOf, Loose;
    var tok := toks[pos];
    var p := Part(toks, pos, false).value.1;
    NoTop(opens, top);
    BareSeen(opens);
    if IsOperator(tok) {
      NotBehindDot(toks, from, pos, opens);
      opens' := PrefixTurn(opens, tok);
      top' := None;
      BareSeen(opens');
      GlueOne(toks, pos, p);
    } else {
      var e;
      if tok == LParen {
        var x := EnclosedAccepted(toks, pos + 1, RParen);
        e := Group(x);
        GroupIs(x);
      } else {
        e := Name(tok);
        assert tok in toks;
        NameIs(tok);
      }
      GlueOne(toks, pos, p);
      opens', top' := opens, Some(e);
      AtomStanding(opens, e);
      OperandPushed(opens, top');
    }
    Glue(toks, from, pos, p);
  }

  lemma NoTop(opens: seq<Open>, top: Option<Cst>)
    requires Standing(opens, top, false)
    ensures top == None
  {
  }

  lemma GroupIs(x: Cst)
    requires Loose(x)
    ensures Loose(Group(x)) && Atomic(Group(x)) && TreeOf(Group(x)) == TreeOf(x) && Tokens(Group(x)) == [LParen] + (Tokens(x) + [RParen])
  {
  }

  lemma NameIs(tok: Tok)
    requires !IsOperator(tok) && tok != LParen && tok != Space
    ensures Loose(Name(tok)) && Atomic(Name(tok)) && TreeOf(Name(tok)) == Leaf(tok) && Tokens(Name(tok)) == [tok]
  {
  }

  lemma AtomStanding(opens: seq<Open>, e: Cst)
    requires Standing(opens, None, false) && Loose(e) && Atomic(e)
    ensures Standing(opens, Some(e), true) && Seen(opens, Some(e), true) == Text(opens) + Tokens(e)
  {
    hide Loose, Tokens;
    if opens != [] {
      StandingText(opens, Some(e), true);
      NotClosedText(Last(opens), Some(e));
    }
  }

  predicate IsDot(tok: Tok) {
    tok == Dot || tok == Arrow
  }

  lemma DotLast(toks: seq<Tok>, from: nat, pos: nat, opens: seq<Open>)
    requires from <= pos <= |toks| && Stacked(opens) && toks[from..pos] == Text(opens)
    ensures opens != [] && Last(opens).op in {Plain(Dot), Plain(Arrow)} ==> pos > 0 && IsDot(toks[pos - 1])
  {
    hide OpenOk, OpenText, Text;
    if opens != [] && Last(opens).op in {Plain(Dot), Plain(Arrow)} {
      DotText(Last(opens));
      TextLast(opens);
      var text := Text(opens);
      assert toks[pos - 1] == toks[from..pos][|text| - 1];
    }
  }

  lemma DotText(o: Open)
    requires OpenOk(o) && o.op in {Plain(Dot), Plain(Arrow)}
    ensures OpenText(o) != [] && IsDot(OpenText(o)[|OpenText(o)| - 1])
  {
    hide Loose, LeftOk, Tokens, IsInfix;
  }

  /** Behind a dot there is no operator, so that a prefix operator finds no dot below it. */
  lemma NotBehindDot(toks: seq<Tok>, from: nat, pos: nat, opens: seq<Open>)
    requires from <= pos < |toks| && DotFree(toks) && IsOperator(toks[pos]) && Standing(opens, None, false) && toks[from..pos] == Text(opens)
    ensures opens != [] ==> Last(opens).op !in {Plain(Dot), Plain(Arrow)}
  {
    hide Stacked, IsOperator, Text;
    DotLast(toks, from, pos, opens);
    if pos > 0 {
      NoneBehind(toks, pos - 1);
    }
  }

  lemma NoneBehind(toks: seq<Tok>, i: nat)
    requires DotFree(toks) && i + 1 < |toks|
    ensures IsDot(toks[i]) ==> !IsOperator(toks[i + 1])
  {
  }

  lemma {:induction false} EnclosedAccepted(toks: seq<Tok>, pos: nat, close: Tok) returns (e: Cst)
    requires pos <= |toks| && Space !in toks && DotFree(toks) && Enclosed(toks, pos, close).Some?
    ensures var (ast, p) := Enclosed(toks, pos, close).value;
            pos < p <= |toks| && Loose(e) && TreeOf(e) == ast && toks[pos..p] == Tokens(e) + [close]
    decreases |toks| - pos, 4
  {
    hide Loop, Finish, DotFree, Loose, Tokens, TreeOf;
    NotWhole(toks, pos, [close]);
    NothingStanding();
    e := LoopAccepted(toks, pos, pos, [close], [], None, false);
    var p := Enclosed(toks, pos, close).value.1;
    Glue(toks, pos, p - 1, p);
  }

  lemma NothingStanding()
    ensures Standing([], None, false) && Seen([], None, false) == [] && StateOf([], None, false) == EMPTY
  {
  }

  // ----- the result -----

  predicate Reading(e: Cst, toks: seq<Tok>, ast: Ast) {
    Loose(e) && Tokens(e) == toks && TreeOf(e) == ast
  }

  /** Whatever the parser accepts, blanks left aside, is an expression with exactly these tokens, grouped by
      the tables, and the tree is its tree: if no operator stands right behind `.` or `->`. */
  lemma AcceptedReads(toks: seq<Tok>) returns (e: Cst)
    requires Parse(toks, 0, []).Some? && DotFree(Dense(toks))
    ensures Reading(e, Dense(toks), Parse(toks, 0, []).value.0)
  {
    hide Loop, Finish, DotFree, Loose, Tokens, TreeOf, Parse;
    var d := Dense(toks);
    BlanksIff(toks);
    BlanksIff(d);
    NoBlanks(toks);
    NotWhole(d, 0, []);
    NothingStanding();
    e := LoopAccepted(d, 0, 0, [], [], None, false);
    DenseDense(d);
    assert d[0..|d|] == d;
  }

  lemma {:induction false} NoBlanks(toks: seq<Tok>)
    ensures Space !in Dense(toks)
  {
    if toks != [] {
      NoBlanks(toks[1..]);
    }
  }

  lemma {:induction false} DenseDense(d: seq<Tok>)
    requires Space !in d
    ensures Dense(d) == d
  {
    if d != [] {
      DenseDense(d[1..]);
    }
  }

  // ----- and only then -----

  /** No dot stands at the end, and none before an operator. */
  predicate Dotted(toks: seq<Tok>) {
    toks != [] && DotFree(toks) && !IsDot(toks[|toks| - 1])
  }

  lemma DottedConcat(a: seq<Tok>, b: seq<Tok>)
    requires DotFree(a) && Dotted(b) && (a != [] && IsDot(a[|a| - 1]) ==> !IsOperator(b[0]))
    ensures Dotted(a + b)
  {
    hide IsOperator, IsDot;
    var s := a + b;
    forall i | 0 <= i < |s| - 1 && IsDot(s[i]) ensures !IsOperator(s[i + 1]) {
      if i < |a| - 1 {
        NoneBehind(a, i);
      } else if i >= |a| {
        NoneBehind(b, i - |a|);
      }
    }
  }

  lemma DottedOne(tok: Tok)
    ensures DotFree([tok]) && (!IsDot(tok) ==> Dotted([tok]))
  {
  }

  lemma {:induction false} LooseDotted(e: Cst)
    requires Loose(e)
    ensures Dotted(Tokens(e))
  {
    hide Dotted, DotFree, LeftOk, RightOk, IsInfix, IsPrefix;
    match e
    case Name(tok) => NameDotted(tok);
    case Group(x) => LooseDotted(x); BracketDotted([], LParen, x, RParen);
    case Prefix(tok, x) => PrefixDotted(tok); LooseDotted(x); DottedConcat([tok], Tokens(x));
    case Postfix(x, tok) => LooseDotted(x); PostfixDotted(x, tok);
    case Binary(l, tok, r) => LooseDotted(l); LooseDotted(r); BinaryDotted(l, tok, r);
    case Ternary(l, c, r) => LooseDotted(l); LooseDotted(c); LooseDotted(r); TernaryDotted(l, c, r);
    case Call(x, args) =>
      LooseDotted(x);
      if args.Some? {
        LooseDotted(args.value);
        BracketDotted(Tokens(x), LParen, args.value, RParen);
      } else {
        EmptyDotted(Tokens(x));
      }
    case Index(x, i) => LooseDotted(x); LooseDotted(i); BracketDotted(Tokens(x), LBracket, i, RBracket);
  }

  lemma NameDotted(tok: Tok)
    requires !IsOperator(tok)
    ensures Dotted([tok])
  {
  }

  lemma PrefixDotted(tok: Tok)
    requires IsPrefix(tok)
    ensures DotFree([tok]) && !IsDot(tok)
  {
  }

  lemma PostfixDotted(x: Cst, tok: Tok)
    requires Dotted(Tokens(x)) && (tok == PlusPlus || tok == MinusMinus)
    ensures Dotted(Tokens(x) + [tok])
  {
    hide Tokens;
    DottedOne(tok);
    DottedConcat(Tokens(x), [tok]);
  }

  /** [ front ] open x close */
  lemma BracketDotted(front: seq<Tok>, open: Tok, x: Cst, close: Tok)
    requires (front == [] || Dotted(front)) && Dotted(Tokens(x)) && open in {LParen, LBracket} && close in {RParen, RBracket}
    ensures Dotted(front + ([open] + (Tokens(x) + [close]))) && Dotted([open] + (Tokens(x) + [close]))
  {
    hide Tokens;
    DottedOne(open);
    DottedOne(close);
    DottedConcat(Tokens(x), [close]);
    DottedConcat([open], Tokens(x) + [close]);
    DottedConcat(front, [open] + (Tokens(x) + [close]));
  }

  lemma EmptyDotted(front: seq<Tok>)
    requires Dotted(front)
    ensures Dotted(front + ([LParen] + ([] + [RParen])))
  {
    assert [] + [RParen] == [RParen];
    DottedOne(LParen);
    DottedOne(RParen);
    DottedConcat([LParen], [RParen]);
    DottedConcat(front, [LParen] + [RParen]);
  }

  lemma TernaryDotted(l: Cst, c: Cst, r: Cst)
    requires Dotted(Tokens(l)) && Dotted(Tokens(c)) && Dotted(Tokens(r))
    ensures Dotted(Tokens(l) + ([Question] + ((Tokens(c) + [Colon]) + Tokens(r))))
  {
    hide Tokens;
    DottedOne(Question);
    DottedOne(Colon);
    DottedConcat(Tokens(c), [Colon]);
    DottedConcat(Tokens(c) + [Colon], Tokens(r));
    DottedConcat([Question], (Tokens(c) + [Colon]) + Tokens(r));
    DottedConcat(Tokens(l), [Question] + ((Tokens(c) + [Colon]) + Tokens(r)));
  }

  lemma BinaryDotted(l: Cst, tok: Tok, r: Cst)
    requires Dotted(Tokens(l)) && Dotted(Tokens(r)) && Loose(Binary(l, tok, r))
    ensures Dotted(Tokens(l) + ([tok] + ([] + Tokens(r))))
  {
    hide Loose, LeftOk, IsInfix;
    assert [] + Tokens(r) == Tokens(r);
    DottedOne(tok);
    if IsDot(tok) {
      BehindDot(l, tok, r);
    }
    DottedConcat([tok], Tokens(r));
    DottedConcat(Tokens(l), [tok] + Tokens(r));
  }

  /** The right operand of a dot is a name or a group. */
  lemma BehindDot(l: Cst, tok: Tok, r: Cst)
    requires Loose(Binary(l, tok, r)) && IsDot(tok)
    ensures Tokens(r) != [] && !IsOperator(Tokens(r)[0])
  {
    hide LeftOk, IsInfix;
    if !Atomic(r) {
      LoosePriority(r);
    }
  }

  lemma LoosePriority(e: Cst)
    requires Loose(e) && !Atomic(e)
    ensures Priority(OpOf(e)) > 0
  {
    hide LeftOk, RightOk;
  }

  /** Of what the parser accepts, exactly the sequences without an operator behind a dot are expressions
      with the tree that it gives: `a . ! b` is accepted as the `!` of b, with `a .` lost in a place where
      a prefix operator has no operand. */
  lemma AcceptedIff(toks: seq<Tok>)
    requires Parse(toks, 0, []).Some?
    ensures (exists e :: Reading(e, Dense(toks), Parse(toks, 0, []).value.0)) <==> DotFree(Dense(toks))
  {
    hide Parse, DotFree, Loose, Tokens, TreeOf;
    if DotFree(Dense(toks)) {
      var e := AcceptedReads(toks);
    }
    if e :| Reading(e, Dense(toks), Parse(toks, 0, []).value.0) {
      LooseDotted(e);
    }
  }

  /** The smallest such input. */
  lemma DotPrefix(a: string, b: string)
    ensures Parse([Word(a), Dot, Not, Word(b)], 0, [])
         == Some((Node(Pre(Not), Node(Plain(Dot), Leaf(Word(a)), None, Placeholder), None, Leaf(Word(b))), 4))
  {
    hide Loop, Step, Finish, Rewind;
    var toks := [Word(a), Dot, Not, Word(b)];
    var s1, s2 := State([], [Leaf(Word(a))], []), State([Plain(Dot)], [Leaf(Word(a))], [None]);
    var n := Node(Plain(Dot), Leaf(Word(a)), None, Placeholder);
    var s3, s4 := State([Pre(Not)], [n], [None]), State([Pre(Not)], [n, Leaf(Word(b))], [None]);
    assert PushOperand(EMPTY, Leaf(Word(a))) == s1 && Push(s1, Plain(Dot), None) == s2 && PushOperand(s3, Leaf(Word(b))) == s4;
    TurnWord(toks, 0, EMPTY);
    LoopTurns(toks, 0, [], EMPTY, false, s1, true, 1);
    OneOperator(s2);
    TurnInfix(toks, 1, s1, s2);
    LoopTurns(toks, 1, [], s1, true, s2, false, 2);
    DotReduced(Leaf(Word(a)));
    StepTurn(toks, 2, s2, false);
    LoopTurns(toks, 2, [], s2, false, s3, false, 3);
    TurnWord(toks, 3, s3);
    LoopTurns(toks, 3, [], s3, false, s4, true, 4);
    EndsAt(toks, s4);
    PrefixFinished(n, Leaf(Word(b)));
    NotWhole(toks, 0, []);
  }

  lemma OneOperator(st: State)
    requires Balanced(st) && |st.ops| == 1
    ensures Rewind(st) == Some(st)
  {
  }

  lemma TwoOperators(below: Op, op: Op, l: Ast, r: Ast)
    requires Priority(op) > 0 && Priority(below) > 0 && Reduces(op, below) && below != Plain(Question)
    ensures Rewind(State([below, op], [l, r], [None, None])) == Some(State([op], [Node(below, l, None, r)], [None]))
  {
    hide Priority, Reduces;
    var y := State([op], [Node(below, l, None, r)], [None]);
    assert Reduce(State([below, op], [l, r], [None, None])) == y;
    OneOperator(y);
  }

  /** The prefix operator takes the dot for complete, with its own placeholder as the right operand. */
  lemma DotReduced(a: Ast)
    ensures Turn(State([Plain(Dot)], [a], [None]), false, Not, Some((Placeholder, 3)))
         == Some((State([Pre(Not)], [Node(Plain(Dot), a, None, Placeholder)], [None]), false, 3))
  {
    hide Rewind;
    TwoOperators(Plain(Dot), Pre(Not), a, Placeholder);
    assert PushOperand(Push(State([Plain(Dot)], [a], [None]), Pre(Not), None), Placeholder)
        == State([Plain(Dot), Pre(Not)], [a, Placeholder], [None, None]);
  }

  lemma PrefixFinished(n: Ast, b: Ast)
    ensures Finish(State([Pre(Not)], [n, b], [None]), true) == Some(Node(Pre(Not), n, None, b))
  {
    hide Rewind;
    TwoOperators(Pre(Not), Blank, n, b);
    assert Push(State([Pre(Not)], [n, b], [None]), Blank, None) == State([Pre(Not), Blank], [n, b], [None, None]);
  }

  lemma EndsAt(toks: seq<Tok>, st: State)
    requires Shape(st, true)
    ensures Loop(toks, |toks|, [], st, true) == Some((st, true, |toks|))
  {
  }
}
