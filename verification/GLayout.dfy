/** Where the declarations of an accepted program lie: one behind the other, each global and each array with
    zero bytes of its own; and the memory that a program starts with. */
module GLayout {
  import opened Options
  import opened GSyntax
  import opened GCompile
  import opened GTwoPass
  import opened GData
  import opened GMachine
  import opened GSemantics
  import opened GFrame
  import opened GStrings

  // ----- the bytes of each declaration -----

  /** What a declaration has emitted, and where it starts. */
  datatype Piece = Piece(from: int, code: seq<Instr>)

  function To(x: Piece): int {
    x.from + Sizes(x.code)
  }

  function Pieces(p: Program, s: S): (r: seq<Piece>)
    requires RunProgram(p, s).Some?
    ensures |r| == Count(p)
  {
    if p.End? then []
    else var o := RunDecl(p.head, s).value; [Piece(s.loc, o.code)] + Pieces(p.tail, o.s)
  }

  /** They follow one another, and make up the whole. */
  lemma {:induction false} PiecesFollow(p: Program, s: S, img: Image, i: nat)
    requires RunProgram(p, s).Some? && i < Count(p) && CodeAt(img, s.loc, RunProgram(p, s).value.code)
    ensures var r := Pieces(p, s);
            && s.loc <= r[i].from && To(r[i]) <= RunProgram(p, s).value.s.loc && CodeAt(img, r[i].from, r[i].code)
            && forall j :: i < j < |r| ==> To(r[i]) <= r[j].from
    decreases p
  {
    hide RunDecl, CodeAt, Sizes;
    var o := RunDecl(p.head, s).value;
    DeclFacts(p.head, s);
    ProgramFacts(p.tail, o.s);
    CodeAtSplit(img, s.loc, o.code, RunProgram(p.tail, o.s).value.code);
    var r, rest := Pieces(p, s), Pieces(p.tail, o.s);
    if i == 0 {
      forall j | 0 < j < |r| ensures To(r[0]) <= r[j].from {
        assert r[j] == rest[j - 1];
        PiecesFollow(p.tail, o.s, img, j - 1);
      }
    } else {
      PiecesFollow(p.tail, o.s, img, i - 1);
      forall j | i < j < |r| ensures To(r[i]) <= r[j].from {
        assert r[j] == rest[j - 1];
      }
    }
  }

  // ----- what they are -----

  /** How many bytes a global or an array takes. */
  function DataSize(d: Decl, table: Table): nat {
    match d
    case Global(_) => 4
    case Array(_, operand) => var len := ValueIn(table, operand); if len < 0 then 0 else len
    case _ => 0
  }

  /** n zero bytes. */
  ghost predicate ZerosAt(img: Image, a: int, n: nat) {
    forall k :: a <= k < a + n ==> ByteAt(img, k, 0)
  }

  /** What the table says of a declaration whose bytes are those of x. */
  predicate Recorded(d: Decl, table: Table, x: Piece) {
    && Named(d.name) in table
    && match d
       case Fun(name, arity, _) => table[Named(name)] == Entry(x.from, arity) && Sizes(x.code) > 0
       case Ifun(name, arity) => table[Named(name)].arity == arity && x.code == []
       case Const(name, operand) => table[Named(name)] == Entry(ValueIn(table, operand), CONSTANT) && x.code == []
       case Global(name) => table[Named(name)] == Entry(x.from, VARIABLE) && x.code == seq(4, _ => Byte(0))
       case Array(name, _) => table[Named(name)] == Entry(x.from, CONSTANT) && x.code == seq(DataSize(d, table), _ => Byte(0))
  }

  lemma DeclRecorded(d: Decl, s: S)
    requires s.stage == 1 && RunDecl(d, s).Some?
    ensures Recorded(d, s.table, Piece(s.loc, RunDecl(d, s).value.code))
  {
    hide RunBlock, Sizes;
    match d
    case Fun(name, arity, body) =>
      var s1 := Emit(Fix(s, name, s.loc, arity).value, [PushEbp, MovEbpEsp]);
      SizesConcat3([PushEbp, MovEbpEsp], RunBlock(body, s1).value.code, [PopEbp, Return]);
      SizesTwo(PushEbp, MovEbpEsp);
    case _ =>
  }

  lemma {:induction false} PiecesRecorded(p: Program, s: S, i: nat)
    requires s.stage == 1 && RunProgram(p, s).Some? && i < Count(p)
    ensures Recorded(DeclAt(p, i), s.table, Pieces(p, s)[i])
    decreases p
  {
    hide RunDecl, Recorded;
    DeclFacts(p.head, s);
    if i == 0 {
      DeclRecorded(p.head, s);
    } else {
      PiecesRecorded(p.tail, RunDecl(p.head, s).value.s, i - 1);
    }
  }

  lemma {:induction false} ZerosLoaded(img: Image, a: int, n: nat)
    requires CodeAt(img, a, seq(n, _ => Byte(0)))
    ensures ZerosAt(img, a, n) && Sizes(seq(n, _ => Byte(0))) == n
    decreases n
  {
    if n > 0 {
      var code := seq(n, _ => Byte(0));
      assert code[1..] == seq(n - 1, _ => Byte(0)) && code[0] == Byte(0);
      ZerosLoaded(img, a + 1, n - 1);
    }
  }

  /** A program that the second pass has accepted, loaded: where the state of the pass is s at the start. */
  ghost predicate Accepted(p: Program, start: nat, table: Table, img: Image) {
    RunPass(p, 1, start, table).Some? && CodeAt(img, start, RunPass(p, 1, start, table).value.code)
  }

  function Started(start: nat, table: Table): S {
    S(1, [], 0, start, table, true)
  }

  /** In an accepted program each `const` has its literal, or the location of the symbol that it names; and each
      function the arity that it was declared with. */
  lemma ConstantsMean(p: Program, start: nat, table: Table, i: nat)
    requires RunPass(p, 1, start, table).Some? && i < Count(p)
    ensures var d := DeclAt(p, i);
            && Named(d.name) in table
            && (d.Const? ==> table[Named(d.name)] == Entry(ValueIn(table, d.operand), CONSTANT))
            && (d.Fun? || d.Ifun? ==> table[Named(d.name)].arity == d.arity)
  {
    hide RunProgram, Sizes;
    PiecesRecorded(p, Started(start, table), i);
  }

  /** In the loaded code of an accepted program each global has four zero bytes at its location, and each array
      as many as its length says, inside the program; and no byte of them is one of another declaration. */
  lemma DataInPlace(p: Program, start: nat, table: Table, img: Image, i: nat, j: nat)
    requires Accepted(p, start, table, img) && i < Count(p) && j < Count(p) && i != j
    requires DeclAt(p, i).Global? || DeclAt(p, i).Array?
    ensures var d, size := DeclAt(p, i), DataSize(DeclAt(p, i), table);
            var other := Pieces(p, Started(start, table))[j];
            && Named(d.name) in table && ZerosAt(img, table[Named(d.name)].loc, size)
            && start <= table[Named(d.name)].loc && table[Named(d.name)].loc + size <= RunPass(p, 1, start, table).value.s.loc
            && (To(other) <= table[Named(d.name)].loc || table[Named(d.name)].loc + size <= other.from)
  {
    DataThere(p, start, table, img, i);
    hide RunProgram, CodeAt, Recorded, Sizes, ZerosAt, Pieces;
    var s := Started(start, table);
    PiecesFollow(p, s, img, i);
    PiecesFollow(p, s, img, j);
  }

  lemma DataThere(p: Program, start: nat, table: Table, img: Image, i: nat)
    requires Accepted(p, start, table, img) && i < Count(p) && (DeclAt(p, i).Global? || DeclAt(p, i).Array?)
    ensures var d, size := DeclAt(p, i), DataSize(DeclAt(p, i), table);
            var x := Pieces(p, Started(start, table))[i];
            && Named(d.name) in table && table[Named(d.name)].loc == x.from && To(x) == x.from + size
            && ZerosAt(img, x.from, size) && start <= x.from && To(x) <= RunPass(p, 1, start, table).value.s.loc
  {
    hide RunProgram, CodeAt, Sizes, ZerosAt, Pieces;
    var s := Started(start, table);
    PiecesRecorded(p, s, i);
    PiecesFollow(p, s, img, i);
    ZerosLoaded(img, Pieces(p, s)[i].from, DataSize(DeclAt(p, i), table));
  }

  // ----- the memory that a program starts with -----

  /** Where four bytes of data lie, memory has the word that they make up, the lowest first. */
  ghost predicate WordLoaded(img: Image, mem: Mem, a: int) {
    (forall k :: a <= k < a + 4 ==> k in img.code && img.code[k].Byte?) ==>
      Load(mem, a) == img.code[a].value + 0x100 * img.code[a + 1].value + 0x1_0000 * img.code[a + 2].value + 0x100_0000 * img.code[a + 3].value
  }

  ghost predicate Loaded(img: Image, mem: Mem) {
    forall a: int :: WordLoaded(img, mem, a)
  }

  /** The words of n bytes at a, all of them zero. */
  function Cells(a: int, n: nat): Store {
    map k: int | a <= k < a + n && IsCell(k, a, n) :: Word(0)
  }

  predicate IsCell(k: int, a: int, n: nat) {
    k + 4 <= a + n && (k - a) % 4 == 0
  }

  /** The globals and arrays of a program, all zero. */
  function DataStore(p: Program, table: Table): Store {
    if p.End? then map[]
    else DataStore(p.tail, table) + Cells(Place(table, p.head.name), DataSize(p.head, table))
  }

  lemma ZeroWord(img: Image, mem: Mem, a: int, n: nat, k: int)
    requires Loaded(img, mem) && ZerosAt(img, a, n) && k in Cells(a, n)
    ensures Load(mem, k) == 0
  {
    assert WordLoaded(img, mem, k);
    forall x | k <= x < k + 4 ensures x in img.code && img.code[x] == Byte(0) {
      assert ByteAt(img, x, 0);
    }
  }

  /** Each cell is one of some declaration. */
  lemma {:induction false} CellOf(p: Program, table: Table, k: int) returns (i: nat)
    requires k in DataStore(p, table)
    ensures i < Count(p) && k in Cells(Place(table, DeclAt(p, i).name), DataSize(DeclAt(p, i), table))
    ensures DeclAt(p, i).Global? || DeclAt(p, i).Array?
    decreases p
  {
    hide Cells;
    if k in Cells(Place(table, p.head.name), DataSize(p.head, table)) {
      i := 0;
      CellsSize(Place(table, p.head.name), DataSize(p.head, table), k);
    } else {
      i := CellOf(p.tail, table, k);
      i := i + 1;
    }
  }

  lemma CellsSize(a: int, n: nat, k: int)
    requires k in Cells(a, n)
    ensures n >= 4 && a <= k && k + 4 <= a + n && (k - a) % 4 == 0
  {
  }

  lemma {:induction false} StoreZero(p: Program, table: Table, k: int)
    requires k in DataStore(p, table)
    ensures DataStore(p, table)[k] == Word(0)
    decreases p
  {
    if k !in Cells(Place(table, p.head.name), DataSize(p.head, table)) {
      StoreZero(p.tail, table, k);
    }
  }

  /** The memory that an accepted program starts with is its globals and arrays, and they lie inside it. */
  lemma StoreLoaded(p: Program, start: nat, table: Table, img: Image, mem: Mem)
    requires Accepted(p, start, table, img) && Loaded(img, mem)
    ensures Agree(DataStore(p, table), mem)
    ensures forall k :: k in DataStore(p, table) ==> start <= k && k + 4 <= RunPass(p, 1, start, table).value.s.loc
  {
    hide Accepted, Loaded, DataStore, Cells, RunPass, Pieces;
    forall k | k in DataStore(p, table)
      ensures Refines(DataStore(p, table)[k], Load(mem, k)) && start <= k && k + 4 <= AcceptedEnd(p, start, table, img)
    {
      var i := CellOf(p, table, k);
      DataThere(p, start, table, img, i);
      StoreZero(p, table, k);
      var a, n := Place(table, DeclAt(p, i).name), DataSize(DeclAt(p, i), table);
      CellsSize(a, n, k);
      ZeroWord(img, mem, a, n, k);
    }
  }

  ghost function AcceptedEnd(p: Program, start: nat, table: Table, img: Image): int
    requires Accepted(p, start, table, img)
  {
    RunPass(p, 1, start, table).value.s.loc
  }

  /** No two of its cells overlap. */
  lemma CellsApart(p: Program, start: nat, table: Table, img: Image, k: int, l: int)
    requires Accepted(p, start, table, img) && k in DataStore(p, table) && l in DataStore(p, table) && k != l
    ensures k + 4 <= l || l + 4 <= k
  {
    hide Accepted, DataStore, Cells, RunPass, Pieces;
    var i := CellOf(p, table, k);
    var j := CellOf(p, table, l);
    CellsSize(Place(table, DeclAt(p, i).name), DataSize(DeclAt(p, i), table), k);
    CellsSize(Place(table, DeclAt(p, j).name), DataSize(DeclAt(p, j), table), l);
    if i != j {
      DataInPlace(p, start, table, img, i, j);
      DataThere(p, start, table, img, j);
    }
  }
}
