/** The map of asmg/avl_map.g, which despite its name is a plain binary search tree: records that are
    linked and unlinked in place, and an erase that moves keys about before it cuts off a leaf. */
module BstMap {
  import opened CString
  import opened BstShape

  type Entries = seq<(Str, int)>

  /** Keys and values of the records. */
  function EntriesOf(mem: Mem, addrs: seq<nat>): (r: Entries)
    requires forall i :: 0 <= i < |addrs| ==> addrs[i] in mem
    ensures |r| == |addrs|
  {
    seq(|addrs|, i requires 0 <= i < |addrs| => (mem[addrs[i]].key, mem[addrs[i]].value))
  }

  /** A record left of another has the greater key: strcmp of asmg/utils.g answers the wrong way round. */
  predicate Ordered(l: Entries) {
    forall i, j :: 0 <= i < j < |l| ==> Less(l[j].0, l[i].0)
  }

  predicate HasKey(l: Entries, k: Str) {
    exists i :: 0 <= i < |l| && l[i].0 == k
  }

  ghost predicate Represents(l: Entries, m: map<Str, int>) {
    && (forall i :: 0 <= i < |l| ==> l[i].0 in m && m[l[i].0] == l[i].1)
    && (forall k :: k in m ==> HasKey(l, k))
  }

  lemma RepAddrs(mem: Mem, t: Tree, parent: nat)
    requires Rep(mem, t, parent)
    ensures forall i :: 0 <= i < |Addrs(t)| ==> Addrs(t)[i] in mem && Addrs(t)[i] != 0
  {
  }

  /** Memory after a pointer is stored. */
  function Written(mem: Mem, at: Link, p: nat): Mem
    requires at.Root? || at.addr in mem
  {
    match at
    case Root => mem
    case LeftOf(a) => mem[a := mem[a].(left := p)]
    case RightOf(a) => mem[a := mem[a].(right := p)]
  }

  /** A new record hung into a gap of the tree. */
  lemma HangIn(mem: Mem, shape: Tree, off: nat, at: Link, a: nat, key: Str)
    requires Rep(mem, shape, 0) && Distinct(Addrs(shape)) && SubAt(shape, Root, Leaf, off, at)
    requires a !in mem && a != 0 && forall i :: 0 <= i < |Addrs(shape)| ==> Addrs(shape)[i] in mem
    requires at.Root? || at.addr in mem
    ensures off <= |Addrs(shape)|
    ensures var mem' := Written(mem[a := Rec(0, 0, Parent(at), key, 0)], at, a);
            var shape' := Subst(shape, Leaf, off, Node(Leaf, a, Leaf));
            && Rep(mem', shape', 0) && Pointer(shape') == (if at.Root? then a else Pointer(shape))
            && Addrs(shape') == Splice(Addrs(shape), off, 0, [a]) && Distinct(Addrs(shape'))
            && (forall i :: 0 <= i < |Addrs(shape')| ==> Addrs(shape')[i] in mem')
            && EntriesOf(mem', Addrs(shape')) == Splice(EntriesOf(mem, Addrs(shape)), off, 0, [(key, 0)])
  {
    hide SubAt, Subst, Rep, Addrs, EntriesOf, Distinct;
    var mem' := Written(mem[a := Rec(0, 0, Parent(at), key, 0)], at, a);
    var u := Node(Leaf, a, Leaf);
    var addrs := Addrs(shape);
    LeafAddrs(a);
    LinkIsNot(mem, at, a);
    LeafRep(mem', a, Parent(at));
    assert forall x :: x in addrs ==> Relinked(mem, mem', x, at, a);
    SubstRep(mem, mem', shape, Root, Leaf, off, at, u);
    SubstAddrs(shape, Root, Leaf, off, at, u);
    LinkOrRoot(shape, off, at);
    WithEntry(mem, mem', addrs, off, a);
  }

  lemma LinkIsNot(mem: Mem, at: Link, a: nat)
    requires a !in mem && a != 0 && (at.Root? || at.addr in mem)
    ensures Parent(at) != a
  {
  }

  lemma LeafRep(mem: Mem, a: nat, parent: nat)
    requires a != 0 && a in mem && mem[a].left == 0 && mem[a].right == 0 && mem[a].parent == parent
    ensures Rep(mem, Node(Leaf, a, Leaf), parent)
  {
  }

  lemma WithEntry(mem: Mem, mem': Mem, addrs: seq<nat>, off: nat, a: nat)
    requires Distinct(addrs) && off <= |addrs| && a !in addrs && forall i :: 0 <= i < |addrs| ==> addrs[i] in mem
    requires forall x :: x in addrs ==> x in mem' && mem'[x].key == mem[x].key && mem'[x].value == mem[x].value
    requires a in mem'
    ensures var addrs' := Splice(addrs, off, 0, [a]);
            && Distinct(addrs') && (forall i :: 0 <= i < |addrs'| ==> addrs'[i] in mem')
            && EntriesOf(mem', addrs') == Splice(EntriesOf(mem, addrs), off, 0, [(mem'[a].key, mem'[a].value)])
  {
    var addrs' := Splice(addrs, off, 0, [a]);
    assert forall i :: 0 <= i < |addrs'| ==> addrs'[i] == if i < off then addrs[i] else if i == off then a else addrs[i - 1];
  }

  lemma LinkOrRoot(shape: Tree, off: nat, at: Link)
    requires SubAt(shape, Root, Leaf, off, at)
    ensures at.Root? <==> shape.Leaf?
  {
    LinkWhere(shape, Root, Leaf, off, at);
    if shape.Node? && at.Root? {
      NotRoot(shape, Root, Leaf, off, at);
    }
  }

  lemma {:induction false} NotRoot(t: Tree, link: Link, cur: Tree, off: nat, at: Link)
    requires SubAt(t, link, cur, off, at) && at.Root?
    ensures t == cur && off == 0
    decreases t
  {
    if !(t == cur && off == 0) {
      if off + |Addrs(cur)| <= |Addrs(t.left)| {
        NotRoot(t.left, LeftOf(t.addr), cur, off, at);
      } else {
        NotRoot(t.right, RightOf(t.addr), cur, off - |Addrs(t.left)| - 1, at);
      }
    }
  }

  // ----- lists and maps -----

  lemma OrderedKeys(l: Entries)
    requires Ordered(l)
    ensures forall i, j :: 0 <= i < |l| && 0 <= j < |l| && l[i].0 == l[j].0 ==> i == j
  {
    forall i, j | 0 <= i < j < |l| ensures l[i].0 != l[j].0 {
      LessTotal(l[i].0, l[j].0);
    }
  }

  lemma InsertEntry(l: Entries, m: map<Str, int>, off: nat, key: Str, value: int)
    requires Ordered(l) && Represents(l, m) && off <= |l|
    requires (forall i :: 0 <= i < off ==> Less(key, l[i].0)) && (forall i :: off <= i < |l| ==> Less(l[i].0, key))
    ensures var l' := Splice(l, off, 0, [(key, value)]);
            key !in m && Ordered(l') && Represents(l', m[key := value])
  {
    hide Less, Ordered, Represents;
    InsertOrdered(l, off, key, value);
    InsertRepresents(l, m, off, key, value);
  }

  lemma InsertOrdered(l: Entries, off: nat, key: Str, value: int)
    requires Ordered(l) && off <= |l|
    requires (forall i :: 0 <= i < off ==> Less(key, l[i].0)) && (forall i :: off <= i < |l| ==> Less(l[i].0, key))
    ensures Ordered(Splice(l, off, 0, [(key, value)]))
  {
    hide Less;
    var l' := Splice(l, off, 0, [(key, value)]);
    forall i, j | 0 <= i < j < |l'| ensures Less(l'[j].0, l'[i].0) {
      assert l'[i] == if i < off then l[i] else if i == off then (key, value) else l[i - 1];
      assert l'[j] == if j < off then l[j] else if j == off then (key, value) else l[j - 1];
    }
  }

  lemma InsertRepresents(l: Entries, m: map<Str, int>, off: nat, key: Str, value: int)
    requires Represents(l, m) && off <= |l|
    requires forall i :: 0 <= i < |l| ==> Less(key, l[i].0) || Less(l[i].0, key)
    ensures key !in m && Represents(Splice(l, off, 0, [(key, value)]), m[key := value])
  {
    hide Less, HasKey;
    var l', m' := Splice(l, off, 0, [(key, value)]), m[key := value];
    NotKey(l, key);
    forall i | 0 <= i < |l'| ensures l'[i].0 in m' && m'[l'[i].0] == l'[i].1 {
      if i != off {
        assert l'[i] == l[if i < off then i else i - 1];
      }
    }
    forall k | k in m' ensures HasKey(l', k) {
      HasKeySplice(l, off, key, value, k);
    }
  }

  lemma NotKey(l: Entries, key: Str)
    requires forall i :: 0 <= i < |l| ==> Less(key, l[i].0) || Less(l[i].0, key)
    ensures !HasKey(l, key)
  {
    LessTotal(key, key);
  }

  lemma HasKeySplice(l: Entries, off: nat, key: Str, value: int, k: Str)
    requires off <= |l| && (k == key || HasKey(l, k))
    ensures HasKey(Splice(l, off, 0, [(key, value)]), k)
  {
    var l' := Splice(l, off, 0, [(key, value)]);
    if k == key {
      assert l'[off].0 == k;
    } else {
      var i :| 0 <= i < |l| && l[i].0 == k;
      assert l'[if i < off then i else i + 1].0 == k;
    }
  }

  lemma UpdateEntry(l: Entries, m: map<Str, int>, i: nat, value: int)
    requires Ordered(l) && Represents(l, m) && i < |l|
    ensures Ordered(l[i := (l[i].0, value)]) && Represents(l[i := (l[i].0, value)], m[l[i].0 := value])
  {
    var l', m' := l[i := (l[i].0, value)], m[l[i].0 := value];
    OrderedKeys(l);
    forall k | k in m' ensures HasKey(l', k) {
      assert k in m;
      var j :| 0 <= j < |l| && l[j].0 == k;
      assert l'[j].0 == k;
    }
  }

  function Erased(m: map<Str, int>, key: Str): map<Str, int> {
    map k | k in m && k != key :: m[k]
  }

  function Without(l: Entries, i: nat): Entries
    requires i < |l|
  {
    l[..i] + l[i + 1..]
  }

  lemma RemoveEntry(l: Entries, m: map<Str, int>, i: nat)
    requires Ordered(l) && Represents(l, m) && i < |l|
    ensures Ordered(Without(l, i)) && Represents(Without(l, i), Erased(m, l[i].0))
  {
    var l', m' := Without(l, i), Erased(m, l[i].0);
    OrderedKeys(l);
    forall k | k in m' ensures HasKey(l', k) {
      assert k in m;
      var j :| 0 <= j < |l| && l[j].0 == k;
      assert l'[if j < i then j else j - 1].0 == k;
    }
  }

  lemma {:induction false} RepresentsSize(l: Entries, m: map<Str, int>)
    requires Ordered(l) && Represents(l, m)
    ensures |m| == |l|
    decreases |l|
  {
    hide Ordered, HasKey;
    if l == [] {
      NoKeys(m);
    } else {
      RemoveEntry(l, m, 0);
      assert Without(l, 0) == l[1..];
      var m' := Erased(m, l[0].0);
      RepresentsSize(l[1..], m');
      assert m == m'[l[0].0 := m[l[0].0]];
    }
  }

  lemma NoKeys(m: map<Str, int>)
    requires Represents([], m)
    ensures m == map[]
  {
    assert forall k :: !HasKey([], k);
    assert forall k :: k !in m;
  }

  // ----- the map -----

  class BstMap {
    var mem: Mem
    var brk: nat         // the next address that the allocator hands out
    var root: nat
    var size: int
    ghost var shape: Tree
    ghost var model: map<Str, int>

    /** The records are linked as the shape says. */
    ghost predicate Linked()
      reads this
    {
      && Rep(mem, shape, 0) && root == Pointer(shape) && Distinct(Addrs(shape)) && size == |Addrs(shape)|
      && brk > 0 && (forall a :: a in mem ==> a < brk) && (forall i :: 0 <= i < |Addrs(shape)| ==> Addrs(shape)[i] in mem)
    }

    ghost function List(): (l: Entries)
      requires Linked()
      reads this
      ensures |l| == |Addrs(shape)|
    {
      EntriesOf(mem, Addrs(shape))
    }

    ghost predicate Valid()
      reads this
    {
      Linked() && Ordered(List()) && Represents(List(), model)
    }

    /** map_init */
    constructor ()
      ensures Valid() && model == map[]
    {
      mem, brk, root, size := map[], 1, 0, 0;
      shape, model := Leaf, map[];
    }

    /** The pointer at `at` becomes p. */
    method Store(at: Link, p: nat)
      requires at.Root? || at.addr in mem
      modifies this`mem, this`root
      ensures mem == Written(old(mem), at, p)
      ensures root == if at.Root? then p else old(root)
    {
      match at
      case Root => root := p;
      case LeftOf(a) => mem := mem[a := mem[a].(left := p)];
      case RightOf(a) => mem := mem[a := mem[a].(right := p)];
    }

    /** avl_init */
    method AvlInit(key: Str, parent: nat) returns (avl: nat)
      modifies this`mem, this`brk
      ensures avl == old(brk) && brk == avl + 1 && mem == old(mem)[avl := Rec(0, 0, parent, key, 0)]
    {
      avl := brk;
      brk := brk + 1;
      mem := mem[avl := Rec(0, 0, parent, key, 0)];
    }

    /** The branch of _map_find that makes a new record. */
    method Create(key: Str, parent: nat, ptr: Link, ghost off: nat) returns (avl: nat)
      requires Linked() && SubAt(shape, Root, Leaf, off, ptr) && parent == Parent(ptr) && (ptr.Root? || ptr.addr in mem)
      requires off <= |List()| && Ordered(Splice(List(), off, 0, [(key, 0)]))
      requires Represents(Splice(List(), off, 0, [(key, 0)]), model[key := 0])
      modifies this
      ensures Valid() && model == old(model)[key := 0]
      ensures avl != 0 && off < |Addrs(shape)| && avl == Addrs(shape)[off] && List()[off].0 == key
    {
      hide Rep, SubAt, Subst, Ordered, Represents, Distinct;
      HangIn(mem, shape, off, ptr, brk, key);
      avl := AvlInit(key, parent);
      Store(ptr, avl);
      size := size + 1;
      shape := Subst(shape, Leaf, off, Node(Leaf, avl, Leaf));
      model := model[key := 0];
      assert Addrs(shape)[off] == avl;
    }

    /** The loop of _map_find: where the key is, or the gap where it belongs. */
    method Search(key: Str) returns (avl: nat, parent: nat, ptr: Link, ghost i: nat)
      requires Valid()
      ensures i <= |List()|
      ensures avl != 0 ==> i < |List()| && avl == Addrs(shape)[i] && List()[i].0 == key && key in model
      ensures avl == 0 ==>
                && key !in model && SubAt(shape, Root, Leaf, i, ptr) && parent == Parent(ptr) && (ptr.Root? || ptr.addr in mem)
                && Ordered(Splice(List(), i, 0, [(key, 0)])) && Represents(Splice(List(), i, 0, [(key, 0)]), model[key := 0])
    {
      hide Rep, SubAt, Distinct, Ordered, Represents, Less, EntriesOf;
      ghost var list, cur: Tree, off: nat := List(), shape, 0;
      avl, ptr, parent, i := root, Root, 0, 0;
      SubSelf(shape, Root);
      while true
        invariant SubAt(shape, Root, cur, off, ptr) && avl == Pointer(cur) && parent == Parent(ptr)
        invariant off + |Addrs(cur)| <= |Addrs(shape)|
        invariant forall j :: 0 <= j < off ==> Less(key, list[j].0)
        invariant forall j :: off + |Addrs(cur)| <= j < |list| ==> Less(list[j].0, key)
        decreases |Addrs(cur)|
      {
        SubRep(mem, shape, Root, cur, off, ptr);
        RepPointer(mem, cur, parent);
        i := off;
        if avl == 0 {
          InsertEntry(list, model, off, key, 0);
          return;
        }
        SubAddrs(shape, Root, cur, off, ptr);
        SubStep(shape, Root, cur, off, ptr);
        IndexOf(shape, cur, off);
        i := off + |Addrs(cur.left)|;
        EntryAt(mem, Addrs(shape), i);
        var cmp := Strcmp(key, mem[avl].key);
        if cmp == 0 {
          EntryIn(list, model, i);
          return;
        }
        LessTotal(key, list[i].0);
        if cmp < 0 {
          RightGreater(list, i, key);
          ptr, parent, avl, cur := LeftOf(avl), avl, mem[avl].left, cur.left;
        } else {
          LeftSmaller(list, i, key);
          ptr, parent, avl, off, cur := RightOf(avl), avl, mem[avl].right, i + 1, cur.right;
        }
      }
    }

    /** _map_find */
    method Find(key: Str, create: bool) returns (avl: nat, ghost i: nat)
      requires Valid()
      modifies this
      ensures Valid()
      ensures key in old(model) || !create ==> unchanged(this)
      ensures key !in old(model) && create ==> model == old(model)[key := 0]
      ensures if key in model then avl != 0 && i < |List()| && avl == Addrs(shape)[i] && List()[i].0 == key else avl == 0
    {
      hide Rep, SubAt, Distinct, Ordered, Represents, Less, EntriesOf;
      var parent, ptr;
      avl, parent, ptr, i := Search(key);
      if avl == 0 && create {
        avl := Create(key, parent, ptr, i);
      }
    }

    /** map_at; None where the source stops because the key is not there. */
    method At(key: Str) returns (found: bool, value: int)
      requires Valid()
      ensures found <==> key in model
      ensures found ==> value == model[key]
    {
      hide Rep, SubAt, Distinct, Ordered, Represents, Less, EntriesOf;
      var avl, parent, ptr, i := Search(key);
      found, value := avl != 0, 0;
      if found {
        EntryAt(mem, Addrs(shape), i);
        EntryIn(List(), model, i);
        value := mem[avl].value;
      }
    }

    /** map_has */
    method Has(key: Str) returns (has: bool)
      requires Valid()
      ensures has <==> key in model
    {
      hide Rep, SubAt, Distinct, Ordered, Represents, Less, EntriesOf;
      var avl, parent, ptr, i := Search(key);
      has := avl != 0;
    }

    /** map_size */
    method Size() returns (n: int)
      requires Valid()
      ensures n == |model|
    {
      hide Rep, SubAt, Distinct, Ordered, Represents, Less, EntriesOf;
      RepresentsSize(List(), model);
      n := size;
    }

    /** map_set */
    method Set(key: Str, value: int)
      requires Valid()
      modifies this
      ensures Valid() && model == old(model)[key := value]
    {
      hide Rep, SubAt, Distinct, Ordered, Represents, Less, EntriesOf;
      var avl, i := Find(key, true);
      ghost var list := List();
      UpdateEntry(list, model, i, value);
      EntryAt(mem, Addrs(shape), i);
      assert old(model)[key := value] == model[key := value];
      SetValue(mem, shape, i, value);
      mem := mem[avl := mem[avl].(value := value)];
      model := model[key := value];
    }

    // ----- erasing -----

    /** _map_erase_leaf; false where the source stops on a failed check. */
    method EraseLeaf(avl: nat, ghost off: nat, ghost at: Link) returns (ok: bool)
      requires Linked() && SubAt(shape, Root, Node(Leaf, avl, Leaf), off, at)
      modifies this`mem, this`root, this`size, this`shape
      ensures ok && Linked() && off < |old(List())| && List() == Without(old(List()), off)
    {
      hide Rep, SubAt, Distinct, EntriesOf, Subst;
      CutOff(mem, shape, off, at, avl);
      size := size - 1;
      if mem[avl].left != 0 || mem[avl].right != 0 {
        return false;
      }
      var parent := mem[avl].parent;
      mem := mem - {avl};
      shape := Subst(shape, Node(Leaf, avl, Leaf), off, Leaf);
      if parent == 0 {
        if root != avl {
          return false;
        }
        Store(Root, 0);
        return true;
      }
      if mem[parent].left == avl {
        Store(LeftOf(parent), 0);
        return true;
      }
      if mem[parent].right == avl {
        Store(RightOf(parent), 0);
        return true;
      }
      ok := false;
    }

    /** _avl_swap, on two neighbours of the order. */
    method Swap(avl: nat, avl2: nat, ghost i: nat, ghost j: nat)
      requires Linked() && i < |Addrs(shape)| && j < |Addrs(shape)| && Addrs(shape)[i] == avl && Addrs(shape)[j] == avl2
      modifies this`mem
      ensures Linked() && List() == old(List())[i := old(List())[j]][j := old(List())[i]]
    {
      hide Rep, Distinct;
      SwapEntries(mem, shape, i, j);
      var tmp := mem[avl].value;
      mem := mem[avl := mem[avl].(value := mem[avl2].value)];
      mem := mem[avl2 := mem[avl2].(value := tmp)];
      var key := mem[avl].key;
      mem := mem[avl := mem[avl].(key := mem[avl2].key)];
      mem := mem[avl2 := mem[avl2].(key := key)];
    }

    /** The first loop of _map_erase: to the right until there is nothing there. */
    method Rightmost(start: nat, ghost from: Tree, ghost off: nat, ghost at: Link)
      returns (avl: nat, ghost c: Tree, ghost o: nat, ghost link: Link)
      requires Linked() && SubAt(shape, Root, from, off, at) && from.Node? && from.addr == start
      ensures SubAt(shape, Root, c, o, link) && c.Node? && c.addr == avl && |Addrs(c)| <= |Addrs(from)|
      ensures off + |Addrs(from)| <= |Addrs(shape)| && o + |Addrs(c.left)| == off + |Addrs(from)| - 1
      ensures Addrs(shape)[o + |Addrs(c.left)|] == avl
    {
      hide Rep, SubAt, Distinct, EntriesOf;
      avl, c, o, link := start, from, off, at;
      SubAddrs(shape, Root, c, o, link);
      SubRep(mem, shape, Root, c, o, link);
      RepPointer(mem, c, Parent(link));
      while mem[avl].right != 0
        invariant SubAt(shape, Root, c, o, link) && c.Node? && c.addr == avl && avl in mem && Rep(mem, c, Parent(link))
        invariant mem[avl].right == Pointer(c.right) && o + |Addrs(c)| == off + |Addrs(from)|
        decreases |Addrs(c)|
      {
        SubStep(shape, Root, c, o, link);
        o, link, c := o + |Addrs(c.left)| + 1, RightOf(avl), c.right;
        avl := mem[avl].right;
        SubRep(mem, shape, Root, c, o, link);
        RepPointer(mem, c, Parent(link));
      }
      NoChild(mem, c, Parent(link));
      SubAddrs(shape, Root, c, o, link);
      IndexOf(shape, c, o);
    }

    /** The second loop of _map_erase: to the left until there is nothing there. */
    method Leftmost(start: nat, ghost from: Tree, ghost off: nat, ghost at: Link)
      returns (avl: nat, ghost c: Tree, ghost link: Link)
      requires Linked() && SubAt(shape, Root, from, off, at) && from.Node? && from.addr == start
      ensures SubAt(shape, Root, c, off, link) && c.Node? && c.left == Leaf && c.addr == avl && |Addrs(c)| <= |Addrs(from)|
      ensures off < |Addrs(shape)| && Addrs(shape)[off] == avl
    {
      hide Rep, SubAt, Distinct, EntriesOf;
      avl, c, link := start, from, at;
      SubRep(mem, shape, Root, c, off, link);
      RepPointer(mem, c, Parent(link));
      while mem[avl].left != 0
        invariant SubAt(shape, Root, c, off, link) && c.Node? && c.addr == avl && avl in mem && Rep(mem, c, Parent(link))
        invariant mem[avl].left == Pointer(c.left) && |Addrs(c)| <= |Addrs(from)|
        decreases |Addrs(c)|
      {
        SubStep(shape, Root, c, off, link);
        link, c := LeftOf(avl), c.left;
        avl := mem[avl].left;
        SubRep(mem, shape, Root, c, off, link);
        RepPointer(mem, c, Parent(link));
      }
      NoChild(mem, c, Parent(link));
      SubAddrs(shape, Root, c, off, link);
      IndexOf(shape, c, off);
    }

    /** _map_erase, on the record at the root of the subtree `cur`.  Swapping breaks the order of the
        keys until the recursion has reached a leaf; what is lost in the end is just the entry asked for. */
    method EraseAt(avl: nat, ghost cur: Tree, ghost off: nat, ghost at: Link) returns (ok: bool)
      requires Linked() && SubAt(shape, Root, cur, off, at) && cur.Node? && cur.addr == avl
      requires off + |Addrs(cur.left)| < |List()|
      modifies this`mem, this`root, this`size, this`shape
      ensures ok && Linked() && List() == Without(old(List()), off + |Addrs(cur.left)|)
      decreases |Addrs(cur)|
    {
      hide Rep, SubAt, Distinct, EntriesOf, Without;
      ghost var i := off + |Addrs(cur.left)|;
      SubAddrs(shape, Root, cur, off, at);
      SubStep(shape, Root, cur, off, at);
      SubRep(mem, shape, Root, cur, off, at);
      RepPointer(mem, cur, Parent(at));
      NoChild(mem, cur, Parent(at));
      IndexOf(shape, cur, off);
      if mem[avl].left != 0 {
        var avl2, c, o, link := Rightmost(mem[avl].left, cur.left, off, LeftOf(avl));
        SwapThenRemove(List(), i, i - 1);
        Swap(avl, avl2, i, i - 1);
        ok := EraseAt(avl2, c, o, link);
        return;
      }
      if mem[avl].right != 0 {
        var avl2, c, link := Leftmost(mem[avl].right, cur.right, i + 1, RightOf(avl));
        SwapThenRemove(List(), i, i + 1);
        Swap(avl, avl2, i, i + 1);
        ok := EraseAt(avl2, c, i + 1, link);
        return;
      }
      ok := EraseLeaf(avl, off, at);
    }

    /** map_erase */
    method Erase(key: Str) returns (ok: bool)
      requires Valid()
      modifies this
      ensures ok && Valid() && model == Erased(old(model), key)
    {
      hide Rep, SubAt, Distinct, Ordered, Represents, Less, EntriesOf, Without;
      var avl, i := Find(key, false);
      ok := true;
      if avl != 0 {
        ghost var list := List();
        ghost var cur, off, at := SubtreeAt(mem, shape, Root, i);
        RemoveEntry(list, model, i);
        ok := EraseAt(avl, cur, off, at);
        model := Erased(model, key);
      } else {
        assert Erased(model, key) == model;
      }
    }

    /** _map_foreach with a function that notes what it is called with. */
    method Visit(avl: nat, ghost cur: Tree, ghost parent: nat) returns (seen: Entries)
      requires Rep(mem, cur, parent) && avl == Pointer(cur)
      ensures (forall i :: 0 <= i < |Addrs(cur)| ==> Addrs(cur)[i] in mem) && seen == EntriesOf(mem, Addrs(cur))
      decreases cur
    {
      if avl == 0 {
        return [];
      }
      var l := Visit(mem[avl].left, cur.left, avl);
      var r := Visit(mem[avl].right, cur.right, avl);
      seen := l + [(mem[avl].key, mem[avl].value)] + r;
    }

    /** map_foreach: every entry once, the greatest key first. */
    method Foreach() returns (seen: Entries)
      requires Valid()
      ensures Represents(seen, model) && |seen| == |model|
      ensures forall i, j :: 0 <= i < j < |seen| ==> Less(seen[j].0, seen[i].0)
    {
      seen := Visit(root, shape, 0);
      RepresentsSize(List(), model);
    }
  }

  /** Exchange with a neighbour, then remove the neighbour: the same as removing the entry itself. */
  lemma SwapThenRemove(l: Entries, i: nat, j: nat)
    requires i < |l| && j < |l| && (j == i + 1 || i == j + 1)
    ensures Without(l[i := l[j]][j := l[i]], j) == Without(l, i)
  {
  }

  lemma SwapEntries(mem: Mem, shape: Tree, i: nat, j: nat)
    requires Rep(mem, shape, 0) && Distinct(Addrs(shape)) && i < |Addrs(shape)| && j < |Addrs(shape)|
    requires forall k :: 0 <= k < |Addrs(shape)| ==> Addrs(shape)[k] in mem
    ensures var (a, b) := (Addrs(shape)[i], Addrs(shape)[j]);
            var m1 := mem[a := mem[a].(value := mem[b].value)];
            var m2 := m1[b := m1[b].(value := mem[a].value)];
            var m3 := m2[a := m2[a].(key := m2[b].key)];
            var m4 := m3[b := m3[b].(key := m2[a].key)];
            var l := EntriesOf(mem, Addrs(shape));
            Rep(m4, shape, 0) && EntriesOf(m4, Addrs(shape)) == l[i := l[j]][j := l[i]]
  {
    hide Rep;
    var (a, b) := (Addrs(shape)[i], Addrs(shape)[j]);
    var m1 := mem[a := mem[a].(value := mem[b].value)];
    var m2 := m1[b := m1[b].(value := mem[a].value)];
    var m3 := m2[a := m2[a].(key := m2[b].key)];
    var m4 := m3[b := m3[b].(key := m2[a].key)];
    RepFrame(mem, m4, shape, 0, Root, 0);
  }

  lemma NoChild(mem: Mem, t: Tree, parent: nat)
    requires Rep(mem, t, parent) && t.Node?
    ensures mem[t.addr].left == 0 ==> t.left == Leaf
    ensures mem[t.addr].right == 0 ==> t.right == Leaf
  {
  }

  /** The subtree whose root is the i-th record. */
  lemma {:induction false} SubtreeAt(mem: Mem, t: Tree, link: Link, i: nat) returns (cur: Tree, off: nat, at: Link)
    requires i < |Addrs(t)|
    ensures SubAt(t, link, cur, off, at) && cur.Node? && cur.addr == Addrs(t)[i] && off + |Addrs(cur.left)| == i
    decreases t
  {
    var n := |Addrs(t.left)|;
    if i == n {
      cur, off, at := t, 0, link;
    } else if i < n {
      cur, off, at := SubtreeAt(mem, t.left, LeftOf(t.addr), i);
      SubAddrs(t.left, LeftOf(t.addr), cur, off, at);
      TooSmall(t, cur);
    } else {
      cur, off, at := SubtreeAt(mem, t.right, RightOf(t.addr), i - n - 1);
      SubAddrs(t.right, RightOf(t.addr), cur, off, at);
      off := off + n + 1;
    }
  }

  lemma RepPointer(mem: Mem, t: Tree, parent: nat)
    requires Rep(mem, t, parent)
    ensures if Pointer(t) == 0 then t == Leaf
            else t.Node? && t.addr in mem && mem[t.addr].left == Pointer(t.left) && mem[t.addr].right == Pointer(t.right)
                 && mem[t.addr].parent == parent
  {
  }

  lemma EntryAt(mem: Mem, addrs: seq<nat>, i: nat)
    requires i < |addrs| && forall j :: 0 <= j < |addrs| ==> addrs[j] in mem
    ensures EntriesOf(mem, addrs)[i] == (mem[addrs[i]].key, mem[addrs[i]].value)
  {
  }

  lemma EntryIn(l: Entries, m: map<Str, int>, i: nat)
    requires Represents(l, m) && i < |l|
    ensures l[i].0 in m && m[l[i].0] == l[i].1
  {
  }

  /** A value changed in place. */
  lemma SetValue(mem: Mem, shape: Tree, i: nat, value: int)
    requires Rep(mem, shape, 0) && Distinct(Addrs(shape)) && i < |Addrs(shape)|
    requires forall j :: 0 <= j < |Addrs(shape)| ==> Addrs(shape)[j] in mem
    ensures var a := Addrs(shape)[i];
            var mem' := mem[a := mem[a].(value := value)];
            Rep(mem', shape, 0) && EntriesOf(mem', Addrs(shape)) == EntriesOf(mem, Addrs(shape))[i := (mem[a].key, value)]
  {
    hide Rep;
    var a := Addrs(shape)[i];
    var mem' := mem[a := mem[a].(value := value)];
    RepFrame(mem, mem', shape, 0, Root, 0);
  }

  /** A leaf cut off the tree. */
  lemma CutOff(mem: Mem, shape: Tree, off: nat, at: Link, a: nat)
    requires Rep(mem, shape, 0) && Distinct(Addrs(shape)) && SubAt(shape, Root, Node(Leaf, a, Leaf), off, at)
    requires forall i :: 0 <= i < |Addrs(shape)| ==> Addrs(shape)[i] in mem
    ensures off < |Addrs(shape)| && a in mem && mem[a].left == 0 && mem[a].right == 0 && mem[a].parent == Parent(at)
    ensures at.Root? ==> Pointer(shape) == a
    ensures !at.Root? ==> at.addr != 0 && at.addr != a && at.addr in mem
    ensures at.LeftOf? ==> mem[at.addr].left == a
    ensures at.RightOf? ==> mem[at.addr].right == a && mem[at.addr].left != a
    ensures var shape' := Subst(shape, Node(Leaf, a, Leaf), off, Leaf);
            var mem' := Written(mem - {a}, at, 0);
            && Rep(mem', shape', 0) && Pointer(shape') == (if at.Root? then 0 else Pointer(shape))
            && |Addrs(shape')| == |Addrs(shape)| - 1 && Distinct(Addrs(shape'))
            && (forall i :: 0 <= i < |Addrs(shape')| ==> Addrs(shape')[i] in mem')
            && EntriesOf(mem', Addrs(shape')) == Without(EntriesOf(mem, Addrs(shape)), off)
  {
    hide Subst, Rep, SubAt, Addrs, EntriesOf, Distinct;
    var cur := Node(Leaf, a, Leaf);
    var addrs := Addrs(shape);
    LeafAddrs(a);
    SubAddrs(shape, Root, cur, off, at);
    assert addrs[off] == addrs[off..off + 1][0] == a;
    SubRep(mem, shape, Root, cur, off, at);
    RepPointer(mem, cur, Parent(at));
    RepAddrs(mem, shape, 0);
    LinkOutside(mem, shape, Root, cur, off, at);
    LinkBack(mem, shape, cur, off, at);
    var mem' := Written(mem - {a}, at, 0);
    EmptyRep(mem', Parent(at));
    assert forall x :: x in addrs && x !in Addrs(cur) ==> Relinked(mem, mem', x, at, 0);
    SubstRep(mem, mem', shape, Root, cur, off, at, Leaf);
    SubstAddrs(shape, Root, cur, off, at, Leaf);
    WithoutEntry(mem, mem', addrs, off, a);
  }

  lemma LeafAddrs(a: nat)
    ensures Addrs(Node(Leaf, a, Leaf)) == [a] && Addrs(Leaf) == []
  {
  }

  lemma EmptyRep(mem: Mem, parent: nat)
    ensures Rep(mem, Leaf, parent)
  {
  }

  /** The pointer that leads to a subtree. */
  lemma LinkBack(mem: Mem, shape: Tree, cur: Tree, off: nat, at: Link)
    requires Rep(mem, shape, 0) && SubAt(shape, Root, cur, off, at) && cur.Node?
    ensures at.Root? ==> Pointer(shape) == cur.addr
    ensures at.LeftOf? ==> at.addr in mem && mem[at.addr].left == cur.addr
    ensures at.RightOf? ==> at.addr in mem && mem[at.addr].right == cur.addr
  {
    hide Rep, SubAt, Addrs;
    SubRep(mem, shape, Root, cur, off, at);
    if at.Root? {
      NotRoot(shape, Root, cur, off, at);
    }
  }

  lemma WithoutEntry(mem: Mem, mem': Mem, addrs: seq<nat>, off: nat, a: nat)
    requires Distinct(addrs) && off < |addrs| && addrs[off] == a && forall i :: 0 <= i < |addrs| ==> addrs[i] in mem
    requires forall x :: x in addrs && x != a ==> x in mem' && mem'[x].key == mem[x].key && mem'[x].value == mem[x].value
    ensures var addrs' := Splice(addrs, off, 1, []);
            && Distinct(addrs') && (forall i :: 0 <= i < |addrs'| ==> addrs'[i] in mem')
            && EntriesOf(mem', addrs') == Without(EntriesOf(mem, addrs), off)
  {
    var addrs' := Splice(addrs, off, 1, []);
    assert forall i :: 0 <= i < |addrs'| ==> addrs'[i] == addrs[if i < off then i else i + 1];
    assert forall i :: 0 <= i < |addrs'| ==> addrs'[i] in addrs && addrs'[i] != a;
  }

  lemma IndexOf(t: Tree, cur: Tree, off: nat)
    requires cur.Node? && off + |Addrs(cur)| <= |Addrs(t)| && Addrs(t)[off..off + |Addrs(cur)|] == Addrs(cur)
    ensures |Addrs(cur)| == |Addrs(cur.left)| + 1 + |Addrs(cur.right)|
    ensures Addrs(t)[off + |Addrs(cur.left)|] == cur.addr
  {
    assert Addrs(cur)[|Addrs(cur.left)|] == cur.addr;
  }

  lemma RightGreater(l: Entries, i: nat, key: Str)
    requires Ordered(l) && i < |l| && Less(l[i].0, key)
    ensures forall j :: i <= j < |l| ==> Less(l[j].0, key)
  {
    forall j | i < j < |l| ensures Less(l[j].0, key) {
      LessTrans(l[j].0, l[i].0, key);
    }
  }

  lemma LeftSmaller(l: Entries, i: nat, key: Str)
    requires Ordered(l) && i < |l| && Less(key, l[i].0)
    ensures forall j :: 0 <= j <= i ==> Less(key, l[j].0)
  {
    forall j | 0 <= j < i ensures Less(key, l[j].0) {
      LessTrans(key, l[i].0, l[j].0);
    }
  }

  predicate Increasing(l: Entries) {
    forall i, j :: 0 <= i < j < |l| ==> Less(l[i].0, l[j].0)
  }

  /** What map_foreach calls its function with is in alphabetical order only if there is at most one. */
  lemma VisitedBackwards(l: Entries)
    requires Ordered(l)
    ensures Increasing(l) <==> |l| <= 1
  {
    if |l| > 1 {
      LessTotal(l[0].0, l[1].0);
    }
  }
}
