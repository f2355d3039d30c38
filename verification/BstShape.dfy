/** Binary trees of heap records: how a tree lies in memory, and what replacing a part of it does. */
module BstShape {
  import opened CString

  /** A record of asmg/avl_map.g; the null pointer is 0. */
  datatype Rec = Rec(left: nat, right: nat, parent: nat, key: Str, value: int)

  type Mem = map<nat, Rec>

  /** The shape of a tree: the addresses of its records. */
  datatype Tree = Leaf | Node(left: Tree, addr: nat, right: Tree)

  /** A cell that points to a subtree: the root of the map, or a field of a record. */
  datatype Link = Root | LeftOf(addr: nat) | RightOf(addr: nat)

  function Parent(link: Link): nat {
    if link.Root? then 0 else link.addr
  }

  function Pointer(t: Tree): nat {
    if t.Leaf? then 0 else t.addr
  }

  /** The records in order. */
  function Addrs(t: Tree): seq<nat> {
    match t
    case Leaf => []
    case Node(l, a, r) => Addrs(l) + [a] + Addrs(r)
  }

  predicate Distinct<T(==)>(s: seq<T>) {
    forall i, j :: 0 <= i < j < |s| ==> s[i] != s[j]
  }

  /** The tree lies in memory, under that parent. */
  predicate Rep(mem: Mem, t: Tree, parent: nat) {
    t.Node? ==>
      && t.addr != 0 && t.addr in mem && mem[t.addr].parent == parent
      && mem[t.addr].left == Pointer(t.left) && mem[t.addr].right == Pointer(t.right)
      && Rep(mem, t.left, t.addr) && Rep(mem, t.right, t.addr)
  }

  /** `cur` is the subtree of t whose first record is number `off` of t, and `at` is what points to it. */
  predicate SubAt(t: Tree, link: Link, cur: Tree, off: nat, at: Link) {
    if t == cur && off == 0 then at == link
    else
      t.Node? && if off + |Addrs(cur)| <= |Addrs(t.left)| then SubAt(t.left, LeftOf(t.addr), cur, off, at)
                 else off > |Addrs(t.left)| && SubAt(t.right, RightOf(t.addr), cur, off - |Addrs(t.left)| - 1, at)
  }

  /** t with u in the place of that subtree. */
  function Subst(t: Tree, cur: Tree, off: nat, u: Tree): Tree {
    if t == cur && off == 0 then u
    else if t.Leaf? then t
    else if off + |Addrs(cur)| <= |Addrs(t.left)| then Node(Subst(t.left, cur, off, u), t.addr, t.right)
    else if off > |Addrs(t.left)| then Node(t.left, t.addr, Subst(t.right, cur, off - |Addrs(t.left)| - 1, u))
    else t
  }

  lemma NodeAddrs(l: Tree, a: nat, r: Tree)
    ensures Addrs(Node(l, a, r)) == Addrs(l) + [a] + Addrs(r)
  {
  }

  lemma SliceLeft<T>(l: seq<T>, a: T, r: seq<T>, off: nat, k: nat)
    requires off + k <= |l|
    ensures (l + [a] + r)[off..off + k] == l[off..off + k]
  {
  }

  lemma SliceRight<T>(l: seq<T>, a: T, r: seq<T>, off: nat, k: nat)
    requires off + k <= |r|
    ensures (l + [a] + r)[|l| + 1 + off..|l| + 1 + off + k] == r[off..off + k]
  {
  }

  lemma {:induction false} SubAddrs(t: Tree, link: Link, cur: Tree, off: nat, at: Link)
    requires SubAt(t, link, cur, off, at)
    ensures off + |Addrs(cur)| <= |Addrs(t)| && Addrs(t)[off..off + |Addrs(cur)|] == Addrs(cur)
    decreases t
  {
    hide Addrs;
    if !(t == cur && off == 0) {
      NodeAddrs(t.left, t.addr, t.right);
      var n := |Addrs(t.left)|;
      if off + |Addrs(cur)| <= n {
        SubAddrs(t.left, LeftOf(t.addr), cur, off, at);
        SliceLeft(Addrs(t.left), t.addr, Addrs(t.right), off, |Addrs(cur)|);
      } else {
        SubAddrs(t.right, RightOf(t.addr), cur, off - n - 1, at);
        SliceRight(Addrs(t.left), t.addr, Addrs(t.right), off - n - 1, |Addrs(cur)|);
      }
    }
  }

  /** A subtree of a subtree. */
  lemma {:induction false} SubStep(t: Tree, link: Link, cur: Tree, off: nat, at: Link)
    requires SubAt(t, link, cur, off, at) && cur.Node?
    ensures SubAt(t, link, cur.left, off, LeftOf(cur.addr))
    ensures SubAt(t, link, cur.right, off + |Addrs(cur.left)| + 1, RightOf(cur.addr))
    decreases t
  {
    var n, k := |Addrs(t.left)|, |Addrs(cur.left)|;
    assert |Addrs(cur)| == k + 1 + |Addrs(cur.right)|;
    SubAddrs(t, link, cur, off, at);
    TooSmall(t, cur.left);
    TooSmall(t, cur.right);
    if t == cur && off == 0 {
      assert SubAt(t.left, LeftOf(t.addr), t.left, 0, LeftOf(t.addr));
      assert SubAt(t.right, RightOf(t.addr), t.right, 0, RightOf(t.addr));
    } else if off + |Addrs(cur)| <= n {
      SubStep(t.left, LeftOf(t.addr), cur, off, at);
    } else {
      SubStep(t.right, RightOf(t.addr), cur, off - n - 1, at);
      assert off + k + 1 - n - 1 == off - n - 1 + k + 1;
    }
  }

  lemma TooSmall(t: Tree, u: Tree)
    requires |Addrs(u)| < |Addrs(t)|
    ensures t != u
  {
  }

  lemma SubSelf(t: Tree, link: Link)
    ensures SubAt(t, link, t, 0, link)
  {
  }

  lemma {:induction false} SubRep(mem: Mem, t: Tree, link: Link, cur: Tree, off: nat, at: Link)
    requires Rep(mem, t, Parent(link)) && SubAt(t, link, cur, off, at)
    ensures Rep(mem, cur, Parent(at))
    ensures (t == cur && off == 0 && at == link) || (!at.Root? && at.addr in mem && Pointer(cur) == if at.LeftOf? then mem[at.addr].left else mem[at.addr].right)
    decreases t
  {
    if !(t == cur && off == 0) {
      if off + |Addrs(cur)| <= |Addrs(t.left)| {
        SubRep(mem, t.left, LeftOf(t.addr), cur, off, at);
      } else {
        SubRep(mem, t.right, RightOf(t.addr), cur, off - |Addrs(t.left)| - 1, at);
      }
    }
  }

  /** s with u in the place of k elements from `off` on. */
  function Splice<T>(s: seq<T>, off: nat, k: nat, u: seq<T>): seq<T>
    requires off + k <= |s|
  {
    s[..off] + u + s[off + k..]
  }

  lemma SpliceLeft<T>(l: seq<T>, a: T, r: seq<T>, off: nat, k: nat, u: seq<T>)
    requires off + k <= |l|
    ensures Splice(l, off, k, u) + [a] + r == Splice(l + [a] + r, off, k, u)
  {
    assert (l + [a] + r)[..off] == l[..off] && (l + [a] + r)[off + k..] == l[off + k..] + [a] + r;
  }

  lemma SpliceRight<T>(l: seq<T>, a: T, r: seq<T>, off: nat, k: nat, u: seq<T>)
    requires off + k <= |r|
    ensures l + [a] + Splice(r, off, k, u) == Splice(l + [a] + r, |l| + 1 + off, k, u)
  {
    assert (l + [a] + r)[..|l| + 1 + off] == l + [a] + r[..off] && (l + [a] + r)[|l| + 1 + off + k..] == r[off + k..];
  }

  lemma SpliceAll<T>(s: seq<T>, u: seq<T>)
    ensures Splice(s, 0, |s|, u) == u
  {
  }

  lemma {:induction false} SubstAddrs(t: Tree, link: Link, cur: Tree, off: nat, at: Link, u: Tree)
    requires SubAt(t, link, cur, off, at)
    ensures off + |Addrs(cur)| <= |Addrs(t)|
    ensures Addrs(Subst(t, cur, off, u)) == Splice(Addrs(t), off, |Addrs(cur)|, Addrs(u))
    decreases t
  {
    hide Addrs, Splice;
    SubAddrs(t, link, cur, off, at);
    if t == cur && off == 0 {
      SpliceAll(Addrs(t), Addrs(u));
    } else {
      NodeAddrs(t.left, t.addr, t.right);
      NodeAddrs(Subst(t.left, cur, off, u), t.addr, t.right);
      var n := |Addrs(t.left)|;
      if off + |Addrs(cur)| <= n {
        SubstAddrs(t.left, LeftOf(t.addr), cur, off, at, u);
        SpliceLeft(Addrs(t.left), t.addr, Addrs(t.right), off, |Addrs(cur)|, Addrs(u));
      } else {
        SubstAddrs(t.right, RightOf(t.addr), cur, off - n - 1, at, u);
        NodeAddrs(t.left, t.addr, Subst(t.right, cur, off - n - 1, u));
        SpliceRight(Addrs(t.left), t.addr, Addrs(t.right), off - n - 1, |Addrs(cur)|, Addrs(u));
      }
    }
  }

  /** Which records hold the link: none of those it leads to. */
  lemma {:induction false} LinkWhere(t: Tree, link: Link, cur: Tree, off: nat, at: Link)
    requires SubAt(t, link, cur, off, at)
    ensures at == link || (!at.Root? && at.addr in Addrs(t))
    decreases t
  {
    if !(t == cur && off == 0) {
      if off + |Addrs(cur)| <= |Addrs(t.left)| {
        LinkWhere(t.left, LeftOf(t.addr), cur, off, at);
      } else {
        LinkWhere(t.right, RightOf(t.addr), cur, off - |Addrs(t.left)| - 1, at);
      }
    }
  }

  /** The record at `a` is as it was, but for the pointer `at`, which now is p. */
  predicate Relinked(mem: Mem, mem': Mem, a: nat, at: Link, p: nat) {
    && a in mem && a in mem' && mem'[a].parent == mem[a].parent
    && mem'[a].left == (if at == LeftOf(a) then p else mem[a].left)
    && mem'[a].right == (if at == RightOf(a) then p else mem[a].right)
  }

  lemma {:induction false} RepFrame(mem: Mem, mem': Mem, t: Tree, parent: nat, at: Link, p: nat)
    requires Rep(mem, t, parent) && (forall a :: a in Addrs(t) ==> Relinked(mem, mem', a, at, p))
    requires at.Root? || at.addr !in Addrs(t)
    ensures Rep(mem', t, parent)
    decreases t
  {
    if t.Node? {
      assert t.addr in Addrs(t);
      RepFrame(mem, mem', t.left, t.addr, at, p);
      RepFrame(mem, mem', t.right, t.addr, at, p);
    }
  }

  lemma DistinctParts(t: Tree)
    requires t.Node? && Distinct(Addrs(t))
    ensures Distinct(Addrs(t.left)) && Distinct(Addrs(t.right))
    ensures forall a :: a in Addrs(t.left) ==> a != t.addr && a !in Addrs(t.right)
    ensures t.addr !in Addrs(t.left) && t.addr !in Addrs(t.right)
    ensures forall a :: a in Addrs(t.left) || a == t.addr || a in Addrs(t.right) ==> a in Addrs(t)
  {
    var l, r, n := Addrs(t.left), Addrs(t.right), |Addrs(t.left)|;
    forall i | 0 <= i < |l| ensures l[i] == Addrs(t)[i] {}
    forall i | 0 <= i < |r| ensures r[i] == Addrs(t)[n + 1 + i] {}
    assert Addrs(t)[n] == t.addr;
  }

  /** Put u where `cur` was, point to it from `at`, and leave the other records alone. */
  lemma {:induction false} SubstRep(mem: Mem, mem': Mem, t: Tree, link: Link, cur: Tree, off: nat, at: Link, u: Tree)
    requires Rep(mem, t, Parent(link)) && SubAt(t, link, cur, off, at) && Distinct(Addrs(t))
    requires link.Root? || link.addr !in Addrs(t)
    requires Rep(mem', u, Parent(at))
    requires forall a :: a in Addrs(t) && a !in Addrs(cur) ==> Relinked(mem, mem', a, at, Pointer(u))
    ensures Rep(mem', Subst(t, cur, off, u), Parent(link))
    ensures Pointer(Subst(t, cur, off, u)) == if at == link then Pointer(u) else Pointer(t)
    decreases t
  {
    hide Addrs, Distinct;
    if !(t == cur && off == 0) {
      DistinctParts(t);
      if off + |Addrs(cur)| <= |Addrs(t.left)| {
        SubAddrs(t.left, LeftOf(t.addr), cur, off, at);
        CurWithin(t.left, cur, off);
        LinkWhere(t.left, LeftOf(t.addr), cur, off, at);
        SubstRep(mem, mem', t.left, LeftOf(t.addr), cur, off, at, u);
        RepFrame(mem, mem', t.right, t.addr, at, Pointer(u));
      } else {
        var off' := off - |Addrs(t.left)| - 1;
        SubAddrs(t.right, RightOf(t.addr), cur, off', at);
        CurWithin(t.right, cur, off');
        LinkWhere(t.right, RightOf(t.addr), cur, off', at);
        SubstRep(mem, mem', t.right, RightOf(t.addr), cur, off', at, u);
        RepFrame(mem, mem', t.left, t.addr, at, Pointer(u));
      }
    }
  }

  lemma CurWithin(t: Tree, cur: Tree, off: nat)
    requires off + |Addrs(cur)| <= |Addrs(t)| && Addrs(t)[off..off + |Addrs(cur)|] == Addrs(cur)
    ensures forall a :: a in Addrs(cur) ==> a in Addrs(t)
  {
  }

  /** What points to a subtree lies outside it, and the pointer beside it leads elsewhere. */
  lemma {:induction false} LinkOutside(mem: Mem, t: Tree, link: Link, cur: Tree, off: nat, at: Link)
    requires Rep(mem, t, Parent(link)) && SubAt(t, link, cur, off, at) && Distinct(Addrs(t)) && cur.Node?
    requires link.Root? || link.addr !in Addrs(t)
    ensures if t == cur && off == 0 then at == link else at != link && !at.Root? && at.addr != 0 && at.addr in Addrs(t) && at.addr in mem
    ensures !at.Root? ==> at.addr !in Addrs(cur)
    ensures at.RightOf? && at != link ==> mem[at.addr].left != cur.addr
    decreases t
  {
    hide Addrs, Distinct;
    if t == cur && off == 0 {
    } else {
      DistinctParts(t);
      RootIn(cur);
      if off + |Addrs(cur)| <= |Addrs(t.left)| {
        SubAddrs(t.left, LeftOf(t.addr), cur, off, at);
        CurWithin(t.left, cur, off);
        LinkOutside(mem, t.left, LeftOf(t.addr), cur, off, at);
      } else {
        var off' := off - |Addrs(t.left)| - 1;
        SubAddrs(t.right, RightOf(t.addr), cur, off', at);
        CurWithin(t.right, cur, off');
        LinkOutside(mem, t.right, RightOf(t.addr), cur, off', at);
        RootIn(t.left);
      }
    }
  }

  lemma RootIn(t: Tree)
    ensures t.Node? ==> t.addr in Addrs(t)
  {
  }
}
