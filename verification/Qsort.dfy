/** The non-recursive quicksort of the C library (diskfs/stdlib/_qsort.h).

    The array is one of bytes, and memswp exchanges two elements byte by byte.  Positions are element
    indices: a pointer `base_ + k * size` of the source is the index `k`. */
module Qsort {
  import opened Powers

  const THRESHOLD := 7
  const STACK_SIZE := 64

  // ----- orders -----

  ghost predicate Le<E(!new)>(compar: (E, E) -> int, x: E, y: E) {
    compar(x, y) <= 0
  }

  /** What the C standard asks of a comparison function: a total preorder. */
  ghost predicate TotalPreorder<E(!new)>(compar: (E, E) -> int) {
    && (forall x, y :: compar(x, y) > 0 <==> compar(y, x) < 0)
    && (forall x, y, z :: Le(compar, x, y) && Le(compar, y, z) ==> Le(compar, x, z))
  }

  ghost predicate SortedRange<E(!new)>(s: seq<E>, compar: (E, E) -> int, lo: int, hi: int)
    requires 0 <= lo <= hi <= |s|
  {
    forall p, q :: lo <= p < q < hi ==> Le(compar, s[p], s[q])
  }

  ghost predicate Sorted<E(!new)>(s: seq<E>, compar: (E, E) -> int) {
    SortedRange(s, compar, 0, |s|)
  }

  // ----- segments still to be sorted -----

  datatype Segment = Segment(lo: int, hi: int)

  ghost predicate Inside(g: Segment, p: int, q: int) {
    g.lo <= p && q < g.hi
  }

  ghost predicate Covered(segs: seq<Segment>, p: int, q: int) {
    exists k :: 0 <= k < |segs| && Inside(segs[k], p, q)
  }

  ghost predicate Apart(g: Segment, h: Segment) {
    g.hi <= h.lo || h.hi <= g.lo
  }

  ghost predicate WellPlaced(segs: seq<Segment>, n: int) {
    && (forall k :: 0 <= k < |segs| ==> 0 <= segs[k].lo <= segs[k].hi <= n)
    && (forall k, m :: 0 <= k < m < |segs| ==> Apart(segs[k], segs[m]))
  }

  /** Every pair of positions is in order, unless some pending segment holds both. */
  ghost predicate OrderedExcept<E(!new)>(s: seq<E>, compar: (E, E) -> int, segs: seq<Segment>) {
    forall p, q :: 0 <= p < q < |s| ==> Le(compar, s[p], s[q]) || Covered(segs, p, q)
  }

  ghost function Weight(segs: seq<Segment>): int {
    if segs == [] then 0
    else Weight(segs[..|segs| - 1]) + (segs[|segs| - 1].hi - segs[|segs| - 1].lo)
  }

  lemma {:induction false} WeightNonNegative(segs: seq<Segment>, n: int)
    requires WellPlaced(segs, n)
    ensures Weight(segs) >= 0
  {
    if segs != [] {
      WeightNonNegative(segs[..|segs| - 1], n);
    }
  }

  // ----- rearrangement inside one segment -----

  ghost predicate Rearranged<E>(s: seq<E>, t: seq<E>, lo: int, hi: int)
    requires 0 <= lo <= hi <= |s|
  {
    && |t| == |s|
    && t[..lo] == s[..lo]
    && t[hi..] == s[hi..]
    && multiset(t[lo..hi]) == multiset(s[lo..hi])
  }

  lemma RearrangedOutside<E>(s: seq<E>, t: seq<E>, lo: int, hi: int, k: int)
    requires 0 <= lo <= hi <= |s| && Rearranged(s, t, lo, hi)
    requires 0 <= k < lo || hi <= k < |s|
    ensures t[k] == s[k]
  {
    if k < lo {
      assert t[..lo][k] == s[..lo][k];
    } else {
      assert t[hi..][k - hi] == s[hi..][k - hi];
    }
  }

  lemma RearrangedFrom<E>(s: seq<E>, t: seq<E>, lo: int, hi: int, k: int) returns (m: int)
    requires 0 <= lo <= hi <= |s| && Rearranged(s, t, lo, hi)
    requires lo <= k < hi
    ensures lo <= m < hi && s[m] == t[k]
  {
    assert t[lo..hi][k - lo] in multiset(t[lo..hi]);
    assert t[k] in s[lo..hi];
    m :| lo <= m < hi && s[m] == t[k];
  }

  lemma RearrangedPermutes<E>(s: seq<E>, t: seq<E>, lo: int, hi: int)
    requires 0 <= lo <= hi <= |s| && Rearranged(s, t, lo, hi)
    ensures multiset(t) == multiset(s)
  {
    assert s == s[..lo] + s[lo..hi] + s[hi..];
    assert t == t[..lo] + t[lo..hi] + t[hi..];
  }

  lemma RearrangedRefl<E>(s: seq<E>, lo: int, hi: int)
    requires 0 <= lo <= hi <= |s|
    ensures Rearranged(s, s, lo, hi)
  {
  }

  lemma RearrangedTrans<E>(s: seq<E>, t: seq<E>, u: seq<E>, lo: int, hi: int)
    requires 0 <= lo <= hi <= |s| && Rearranged(s, t, lo, hi) && Rearranged(t, u, lo, hi)
    ensures Rearranged(s, u, lo, hi)
  {
  }

  lemma SwapRearranges<E>(s: seq<E>, i: int, j: int, lo: int, hi: int)
    requires 0 <= lo <= i < hi <= |s| && lo <= j < hi
    ensures Rearranged(s, s[i := s[j]][j := s[i]], lo, hi)
  {
    var t := s[i := s[j]][j := s[i]];
    assert t[lo..hi] == s[lo..hi][i - lo := s[j]][j - lo := s[i]];
    assert s[lo..hi][i - lo] == s[i] && s[lo..hi][j - lo] == s[j];
    assert t[..lo] == s[..lo];
    assert t[hi..] == s[hi..];
  }

  /** One step of the main loop replaces segment [lo, hi) by the segments `more` inside it. */
  lemma SegmentStep<E(!new)>(s: seq<E>, t: seq<E>, compar: (E, E) -> int,
                             pend: seq<Segment>, lo: int, hi: int, more: seq<Segment>)
    requires 0 <= lo <= hi <= |s| && Rearranged(s, t, lo, hi)
    requires WellPlaced(pend + [Segment(lo, hi)], |s|)
    requires OrderedExcept(s, compar, pend + [Segment(lo, hi)])
    requires forall p, q :: lo <= p < q < hi ==> Le(compar, t[p], t[q]) || Covered(more, p, q)
    ensures OrderedExcept(t, compar, pend + more)
  {
    var segs, segs' := pend + [Segment(lo, hi)], pend + more;
    assert segs[|pend|] == Segment(lo, hi);
    forall p, q | 0 <= p < q < |t| ensures Le(compar, t[p], t[q]) || Covered(segs', p, q) {
      if lo <= p && q < hi {
        if Covered(more, p, q) {
          var k :| 0 <= k < |more| && Inside(more[k], p, q);
          assert segs'[|pend| + k] == more[k];
        }
      } else {
        // the values at p and q were already in order, at positions p' < q' not both in [lo, hi)
        var p', q' := p, q;
        if lo <= p < hi { p' := RearrangedFrom(s, t, lo, hi, p); } else { RearrangedOutside(s, t, lo, hi, p); }
        if lo <= q < hi { q' := RearrangedFrom(s, t, lo, hi, q); } else { RearrangedOutside(s, t, lo, hi, q); }
        assert s[p'] == t[p] && s[q'] == t[q] && p' < q';
        if !Le(compar, s[p'], s[q']) {
          var k :| 0 <= k < |segs| && Inside(segs[k], p', q');
          assert k != |pend|;
          assert Apart(segs[k], segs[|pend|]);
          assert p' == p && q' == q && segs'[k] == segs[k];
        }
      }
    }
  }

  // ----- the explicit stack -----

  /** size * 2^m <= total, without a product. */
  ghost predicate FitsAt(size: int, m: nat, total: int)
    decreases m
  {
    if m == 0 then size <= total else FitsAt(2 * size, m - 1, total)
  }

  lemma {:induction false} FitsAtMeaning(size: int, m: nat, total: int)
    ensures FitsAt(size, m, total) <==> size * Pow2(m) <= total
    decreases m
  {
    if m > 0 {
      FitsAtMeaning(2 * size, m - 1, total);
      assert size * Pow2(m) == (2 * size) * Pow2(m - 1);
    }
  }

  lemma {:induction false} FitsSmaller(part: int, size: int, m: nat, total: int)
    requires part <= size && FitsAt(size, m, total)
    ensures FitsAt(part, m, total)
    decreases m
  {
    if m > 0 {
      FitsSmaller(2 * part, 2 * size, m - 1, total);
    }
  }

  /** With m pairs on the stack the current segment has at most N / 2^m elements, so a 32-bit count
      never needs more than 29 pairs: the 64 slots suffice. */
  lemma SlotsSuffice(size: int, m: nat, total: int)
    requires size > THRESHOLD
    requires FitsAt(size, m, total) && total < 0x1_0000_0000
    ensures m < 29 && 2 * m + 2 <= STACK_SIZE
  {
    if m >= 29 {
      FitsAtMeaning(size, m, total);
      Pow2Monotone(29, m);
      Pow2At29();
      MulLe(8, size, Pow2(m));
      assert false;
    }
  }

  lemma Pow2At29()
    ensures Pow2(29) == 0x2000_0000
  {
    assert Pow2(4) == 16 && Pow2(8) == 256 && Pow2(12) == 4096 && Pow2(16) == 0x1_0000;
    assert Pow2(20) == 0x10_0000 && Pow2(24) == 0x100_0000 && Pow2(28) == 0x1000_0000;
  }

  // ----- the code -----

  /** memswp: exchange two blocks of `size` cells, one cell at a time.  `size` is at least 1. */
  method MemSwp<E>(a: array<E>, i0: nat, j0: nat, size0: nat)
    requires size0 > 0 && i0 + size0 <= a.Length && j0 + size0 <= a.Length
    requires i0 == j0 || i0 + size0 <= j0 || j0 + size0 <= i0
    modifies a
    ensures forall k :: i0 <= k < i0 + size0 ==> a[k] == old(a[k - i0 + j0])
    ensures forall k :: j0 <= k < j0 + size0 ==> a[k] == old(a[k - j0 + i0])
    ensures forall k :: 0 <= k < a.Length && !(i0 <= k < i0 + size0) && !(j0 <= k < j0 + size0) ==> a[k] == old(a[k])
  {
    var i, j, size := i0, j0, size0;
    while true
      invariant 0 < size <= size0 && i == i0 + (size0 - size) && j == j0 + (size0 - size)
      invariant forall k :: i0 <= k < i ==> a[k] == old(a[k - i0 + j0])
      invariant forall k :: j0 <= k < j ==> a[k] == old(a[k - j0 + i0])
      invariant forall k :: 0 <= k < a.Length && !(i0 <= k < i) && !(j0 <= k < j) ==> a[k] == old(a[k])
      decreases size
    {
      var tmp := a[i];
      a[i] := a[j];
      a[j] := tmp;
      i, j, size := i + 1, j + 1, size - 1;
      if size == 0 { break; }
    }
  }

  type Byte = x: int | 0 <= x < 256

  /** An element, as the comparison function is given it: the bytes from its address on. */
  type Element = seq<Byte>

  /** The elements in a stretch of bytes. */
  function Cut(bytes: seq<Byte>, count: nat, size: nat): (s: seq<Element>)
    requires size > 0 && |bytes| == count * size
    ensures |s| == count
  {
    seq(count, k requires 0 <= k < count => CutBounds(k, count, size); bytes[k * size..k * size + size])
  }

  lemma CutBounds(k: nat, count: nat, size: nat)
    requires k < count
    ensures 0 <= k * size <= k * size + size <= count * size
  {
    MulLe(k + 1, count, size);
    MulLe(0, k, size);
  }

  /** What memswp does to the bytes. */
  predicate SwappedBytes(s: seq<Byte>, t: seq<Byte>, i: nat, j: nat, size: nat)
    requires |s| == |t| && i + size <= |s| && j + size <= |s|
  {
    && (forall k :: i <= k < i + size ==> t[k] == s[k - i + j])
    && (forall k :: j <= k < j + size ==> t[k] == s[k - j + i])
    && (forall k :: 0 <= k < |s| && !(i <= k < i + size) && !(j <= k < j + size) ==> t[k] == s[k])
  }

  lemma SwappedStretch(s: seq<Byte>, t: seq<Byte>, i: nat, j: nat, size: nat, k: nat)
    requires |s| == |t| && i + size <= |s| && j + size <= |s| && k + size <= |s| && SwappedBytes(s, t, i, j, size)
    requires k == i || k == j || ((k + size <= i || i + size <= k) && (k + size <= j || j + size <= k))
    ensures t[k..k + size] == if k == i then s[j..j + size] else if k == j then s[i..i + size] else s[k..k + size]
  {
  }

  /** The `count` elements of `size` bytes each.  Element k is at byte k * size. */
  class Elements {
    const bytes: array<Byte>
    const size: nat
    const count: nat

    constructor (bytes: array<Byte>, count: nat, size: nat)
      requires size > 0 && bytes.Length == count * size
      ensures this.bytes == bytes && this.size == size && this.count == count && Valid()
    {
      this.bytes, this.size, this.count := bytes, size, count;
    }

    predicate Valid() {
      size > 0 && bytes.Length == count * size
    }

    lemma Away(k: nat, i: nat)
      requires Valid() && k < count && i < count && k != i
      ensures k * size + size <= i * size || i * size + size <= k * size
    {
      if k < i {
        MulLe(k + 1, i, size);
      } else {
        MulLe(i + 1, k, size);
      }
    }

    function At(k: nat): (e: Element)
      requires Valid() && k < count
      reads bytes
      ensures |e| == size
    {
      CutBounds(k, count, size);
      bytes[k * size..k * size + size]
    }

    ghost function All(): (s: seq<Element>)
      requires Valid()
      reads bytes
      ensures |s| == count && forall k :: 0 <= k < count ==> s[k] == At(k)
    {
      seq(count, k requires 0 <= k < count && Valid() reads bytes => At(k))
    }

    /** memswp of two elements. */
    method Exchange(i: nat, j: nat)
      requires Valid() && i < count && j < count
      modifies bytes
      ensures All() == old(All()[i := At(j)][j := At(i)])
    {
      ghost var before := bytes[..];
      CutBounds(i, count, size);
      CutBounds(j, count, size);
      if i != j {
        Away(i, j);
      }
      MemSwp(bytes, i * size, j * size, size);
      forall k | 0 <= k < count ensures At(k) == old(if k == i then At(j) else if k == j then At(i) else At(k)) {
        Swapped(before, bytes[..], i, j, k);
      }
    }

    lemma Swapped(s: seq<Byte>, t: seq<Byte>, i: nat, j: nat, k: nat)
      requires Valid() && i < count && j < count && k < count && |s| == |t| == count * size
      requires 0 <= i * size && i * size + size <= |s| && 0 <= j * size && j * size + size <= |s|
      requires SwappedBytes(s, t, i * size, j * size, size)
      ensures 0 <= k * size && k * size + size <= |s|
      ensures t[k * size..k * size + size]
           == if k == i then s[j * size..j * size + size] else if k == j then s[i * size..i * size + size] else s[k * size..k * size + size]
    {
      CutBounds(k, count, size);
      if k != i && k != j {
        Away(k, i);
        Away(k, j);
      }
      SwappedStretch(s, t, i * size, j * size, size, k * size);
    }
  }

  method Swap(a: Elements, i: nat, j: nat)
    requires a.Valid()
    requires i < a.count && j < a.count
    modifies a.bytes
    ensures a.All() == old(a.All()[i := a.All()[j]][j := a.All()[i]])
  {
    a.Exchange(i, j);
  }

  method SwapIn(a: Elements, i: nat, j: nat, ghost lo: int, ghost hi: int)
    requires a.Valid()
    requires 0 <= lo <= i < hi <= a.count && lo <= j < hi
    modifies a.bytes
    ensures a.All() == old(a.All()[i := a.All()[j]][j := a.All()[i]])
    ensures Rearranged(old(a.All()), a.All(), lo, hi)
  {
    SwapRearranges(a.All(), i, j, lo, hi);
    Swap(a, i, j);
  }

  /** do ++i while *i is below the pivot: some element not below it must lie ahead. */
  method ScanRight(a: Elements, compar: (Element, Element) -> int, base: int, limit: int, from: int) returns (i: int)
    requires a.Valid()
    requires TotalPreorder(compar)
    requires 0 <= base < from && from + 1 < limit <= a.count && Le(compar, a.All()[base], a.All()[limit - 1])
    ensures from < i < limit && Le(compar, a.All()[base], a.All()[i])
    ensures forall k :: from < k < i ==> compar(a.All()[k], a.All()[base]) < 0
  {
    i := from + 1;
    while compar(a.At(i), a.At(base)) < 0
      invariant from < i < limit
      invariant forall k :: from < k < i ==> compar(a.All()[k], a.All()[base]) < 0
      decreases limit - i
    {
      assert i != limit - 1;
      i := i + 1;
    }
  }

  method ScanLeft(a: Elements, compar: (Element, Element) -> int, base: int, limit: int, from: int) returns (j: int)
    requires a.Valid()
    requires TotalPreorder(compar)
    requires 0 <= base && base + 1 < from < limit <= a.count && Le(compar, a.All()[base + 1], a.All()[base])
    ensures base < j < from && Le(compar, a.All()[j], a.All()[base])
    ensures forall k :: j < k < from ==> compar(a.All()[k], a.All()[base]) > 0
  {
    j := from - 1;
    while compar(a.At(j), a.At(base)) > 0
      invariant base < j < from
      invariant forall k :: j < k < from ==> compar(a.All()[k], a.All()[base]) > 0
      decreases j
    {
      assert j != base + 1;
      j := j - 1;
    }
  }

  /** What the scans know: nothing up to i is above the pivot, nothing from j on is below it. */
  ghost predicate Scanned<E(!new)>(s: seq<E>, compar: (E, E) -> int, base: int, limit: int, i: int, j: int)
    requires 0 <= base < limit <= |s|
  {
    && (forall k :: base < k <= i && k < limit ==> Le(compar, s[k], s[base]))
    && (forall k :: j <= k < limit && base < k ==> Le(compar, s[base], s[k]))
  }

  lemma ScansBegin<E(!new)>(s: seq<E>, compar: (E, E) -> int, base: int, limit: int)
    requires 0 <= base && base + 1 < limit <= |s|
    requires Le(compar, s[base + 1], s[base]) && Le(compar, s[base], s[limit - 1])
    ensures Scanned(s, compar, base, limit, base + 1, limit - 1)
  {
  }

  /** The scans need no bounds test. */
  lemma Sentinels<E(!new)>(s: seq<E>, compar: (E, E) -> int, base: int, limit: int, i: int, j: int)
    requires 0 <= base < i <= j < limit <= |s| && base + 1 < limit && Scanned(s, compar, base, limit, i, j)
    ensures Le(compar, s[base + 1], s[base]) && Le(compar, s[base], s[limit - 1])
  {
  }

  /** Between the old and the new stops everything is on its side; the new stops are only known to
      be on the other side, which the exchange repairs. */
  ghost predicate Stopped<E(!new)>(s: seq<E>, compar: (E, E) -> int, base: int, limit: int, i: int, j: int)
    requires 0 <= base < i < limit <= |s| && base < j < limit
  {
    Scanned(s, compar, base, limit, i - 1, j + 1) && Le(compar, s[base], s[i]) && Le(compar, s[j], s[base])
  }

  lemma ScansDone<E(!new)>(s: seq<E>, compar: (E, E) -> int, base: int, limit: int, i0: int, j0: int, i: int, j: int)
    requires TotalPreorder(compar)
    requires 0 <= base < i0 < i < limit <= |s| && base < j < j0 < limit
    requires Scanned(s, compar, base, limit, i0, j0)
    requires forall k :: i0 < k < i ==> compar(s[k], s[base]) < 0
    requires forall k :: j < k < j0 ==> compar(s[k], s[base]) > 0
    requires Le(compar, s[base], s[i]) && Le(compar, s[j], s[base])
    ensures Stopped(s, compar, base, limit, i, j)
  {
  }

  lemma StopsExchanged<E(!new)>(s: seq<E>, t: seq<E>, compar: (E, E) -> int, base: int, limit: int, i: int, j: int)
    requires 0 <= base < i <= j < limit <= |s| && t == s[i := s[j]][j := s[i]]
    requires Stopped(s, compar, base, limit, i, j)
    ensures Scanned(t, compar, base, limit, i, j)
  {
  }

  /** When the scans have crossed, exchanging the pivot with position j separates the segment. */
  lemma PivotPlaced<E(!new)>(s: seq<E>, t: seq<E>, compar: (E, E) -> int, base: int, limit: int, i: int, j: int)
    requires TotalPreorder(compar)
    requires 0 <= base < j < i < limit <= |s| && t == s[base := s[j]][j := s[base]]
    requires Stopped(s, compar, base, limit, i, j)
    ensures Separated(t, compar, base, limit, i, j)
  {
    var pivot := t[j];
    assert forall k :: base <= k < i ==> Le(compar, t[k], pivot);
    assert forall k :: j <= k < limit ==> Le(compar, pivot, t[k]);
  }

  /** j < i cut [base, limit) in three: everything up to j, what lies between (all equivalent), and from i on. */
  ghost predicate Separated<E(!new)>(s: seq<E>, compar: (E, E) -> int, base: int, limit: int, i: int, j: int)
    requires 0 <= base < j < i < limit <= |s|
  {
    forall p, q :: base <= p < q < limit ==> q < j || i <= p || Le(compar, s[p], s[q])
  }

  /** The two do-while scans and their swaps, from the median of three up to the crossing.
      Neither scan has a bounds test: a[limit - 1] and a[base + 1] stop them. */
  method Partition(a: Elements, compar: (Element, Element) -> int, base: int, limit: int) returns (i: int, j: int)
    requires a.Valid()
    requires TotalPreorder(compar)
    requires 0 <= base && limit <= a.count && limit - base > THRESHOLD
    modifies a.bytes
    ensures Rearranged(old(a.All()), a.All(), base, limit)
    ensures base < j < i < limit
    ensures Separated(a.All(), compar, base, limit, i, j)
  {
    hide Scanned, Separated, Stopped, TotalPreorder, Rearranged;
    ghost var start := a.All();
    i, j := base + 1, limit - 1;
    SwapIn(a, base + (limit - base) / 2, base, base, limit);
    ghost var middle := a.All();
    MedianOfThree(a, compar, base, limit);
    RearrangedTrans(start, middle, a.All(), base, limit);
    ScansBegin(a.All(), compar, base, limit);
    while true
      invariant base < i <= j < limit
      invariant i < j || (base + 1 < i && j < limit - 1)
      invariant Rearranged(start, a.All(), base, limit)
      invariant Scanned(a.All(), compar, base, limit, i, j)
      decreases j - i + 2
    {
      ghost var i0, j0 := i, j;
      Sentinels(a.All(), compar, base, limit, i, j);
      i := ScanRight(a, compar, base, limit, i);
      j := ScanLeft(a, compar, base, limit, j);
      ghost var before := a.All();
      ScansDone(before, compar, base, limit, i0, j0, i, j);
      if i > j { break; }
      SwapIn(a, i, j, base, limit);
      RearrangedTrans(start, before, a.All(), base, limit);
      StopsExchanged(before, a.All(), compar, base, limit, i, j);
    }
    ghost var before := a.All();
    SwapIn(a, base, j, base, limit);
    RearrangedTrans(start, before, a.All(), base, limit);
    PivotPlaced(before, a.All(), compar, base, limit, i, j);
  }

  /** Positions p and q, exchanged if they are out of order. */
  function InOrder<E>(s: seq<E>, compar: (E, E) -> int, p: nat, q: nat): (t: seq<E>)
    requires p < |s| && q < |s|
    ensures |t| == |s|
  {
    if compar(s[p], s[q]) > 0 then s[p := s[q]][q := s[p]] else s
  }

  lemma MedianFirst<E(!new)>(s: seq<E>, compar: (E, E) -> int, base: nat, i: nat, j: nat)
    requires TotalPreorder(compar) && base < |s| && i < |s| && j < |s| && base != i && base != j && i != j
    ensures var t := InOrder(InOrder(InOrder(s, compar, i, j), compar, base, j), compar, i, base);
            Le(compar, t[i], t[base]) && Le(compar, t[base], t[j])
  {
  }

  /** if ( compar( p, q ) > 0 ) memswp( p, q, size ); */
  method Arrange(a: Elements, compar: (Element, Element) -> int, p: nat, q: nat, ghost lo: int, ghost hi: int)
    requires a.Valid()
    requires 0 <= lo <= p < hi <= a.count && lo <= q < hi
    modifies a.bytes
    ensures a.All() == InOrder(old(a.All()), compar, p, q) && Rearranged(old(a.All()), a.All(), lo, hi)
  {
    hide Elements.At, Elements.All, Rearranged;
    RearrangedRefl(a.All(), lo, hi);
    if compar(a.At(p), a.At(q)) > 0 {
      SwapIn(a, p, q, lo, hi);
    }
  }

  /** Orders the second, first and last element, so that the first is their median. */
  method MedianOfThree(a: Elements, compar: (Element, Element) -> int, base: int, limit: int)
    requires a.Valid()
    requires TotalPreorder(compar)
    requires 0 <= base && limit <= a.count && limit - base > THRESHOLD
    modifies a.bytes
    ensures Rearranged(old(a.All()), a.All(), base, limit)
    ensures Le(compar, a.All()[base + 1], a.All()[base]) && Le(compar, a.All()[base], a.All()[limit - 1])
  {
    hide Elements.At, Elements.All, Rearranged, TotalPreorder, Le, InOrder;
    var i, j := base + 1, limit - 1;
    ghost var s := a.All();
    MedianFirst(s, compar, base, i, j);
    Arrange(a, compar, i, j, base, limit);
    ghost var s1 := a.All();
    Arrange(a, compar, base, j, base, limit);
    ghost var s2 := a.All();
    RearrangedTrans(s, s1, s2, base, limit);
    Arrange(a, compar, i, base, base, limit);
    RearrangedTrans(s, s2, a.All(), base, limit);
  }

  /** [base, i] is in order, except that the element at j + 1 may be smaller than what precedes it. */
  ghost predicate Inserting<E(!new)>(s: seq<E>, compar: (E, E) -> int, base: int, i: int, j: int)
    requires 0 <= base && i < |s|
  {
    forall p, q :: base <= p < q <= i && q != j + 1 ==> Le(compar, s[p], s[q])
  }

  lemma InsertStep<E(!new)>(s: seq<E>, t: seq<E>, compar: (E, E) -> int, base: int, i: int, j: int)
    requires TotalPreorder(compar)
    requires 0 <= base <= j < i < |s| && Inserting(s, compar, base, i, j)
    requires compar(s[j], s[j + 1]) > 0 && t == s[j := s[j + 1]][j + 1 := s[j]]
    ensures Inserting(t, compar, base, i, j - 1)
  {
  }

  lemma Inserted<E(!new)>(s: seq<E>, compar: (E, E) -> int, base: int, i: int, j: int)
    requires TotalPreorder(compar)
    requires 0 <= base && base - 1 <= j < i < |s| && Inserting(s, compar, base, i, j)
    requires j < base || compar(s[j], s[j + 1]) <= 0
    ensures SortedRange(s, compar, base, i + 1)
  {
    forall p, q | base <= p < q < i + 1 ensures Le(compar, s[p], s[q]) {
      assert j < base || Le(compar, s[j], s[j + 1]);
      assert q != j + 1 || p == j || Le(compar, s[p], s[j]);
    }
  }

  /** One exchange of the inner loop. */
  method CarryDown(a: Elements, compar: (Element, Element) -> int, base: int, limit: int, ghost i: int, j: int, ghost start: seq<Element>)
    requires a.Valid()
    requires TotalPreorder(compar)
    requires 0 <= base <= j < i < limit <= a.count && compar(a.At(j), a.At(j + 1)) > 0
    requires |start| == a.count && Rearranged(start, a.All(), base, limit) && Inserting(a.All(), compar, base, i, j)
    modifies a.bytes
    ensures Rearranged(start, a.All(), base, limit) && Inserting(a.All(), compar, base, i, j - 1)
  {
    hide TotalPreorder, Inserting, Rearranged, Le, Elements.At, Elements.All;
    ghost var before := a.All();
    SwapIn(a, j, j + 1, base, limit);
    RearrangedTrans(start, before, a.All(), base, limit);
    InsertStep(before, a.All(), compar, base, i, j);
  }

  /** The inner loop: carry the element at i down to its place. */
  method Insert(a: Elements, compar: (Element, Element) -> int, base: int, limit: int, i: int)
    requires a.Valid()
    requires TotalPreorder(compar)
    requires 0 <= base < i < limit <= a.count && SortedRange(a.All(), compar, base, i)
    modifies a.bytes
    ensures Rearranged(old(a.All()), a.All(), base, limit)
    ensures SortedRange(a.All(), compar, base, i + 1)
  {
    hide TotalPreorder, Inserting, SortedRange, Rearranged, Le, Elements.At, Elements.All;
    RearrangedRefl(a.All(), base, limit);
    StartInserting(a.All(), compar, base, i);
    var j := i - 1;
    ghost var hole := j;
    while compar(a.At(j), a.At(j + 1)) > 0
      invariant base <= j < i && hole == j
      invariant Rearranged(old(a.All()), a.All(), base, limit)
      invariant Inserting(a.All(), compar, base, i, hole)
      decreases j
    {
      CarryDown(a, compar, base, limit, i, j, old(a.All()));
      hole := j - 1;
      if j == base { break; }
      j := j - 1;
    }
    Inserted(a.All(), compar, base, i, hole);
  }

  method InsertionSort(a: Elements, compar: (Element, Element) -> int, base: int, limit: int)
    requires a.Valid()
    requires TotalPreorder(compar)
    requires 0 <= base <= limit <= a.count
    modifies a.bytes
    ensures Rearranged(old(a.All()), a.All(), base, limit)
    ensures SortedRange(a.All(), compar, base, limit)
  {
    hide TotalPreorder, SortedRange, Rearranged;
    RearrangedRefl(a.All(), base, limit);
    FirstSorted(a.All(), compar, base, limit);
    var i := base + 1;
    while i < limit
      invariant base < i
      invariant Rearranged(old(a.All()), a.All(), base, limit)
      invariant SortedRange(a.All(), compar, base, if i <= limit then i else limit)
      decreases limit - i
    {
      ghost var before := a.All();
      Insert(a, compar, base, limit, i);
      RearrangedTrans(old(a.All()), before, a.All(), base, limit);
      i := i + 1;
    }
  }

  lemma FirstSorted<E(!new)>(s: seq<E>, compar: (E, E) -> int, base: int, limit: int)
    requires 0 <= base <= limit <= |s|
    ensures SortedRange(s, compar, base, if base + 1 <= limit then base + 1 else limit)
  {
  }

  lemma StartInserting<E(!new)>(s: seq<E>, compar: (E, E) -> int, base: int, i: int)
    requires 0 <= base < i < |s| && SortedRange(s, compar, base, i)
    ensures Inserting(s, compar, base, i, i - 1)
  {
  }

  ghost predicate Holds(stack: seq<int>, pend: seq<Segment>) {
    && 2 * |pend| <= |stack|
    && forall k :: 0 <= k < |pend| ==> stack[2 * k] == pend[k].lo && stack[2 * k + 1] == pend[k].hi
  }

  /** The segment with k pairs below it has at most total / 2^k elements. */
  ghost predicate Halving(segs: seq<Segment>, total: int) {
    forall k :: 0 <= k < |segs| ==> FitsAt(segs[k].hi - segs[k].lo, k, total)
  }

  lemma Halved(pend: seq<Segment>, base: int, limit: int, large: Segment, small: Segment, total: int)
    requires Halving(pend + [Segment(base, limit)], total)
    requires 0 <= small.hi - small.lo <= large.hi - large.lo
    requires (small.hi - small.lo) + (large.hi - large.lo) < limit - base
    ensures Halving(pend + [large] + [small], total)
    ensures Weight(pend + [large] + [small]) < Weight(pend + [Segment(base, limit)])
  {
    var m, segs, segs' := |pend|, pend + [Segment(base, limit)], pend + [large] + [small];
    assert segs[m] == Segment(base, limit);
    FitsSmaller(large.hi - large.lo, limit - base, m, total);
    FitsSmaller(2 * (small.hi - small.lo), limit - base, m, total);
    forall k | 0 <= k < |segs'| ensures FitsAt(segs'[k].hi - segs'[k].lo, k, total) {
      if k < m { assert segs[k] == segs'[k]; }
    }
    assert segs[..m] == pend;
    assert segs'[..m + 1] == pend + [large] && (pend + [large])[..m] == pend;
  }

  /** The state of the main loop: `segs` lists the pending segments, the one being worked on last. */
  ghost predicate Pending<E(!new)>(s: seq<E>, compar: (E, E) -> int, segs: seq<Segment>) {
    WellPlaced(segs, |s|) && OrderedExcept(s, compar, segs) && Halving(segs, |s|)
  }

  lemma AfterPartition<E(!new)>(s: seq<E>, t: seq<E>, compar: (E, E) -> int,
                                pend: seq<Segment>, base: int, limit: int, i: int, j: int)
    requires 0 <= base < j < i < limit <= |s| && Rearranged(s, t, base, limit)
    requires Pending(s, compar, pend + [Segment(base, limit)])
    requires Separated(t, compar, base, limit, i, j)
    ensures var left, right := Segment(base, j), Segment(i, limit);
            var segs' := if j - base > limit - i then pend + [left] + [right] else pend + [right] + [left];
            Pending(t, compar, segs') && Weight(segs') < Weight(pend + [Segment(base, limit)])
  {
    SplitStep(s, t, compar, pend, base, limit, i, j);
    var left, right := Segment(base, j), Segment(i, limit);
    if j - base > limit - i {
      Halved(pend, base, limit, left, right, |s|);
    } else {
      Halved(pend, base, limit, right, left, |s|);
    }
  }

  lemma AfterInsertionSort<E(!new)>(s: seq<E>, t: seq<E>, compar: (E, E) -> int,
                                    pend: seq<Segment>, base: int, limit: int)
    requires 0 <= base <= limit <= |s| && Rearranged(s, t, base, limit)
    requires Pending(s, compar, pend + [Segment(base, limit)])
    requires SortedRange(t, compar, base, limit)
    ensures Pending(t, compar, pend) && Weight(pend) <= Weight(pend + [Segment(base, limit)])
  {
    var segs := pend + [Segment(base, limit)];
    SegmentStep(s, t, compar, pend, base, limit, []);
    assert pend + [] == pend && segs[..|pend|] == pend;
    assert forall k :: 0 <= k < |pend| ==> segs[k] == pend[k];
    assert segs[|pend|] == Segment(base, limit);
    assert WellPlaced(pend, |s|);
    assert Halving(pend, |t|);
  }

  lemma CurrentSegment<E(!new)>(s: seq<E>, compar: (E, E) -> int, pend: seq<Segment>, base: int, limit: int)
    requires Pending(s, compar, pend + [Segment(base, limit)])
    ensures 0 <= base <= limit <= |s| && FitsAt(limit - base, |pend|, |s|)
    ensures Weight(pend + [Segment(base, limit)]) >= 0
  {
    hide OrderedExcept, WellPlaced, Halving, Weight, FitsAt;
    var segs := pend + [Segment(base, limit)];
    LastSegment(segs, |s|);
    WeightNonNegative(segs, |s|);
  }

  lemma LastSegment(segs: seq<Segment>, total: int)
    requires segs != [] && WellPlaced(segs, total) && Halving(segs, total)
    ensures var last := segs[|segs| - 1];
            0 <= last.lo <= last.hi <= total && FitsAt(last.hi - last.lo, |segs| - 1, total)
  {
  }

  lemma WholeArrayPending<E(!new)>(s: seq<E>, compar: (E, E) -> int)
    ensures Pending(s, compar, [Segment(0, |s|)])
  {
    assert forall p, q :: 0 <= p < q < |s| ==> Inside([Segment(0, |s|)][0], p, q);
  }

  lemma NothingPending<E(!new)>(s: seq<E>, compar: (E, E) -> int)
    requires Pending(s, compar, [])
    ensures Sorted(s, compar)
  {
  }

  lemma NothingPushed(stack: seq<int>)
    ensures Holds(stack, [])
  {
  }

  /** PUSH: two slots of the explicit stack. */
  method Push(stack: array<int>, stackptr: int, base: int, limit: int, ghost pend: seq<Segment>)
    requires stackptr == 2 * |pend| && Holds(stack[..], pend) && stackptr + 2 <= stack.Length
    modifies stack
    ensures Holds(stack[..], pend + [Segment(base, limit)])
  {
    stack[stackptr] := base;
    stack[stackptr + 1] := limit;
  }

  /** POP */
  method Pop(stack: array<int>, stackptr: int, ghost pend: seq<Segment>) returns (base: int, limit: int)
    requires stackptr == 2 * |pend| && Holds(stack[..], pend) && pend != []
    ensures Segment(base, limit) == pend[|pend| - 1] && Holds(stack[..], pend[..|pend| - 1])
  {
    base, limit := stack[..][stackptr - 2], stack[..][stackptr - 1];
    ghost var k := |pend| - 1;
    assert stack[..][2 * k] == pend[k].lo && stack[..][2 * k + 1] == pend[k].hi;
  }

  /** qsort.  Elements of no bytes are left alone: base_ and limit are then one pointer. */
  method Sort(bytes: array<Byte>, nmemb: nat, size: nat, compar: (Element, Element) -> int)
    requires TotalPreorder(compar)
    requires bytes.Length == nmemb * size < 0x1_0000_0000
    modifies bytes
    ensures size == 0 ==> unchanged(bytes)
    ensures size > 0 ==> var a := Cut(bytes[..], nmemb, size);
              Sorted(a, compar) && multiset(a) == multiset(Cut(old(bytes[..]), nmemb, size))
  {
    if size > 0 {
      MulLe(1, size, nmemb);
      var a := new Elements(bytes, nmemb, size);
      AllIsCut(a);
      SortElements(a, compar);
      AllIsCut(a);
    }
  }

  lemma AllIsCut(a: Elements)
    requires a.Valid()
    ensures a.All() == Cut(a.bytes[..], a.count, a.size)
  {
    forall k | 0 <= k < a.count ensures a.At(k) == Cut(a.bytes[..], a.count, a.size)[k] {
      CutBounds(k, a.count, a.size);
    }
  }

  method SortElements(a: Elements, compar: (Element, Element) -> int)
    requires a.Valid()
    requires TotalPreorder(compar)
    requires a.count < 0x1_0000_0000
    modifies a.bytes
    ensures Sorted(a.All(), compar)
    ensures multiset(a.All()) == multiset(old(a.All()))
  {
    hide Pending, Holds, Weight, Sorted;
    var base, limit := 0, a.count;
    var stack := new int[STACK_SIZE];
    var stackptr := 0;
    ghost var pend: seq<Segment> := [];
    NothingPushed(stack[..]);
    WholeArrayPending(a.All(), compar);
    assert pend + [Segment(base, limit)] == [Segment(0, a.count)];
    while true
      invariant stackptr == 2 * |pend| && Holds(stack[..], pend)
      invariant Pending(a.All(), compar, pend + [Segment(base, limit)])
      invariant multiset(a.All()) == multiset(old(a.All()))
      decreases Weight(pend + [Segment(base, limit)]), stackptr
    {
      ghost var before := a.All();
      CurrentSegment(a.All(), compar, pend, base, limit);
      if limit - base > THRESHOLD {
        SlotsSuffice(limit - base, |pend|, a.count);
        var i, j := Partition(a, compar, base, limit);
        RearrangedPermutes(before, a.All(), base, limit);
        AfterPartition(before, a.All(), compar, pend, base, limit, i, j);
        if j - base > limit - i {
          Push(stack, stackptr, base, j, pend);
          stackptr, pend := stackptr + 2, pend + [Segment(base, j)];
          base := i;
        } else {
          Push(stack, stackptr, i, limit, pend);
          stackptr, pend := stackptr + 2, pend + [Segment(i, limit)];
          limit := j;
        }
        CurrentSegment(a.All(), compar, pend, base, limit);
      } else {
        InsertionSort(a, compar, base, limit);
        RearrangedPermutes(before, a.All(), base, limit);
        AfterInsertionSort(before, a.All(), compar, pend, base, limit);
        if stackptr != 0 {
          base, limit := Pop(stack, stackptr, pend);
          assert pend == pend[..|pend| - 1] + [Segment(base, limit)];
          stackptr, pend := stackptr - 2, pend[..|pend| - 1];
        } else {
          assert pend == [];
          NothingPending(a.All(), compar);
          break;
        }
      }
    }
  }

  /** After a partition the two parts are the only unordered pieces of the segment, in either order. */
  lemma SplitStep<E(!new)>(s: seq<E>, t: seq<E>, compar: (E, E) -> int,
                           pend: seq<Segment>, base: int, limit: int, i: int, j: int)
    requires 0 <= base < j < i < limit <= |s| && Rearranged(s, t, base, limit)
    requires WellPlaced(pend + [Segment(base, limit)], |s|)
    requires OrderedExcept(s, compar, pend + [Segment(base, limit)])
    requires Separated(t, compar, base, limit, i, j)
    ensures var left, right := Segment(base, j), Segment(i, limit);
            && WellPlaced(pend + [left] + [right], |s|) && OrderedExcept(t, compar, pend + [left] + [right])
            && WellPlaced(pend + [right] + [left], |s|) && OrderedExcept(t, compar, pend + [right] + [left])
  {
    var left, right := Segment(base, j), Segment(i, limit);
    var segs := pend + [Segment(base, limit)];
    assert segs[|pend|] == Segment(base, limit);
    forall k | 0 <= k < |pend| ensures Apart(pend[k], left) && Apart(pend[k], right) && 0 <= pend[k].lo <= pend[k].hi <= |s| {
      assert segs[k] == pend[k];
      assert Apart(segs[k], segs[|pend|]);
    }
    forall k, m | 0 <= k < m < |pend| ensures Apart(pend[k], pend[m]) {
      assert Apart(segs[k], segs[m]);
    }
    forall p, q | base <= p < q < limit
      ensures Le(compar, t[p], t[q]) || (Covered([left, right], p, q) && Covered([right, left], p, q))
    {
      assert [left, right][0] == left && [left, right][1] == right && [right, left][0] == right && [right, left][1] == left;
      if !Le(compar, t[p], t[q]) {
        assert Inside(left, p, q) || Inside(right, p, q);
      }
    }
    SegmentStep(s, t, compar, pend, base, limit, [left, right]);
    SegmentStep(s, t, compar, pend, base, limit, [right, left]);
    assert pend + [left] + [right] == pend + [left, right];
    assert pend + [right] + [left] == pend + [right, left];
  }
}
