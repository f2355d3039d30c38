/** The allocator of asmg/kmalloc.g: blocks of 8, 16, 32 ... bytes, one chain of free blocks per size,
    threaded through the first word of each block, where a block in use keeps its bucket number. */
module Kmalloc {
  import opened Powers
  import opened Words

  const NBUCKETS := 28

  /** Memory by words; what was never written is 0. */
  type Mem = map<int, int>

  function Load(mem: Mem, a: int): int {
    if a in mem then mem[a] else 0
  }

  /** _bucket_actual_size, for the bucket numbers that pass its check. */
  function Actual(bucket: nat): nat {
    Pow2(bucket + 3)
  }

  /** The word at a lies in the block of n bytes at p, behind its first word. */
  predicate Inside(a: int, p: int, n: nat) {
    p + 4 <= a && a + 4 <= p + n
  }

  /** The search for a bucket; NBUCKETS where the source stops because there is none. */
  function BucketFor(size: int, from: nat): (b: nat)
    requires from <= NBUCKETS
    ensures from <= b <= NBUCKETS
    ensures b < NBUCKETS ==> Signed32(size + 4) <= Actual(b)
    ensures forall k :: from <= k < b ==> Actual(k) < Signed32(size + 4)
    decreases NBUCKETS - from
  {
    if from == NBUCKETS || Signed32(size + 4) <= Actual(from) then from else BucketFor(size, from + 1)
  }

  /** The block is large enough, and either the smallest there is or less than twice as large as needed -
      so long as adding the header does not overflow the word; then the block is too small. */
  lemma BlockSize(size: int)
    requires 0 < size < 0x8000_0000 && BucketFor(size, 0) < NBUCKETS
    ensures var b := BucketFor(size, 0);
            && (size + 4 <= Actual(b) <==> size + 4 < 0x8000_0000)
            && (size + 4 < 0x8000_0000 ==> b == 0 || Actual(b) < 2 * (size + 4))
            && (size + 4 >= 0x8000_0000 ==> Actual(b) == 8)
  {
    var b := BucketFor(size, 0);
    Pow2Values();
    assert Actual(0) == 8 by { assert Pow2(3) == 8; }
    if size + 4 < 0x8000_0000 {
      assert Signed32(size + 4) == size + 4;
      if b > 0 {
        assert Actual(b) == 2 * Actual(b - 1);
      }
    } else {
      assert Signed32(size + 4) < 0;
      assert b == 0;
    }
  }

  /** The search finds no bucket for the sizes above the largest block, until adding the header overflows. */
  lemma Refused(size: int)
    requires 0 < size < 0x8000_0000
    ensures BucketFor(size, 0) == NBUCKETS <==> 0x4000_0000 < size + 4 < 0x8000_0000
  {
    Pow2Values();
    assert Actual(NBUCKETS - 1) == 0x4000_0000 by { assert Pow2(31) == 2 * Pow2(30); }
    assert Actual(0) == 8 by { assert Pow2(3) == 8; }
    forall k | 0 <= k < NBUCKETS ensures Actual(k) <= 0x4000_0000 {
      Pow2Monotone(k + 3, 30);
    }
    if size + 4 < 0x8000_0000 {
      assert Signed32(size + 4) == size + 4;
    } else {
      assert Signed32(size + 4) < 0;
    }
  }

  // ----- chains -----

  function Head(chain: seq<int>): int {
    if chain == [] then 0 else chain[0]
  }

  /** The chain is threaded through the first words of its blocks. */
  predicate Threaded(mem: Mem, chain: seq<int>) {
    forall i :: 0 <= i < |chain| ==> Load(mem, chain[i]) == Head(chain[i + 1..])
  }

  predicate Distinct(s: seq<int>) {
    forall i, j :: 0 <= i < j < |s| ==> s[i] != s[j]
  }

  lemma ThreadedFrame(mem: Mem, mem': Mem, chain: seq<int>)
    requires Threaded(mem, chain) && forall i :: 0 <= i < |chain| ==> Load(mem', chain[i]) == Load(mem, chain[i])
    ensures Threaded(mem', chain)
  {
  }

  lemma ThreadedTail(mem: Mem, chain: seq<int>)
    requires Threaded(mem, chain) && chain != []
    ensures Threaded(mem, chain[1..]) && Load(mem, chain[0]) == Head(chain[1..])
  {
    forall i | 0 <= i < |chain[1..]| ensures Load(mem, chain[1..][i]) == Head(chain[1..][i + 1..]) {
      assert chain[1..][i + 1..] == chain[i + 2..];
    }
  }

  lemma ThreadedCons(mem: Mem, p: int, chain: seq<int>)
    requires Threaded(mem, chain) && Load(mem, p) == Head(chain)
    ensures Threaded(mem, [p] + chain)
  {
    forall i | 0 <= i < |[p] + chain| ensures Load(mem, ([p] + chain)[i]) == Head(([p] + chain)[i + 1..]) {
      assert ([p] + chain)[i + 1..] == chain[i..];
    }
  }

  // ----- the heap as a whole -----

  /** The blocks of one size: those in use, the chain of the free ones, how many were requested from the
      platform, and how many were ever in use at once. */
  datatype Bucket = Bucket(live: set<int>, free: seq<int>, requested: nat, peak: nat)

  const NONE := Bucket({}, [], 0, 0)

  /** Every block that was ever requested, with its bucket number. */
  type Blocks = map<int, nat>

  /** Blocks lie apart, between lo and hi. */
  predicate Apart(blocks: Blocks, lo: int, hi: int) {
    && (forall p :: p in blocks ==> blocks[p] < NBUCKETS && 0 < lo <= p && p + Actual(blocks[p]) <= hi)
    && (forall p, q :: p in blocks && q in blocks && p != q ==> p + Actual(blocks[p]) <= q || q + Actual(blocks[q]) <= p)
  }

  /** A block of bucket number b is in use or in its chain, not both.  And none is lost: requested ==
      in use + free, which is the most that were ever in use at once. */
  ghost predicate Kept(blocks: Blocks, b: nat, k: Bucket) {
    && (forall p :: p in k.live ==> p in blocks && blocks[p] == b && p !in k.free)
    && (forall p :: p in k.free ==> p in blocks && blocks[p] == b)
    && (forall p :: p in blocks && blocks[p] == b ==> p in k.live || p in k.free)
    && Distinct(k.free)
    && k.requested == |k.live| + |k.free| == k.peak
  }

  /** The words of memory that belong to the bucket say so: its cell in the table leads to the chain,
      and a block in use starts with the bucket number. */
  ghost predicate InMemory(mem: Mem, cell: int, b: nat, k: Bucket) {
    Load(mem, cell) == Head(k.free) && Threaded(mem, k.free) && (forall p :: p in k.live ==> Load(mem, p) == b)
  }

  /** The table of cells, the blocks above it, and what is in them. */
  ghost predicate Laid(mem: Mem, table: int, brk: int, blocks: Blocks, buckets: seq<Bucket>) {
    && |buckets| == NBUCKETS && 0 < table && table + 4 * NBUCKETS <= brk && Apart(blocks, table + 4 * NBUCKETS, brk)
    && (forall b :: 0 <= b < NBUCKETS ==> InMemory(mem, table + 4 * b, b, buckets[b]))
  }

  function Max(a: nat, b: nat): nat {
    if a < b then b else a
  }

  /** A block goes into use: the first of the chain, or a new one from the platform. */
  function Use(k: Bucket, p: int): Bucket {
    var live := k.live + {p};
    var peak := Max(k.peak, |live|);
    if k.free != [] then Bucket(live, k.free[1..], k.requested, peak) else Bucket(live, [], k.requested + 1, peak)
  }

  /** A block goes back into its chain. */
  function Release(k: Bucket, p: int): Bucket {
    Bucket(k.live - {p}, [p] + k.free, k.requested, k.peak)
  }

  lemma ReuseKept(blocks: Blocks, b: nat, k: Bucket)
    requires Kept(blocks, b, k) && k.free != []
    ensures Kept(blocks, b, Use(k, k.free[0]))
    ensures k.free[0] !in k.live && k.free[0] in blocks && blocks[k.free[0]] == b
  {
    var p := k.free[0];
    assert p in k.free && p !in k.live;
    assert forall q :: q in k.free[1..] ==> q in k.free && q != p;
    assert forall q :: q in k.free ==> q == p || q in k.free[1..];
  }

  lemma RequestKept(blocks: Blocks, b: nat, k: Bucket, p: int)
    requires Kept(blocks, b, k) && k.free == [] && p !in blocks
    ensures Kept(blocks[p := b], b, Use(k, p)) && p !in k.live
  {
    assert p !in k.live;
  }

  lemma ReleaseKept(blocks: Blocks, b: nat, k: Bucket, p: int)
    requires Kept(blocks, b, k) && p in k.live
    ensures Kept(blocks, b, Release(k, p)) && |Release(k, p).live| == |k.live| - 1
  {
  }

  lemma OtherKept(blocks: Blocks, b: nat, p: int, c: nat, k: Bucket)
    requires Kept(blocks, c, k) && p !in blocks && b != c
    ensures Kept(blocks[p := b], c, k)
  {
  }

  /** Two words are written, the bucket's cell and the first word of one of its blocks: a block off the
      chain and into use. */
  lemma ReuseInMemory(mem: Mem, cell: int, blocks: Blocks, b: nat, k: Bucket)
    requires Kept(blocks, b, k) && InMemory(mem, cell, b, k) && k.free != [] && (forall p :: p in blocks ==> cell != p)
    ensures InMemory(mem[cell := Load(mem, k.free[0])][k.free[0] := b], cell, b, Use(k, k.free[0]))
  {
    var p, chain := k.free[0], k.free;
    var mem' := mem[cell := Load(mem, p)][p := b];
    assert p in chain;
    ThreadedTail(mem, chain);
    forall i | 0 <= i < |chain[1..]| ensures Load(mem', chain[1..][i]) == Load(mem, chain[1..][i]) {
      assert chain[1..][i] == chain[i + 1] && chain[i + 1] in chain;
    }
    ThreadedFrame(mem, mem', chain[1..]);
  }

  lemma RequestInMemory(mem: Mem, cell: int, blocks: Blocks, b: nat, k: Bucket, p: int)
    requires Kept(blocks, b, k) && InMemory(mem, cell, b, k) && k.free == [] && p !in blocks && cell != p
    ensures InMemory(mem[p := b], cell, b, Use(k, p))
  {
  }

  lemma ReleaseInMemory(mem: Mem, cell: int, blocks: Blocks, b: nat, k: Bucket, p: int)
    requires Kept(blocks, b, k) && InMemory(mem, cell, b, k) && p in k.live && (forall q :: q in blocks ==> cell != q)
    ensures InMemory(mem[p := Load(mem, cell)][cell := p], cell, b, Release(k, p))
  {
    var mem' := mem[p := Load(mem, cell)][cell := p];
    forall i | 0 <= i < |k.free| ensures Load(mem', k.free[i]) == Load(mem, k.free[i]) {
      assert k.free[i] in k.free;
    }
    ThreadedFrame(mem, mem', k.free);
    ThreadedCons(mem', p, k.free);
  }

  /** Words that are neither the cell nor the first word of a block of this bucket do not matter to it. */
  lemma OtherInMemory(mem: Mem, mem': Mem, cell: int, blocks: Blocks, c: nat, k: Bucket)
    requires Kept(blocks, c, k) && InMemory(mem, cell, c, k) && Load(mem', cell) == Load(mem, cell)
    requires forall p :: p in blocks && blocks[p] == c ==> Load(mem', p) == Load(mem, p)
    ensures InMemory(mem', cell, c, k)
  {
    forall i | 0 <= i < |k.free| ensures Load(mem', k.free[i]) == Load(mem, k.free[i]) {
      assert k.free[i] in k.free;
    }
    ThreadedFrame(mem, mem', k.free);
  }

  // ----- how many blocks are in use -----

  function Total(buckets: seq<Bucket>): nat {
    if buckets == [] then 0 else |buckets[0].live| + Total(buckets[1..])
  }

  lemma {:induction false} TotalUpdate(buckets: seq<Bucket>, b: nat, k: Bucket)
    requires b < |buckets|
    ensures Total(buckets[b := k]) + |buckets[b].live| == Total(buckets) + |k.live|
    decreases |buckets|
  {
    if b > 0 {
      assert buckets[b := k][1..] == buckets[1..][b - 1 := k];
      TotalUpdate(buckets[1..], b - 1, k);
    }
  }

  lemma {:induction false} TotalNone(buckets: seq<Bucket>)
    requires forall i :: 0 <= i < |buckets| ==> buckets[i] == NONE
    ensures Total(buckets) == 0
    decreases |buckets|
  {
    if buckets != [] {
      TotalNone(buckets[1..]);
    }
  }

  // ----- the allocator -----

  class Allocator {
    var mem: Mem
    var brk: int             // where platform_allocate finds memory that nobody has
    var table: int           // kmalloc_buckets
    var num: int
    var numTot: int
    var sizeTot: int
    var reqNum: int
    var reqSize: int
    ghost var blocks: Blocks
    ghost var buckets: seq<Bucket>

    function Cell(b: nat): int
      reads this
    {
      table + 4 * b
    }

    ghost predicate Valid()
      reads this
    {
      Whole(num)
    }

    /** The heap is in order, with n blocks in use. */
    ghost predicate Whole(n: int)
      reads this
    {
      && |buckets| == NBUCKETS && brk > 0 && n == Total(buckets) && reqNum == |blocks|
      && (forall b :: 0 <= b < NBUCKETS ==> Kept(blocks, b, buckets[b]))
      && if table == 0 then blocks == map[] && (forall b :: 0 <= b < NBUCKETS ==> buckets[b] == NONE)
         else Laid(mem, table, brk, blocks, buckets)
    }

    /** Is the block at p in use? */
    ghost predicate Live(p: int)
      reads this
    {
      p in blocks && blocks[p] < |buckets| && p in buckets[blocks[p]].live
    }

    /** The words of a block that its owner may use. */
    ghost predicate Payload(p: int, a: int)
      reads this
    {
      Live(p) && Inside(a, p, Actual(blocks[p]))
    }

    constructor (start: int)
      requires start > 0
      ensures Valid() && blocks == map[] && forall p :: !Live(p)
    {
      mem, brk, table, num, numTot, sizeTot, reqNum, reqSize := map[], start, 0, 0, 0, 0, 0, 0;
      blocks, buckets := map[], seq(NBUCKETS, _ => NONE);
      new;
      TotalNone(buckets);
    }

    /** platform_allocate: memory that nobody has. */
    method PlatformAllocate(size: nat) returns (p: int)
      modifies this`brk
      ensures p == old(brk) && brk == p + size
    {
      p := brk;
      brk := brk + size;
    }

    /** The first call makes the table of chains. */
    method InitTable()
      requires Valid() && table == 0
      modifies this`mem, this`brk, this`table
      ensures Valid() && table != 0 && (forall p :: !Live(p)) && (forall a :: a < old(brk) ==> Load(mem, a) == old(Load(mem, a)))
    {
      hide Kept, InMemory, Laid;
      table := PlatformAllocate(4 * NBUCKETS);
      var i := 0;
      while i < NBUCKETS
        invariant 0 <= i <= NBUCKETS && table == old(brk) && brk == table + 4 * NBUCKETS
        invariant forall b :: 0 <= b < i ==> Load(mem, table + 4 * b) == 0
        invariant forall a :: a < old(brk) ==> Load(mem, a) == old(Load(mem, a))
      {
        mem := mem[table + 4 * i := 0];
        i := i + 1;
      }
      LaidEmpty(mem, table, buckets);
    }

    /** A block is taken from its chain. */
    method TakeFree(b: nat) returns (ptr: int)
      requires Valid() && table != 0 && b < NBUCKETS && buckets[b].free != []
      modifies this`mem, this`num, this`buckets
      ensures ptr == old(buckets[b].free[0]) && mem == old(mem)[old(Cell(b)) := old(Load(mem, ptr))][ptr := b]
      ensures num == old(num) + 1 && buckets == old(buckets)[b := Use(old(buckets[b]), ptr)]
      ensures Valid() && Live(ptr) && !old(Live(ptr)) && blocks[ptr] == b && Payloads()
    {
      hide InMemory, Kept, Actual, Use, Apart;
      ghost var k := buckets[b];
      ReuseKept(blocks, b, k);
      UseLive(k, k.free[0]);
      CellsApart();
      ReuseInMemory(mem, Cell(b), blocks, b, k);
      TotalUpdate(buckets, b, Use(k, k.free[0]));
      FirstOf(mem, Cell(b), b, k);
      ptr := Load(mem, Cell(b));
      ghost var mem0 := mem;
      mem := mem[Cell(b) := Load(mem, ptr)];
      mem := mem[ptr := b];
      num := num + 1;
      buckets := buckets[b := Use(k, ptr)];
      OthersInMemory(mem0, mem, table, brk, blocks, old(buckets), b, ptr);
      PayloadsAway(mem0, mem, table, brk, blocks, b, ptr);
    }

    /** A new block is requested. */
    method TakeNew(b: nat) returns (ptr: int)
      requires Valid() && table != 0 && b < NBUCKETS && buckets[b].free == []
      modifies this`mem, this`brk, this`num, this`reqNum, this`reqSize, this`buckets, this`blocks
      ensures ptr !in old(blocks) && blocks == old(blocks)[ptr := b] && blocks[ptr] == b && mem == old(mem)[ptr := b]
      ensures num == old(num) + 1 && buckets == old(buckets)[b := Use(old(buckets[b]), ptr)]
      ensures Valid() && Live(ptr) && !old(Live(ptr)) && Payloads()
    {
      hide InMemory, Kept, Actual, Use, Apart, Laid;
      ghost var k := buckets[b];
      Sizes(b);
      ptr := PlatformAllocate(Actual(b));
      reqNum := reqNum + 1;
      reqSize := reqSize + Actual(b);
      LaidAfterNew(mem, table, ptr, blocks, buckets, b);
      UseLive(k, ptr);
      TotalUpdate(buckets, b, Use(k, ptr));
      mem := mem[ptr := b];
      num := num + 1;
      blocks := blocks[ptr := b];
      buckets := buckets[b := Use(k, ptr)];
    }

    /** malloc; r is 0 for a size of 0, and ok is false where the source stops. */
    method Malloc(size: int) returns (ok: bool, r: int)
      requires Valid() && -0x8000_0000 <= size < 0x8000_0000
      modifies this
      ensures ok <==> size == 0 || (size > 0 && BucketFor(size, 0) < NBUCKETS)
      ensures size == 0 ==> r == 0 && unchanged(this)
      ensures ok ==> Valid() && Payloads()
      ensures ok && size != 0 ==>
                var b, p := BucketFor(size, 0), r - 4;
                && !old(Live(p)) && Live(p) && blocks[p] == b && num == old(num) + 1
                && buckets == old(buckets)[b := Use(old(buckets[b]), p)]
                && (if old(buckets[b].free) != [] then p == old(buckets[b].free[0]) && blocks == old(blocks)
                    else p !in old(blocks) && blocks == old(blocks)[p := b])
    {
      hide InMemory, Kept, Apart, Actual, Use, Signed32, BucketFor;
      r := 0;
      if size == 0 {
        return true, 0;
      }
      if size < 0 {
        return false, 0;
      }
      numTot := numTot + 1;
      sizeTot := sizeTot + size;
      if table == 0 {
        InitTable();
      }
      var bucket := FindBucket(size);
      if bucket == NBUCKETS {
        return false, 0;
      }
      r := Take(bucket);
      ok, r := true, r + 4;
    }

    /** The search for the first bucket with room for the header and the size. */
    method FindBucket(size: int) returns (bucket: nat)
      ensures bucket == BucketFor(size, 0)
    {
      bucket := 0;
      while bucket < NBUCKETS
        invariant bucket <= NBUCKETS && BucketFor(size, 0) == BucketFor(size, bucket)
      {
        if Signed32(size + 4) <= Actual(bucket) {
          break;
        }
        bucket := bucket + 1;
      }
    }

    /** The first of the chain, or a new block. */
    method Take(bucket: nat) returns (ptr: int)
      requires Valid() && table != 0 && bucket < NBUCKETS
      modifies this`mem, this`brk, this`num, this`reqNum, this`reqSize, this`buckets, this`blocks
      ensures Valid() && Payloads() && !old(Live(ptr)) && Live(ptr) && blocks[ptr] == bucket && num == old(num) + 1
      ensures buckets == old(buckets)[bucket := Use(old(buckets[bucket]), ptr)]
      ensures if old(buckets[bucket].free) != [] then ptr == old(buckets[bucket].free[0]) && blocks == old(blocks)
              else ptr !in old(blocks) && blocks == old(blocks)[ptr := bucket]
    {
      hide InMemory, Kept, Apart, Actual, Use, Valid, Live, Payload;
      HeadIsFree(bucket);
      if Load(mem, Cell(bucket)) == 0 {
        ptr := TakeNew(bucket);
      } else {
        ptr := TakeFree(bucket);
      }
    }

    /** The cell is null just when the chain is empty. */
    lemma HeadIsFree(b: nat)
      requires Valid() && table != 0 && b < NBUCKETS
      ensures Load(mem, Cell(b)) == 0 <==> buckets[b].free == []
    {
      OfBucket(b);
      if buckets[b].free != [] {
        assert buckets[b].free[0] in buckets[b].free;
      }
    }

    /** free, of a block in use or of the null pointer. */
    method Free(buf: int) returns (ok: bool)
      requires Valid() && (buf == 0 || Live(buf - 4))
      modifies this
      ensures ok && Valid()
      ensures buf == 0 ==> unchanged(this)
      ensures buf != 0 ==>
                var p := buf - 4;
                var b := old(blocks[p]);
                && !Live(p) && blocks == old(blocks) && num == old(num) - 1
                && buckets == old(buckets)[b := Release(old(buckets[b]), p)]
      ensures forall p, a :: p != buf - 4 && old(Payload(p, a)) ==> Payload(p, a) && Load(mem, a) == old(Load(mem, a))
    {
      hide InMemory, Kept, Actual, Release, Apart, Laid, Total;
      if buf == 0 {
        return true;
      }
      var ptr := buf - 4;
      NumPositive(blocks[ptr], ptr);
      FirstWord(blocks[ptr], ptr);
      if num <= 0 {
        return false;
      }
      num := num - 1;
      var bucket := Load(mem, ptr);
      if bucket < 0 || bucket >= NBUCKETS {
        return false;
      }
      Relink(ptr, bucket);
      ok := true;
    }

    /** The block becomes the first of its chain; it is counted no longer. */
    method Relink(ptr: int, bucket: nat)
      requires Whole(num + 1) && table != 0 && Live(ptr) && bucket == blocks[ptr]
      modifies this`mem, this`buckets
      ensures Valid() && !Live(ptr) && buckets == old(buckets)[bucket := Release(old(buckets[bucket]), ptr)]
      ensures forall p, a :: p != ptr && old(Payload(p, a)) ==> Payload(p, a) && Load(mem, a) == old(Load(mem, a))
    {
      hide InMemory, Kept, Actual, Release, Apart, Laid, Total;
      ReleaseLaid(mem, table, brk, blocks, buckets, bucket, ptr);
      ReleaseTotal(blocks, buckets, bucket, ptr);
      ReleaseLive(buckets[bucket], ptr);
      LaidApart(mem, table, brk, blocks, buckets);
      ghost var mem0 := mem;
      mem := mem[ptr := Load(mem, Cell(bucket))];
      mem := mem[Cell(bucket) := ptr];
      buckets := buckets[bucket := Release(buckets[bucket], ptr)];
      PayloadsAway(mem0, mem, table, brk, blocks, bucket, ptr);
    }

    lemma NumPositive(b: nat, p: int)
      requires Valid() && b < NBUCKETS && p in buckets[b].live
      ensures num > 0 && table != 0
    {
      TotalUpdate(buckets, b, NONE);
      assert |buckets[b].live| > 0 by { assert buckets[b].live != {}; }
    }

    lemma OfBucket(b: nat)
      requires Valid() && table != 0 && b < NBUCKETS
      ensures InMemory(mem, Cell(b), b, buckets[b]) && Kept(blocks, b, buckets[b])
    {
      hide InMemory, Kept, Total, Apart;
    }

    lemma FirstWord(b: nat, p: int)
      requires Valid() && table != 0 && b < NBUCKETS && p in buckets[b].live
      ensures Load(mem, p) == b
    {
      hide Kept, Valid;
      OfBucket(b);
    }

    /** _malloc_get_size: what a block can hold. */
    method GetSize(buf: int) returns (size: int)
      requires Valid() && Live(buf - 4)
      ensures size == Actual(blocks[buf - 4]) - 4
    {
      hide InMemory, Kept, Actual;
      NumPositive(blocks[buf - 4], buf - 4);
      FirstWord(blocks[buf - 4], buf - 4);
      size := Actual(Load(mem, buf - 4)) - 4;
    }

    /** The owner of a block stores into it: the allocator is none the wiser. */
    method ClientStore(ghost p: int, a: int, x: int)
      requires Valid() && Payload(p, a)
      modifies this`mem
      ensures Valid() && mem == old(mem)[a := x]
    {
      hide InMemory, Kept, Actual;
      NumPositive(blocks[p], p);
      ghost var mem0 := mem;
      mem := mem[a := x];
      forall q | q in blocks ensures a != q && a >= table + 4 * NBUCKETS {
        PayloadAway(blocks, table + 4 * NBUCKETS, brk, p, a, q);
      }
      assert a >= table + 4 * NBUCKETS by { PayloadAway(blocks, table + 4 * NBUCKETS, brk, p, a, p); }
      forall c | 0 <= c < NBUCKETS ensures InMemory(mem, table + 4 * c, c, buckets[c]) {
        OtherInMemory(mem0, mem, table + 4 * c, blocks, c, buckets[c]);
      }
    }

    /** Blocks in use share no byte, and hold nothing of the chains or of the table. */
    lemma LiveDisjoint(p: int, q: int)
      requires Valid() && Live(p) && q in blocks && p != q
      ensures p + Actual(blocks[p]) <= q || q + Actual(blocks[q]) <= p
      ensures table + 4 * NBUCKETS <= p && p + Actual(blocks[p]) <= brk
    {
      hide InMemory, Kept, Actual;
      NumPositive(blocks[p], p);
    }

    /** Nothing is lost: per size, requested == in use + free == the most ever in use at once. */
    lemma Conservation(b: nat)
      requires Valid() && b < NBUCKETS
      ensures buckets[b].requested == |buckets[b].live| + |buckets[b].free| == buckets[b].peak
    {
      assert Kept(blocks, b, buckets[b]);
    }

    /** What the owners of blocks have stored in them is as it was. */
    twostate predicate Payloads()
      reads this
    {
      forall p, a :: old(Payload(p, a)) ==> Payload(p, a) && Load(mem, a) == old(Load(mem, a))
    }

    /** The table lies below all blocks. */
    lemma CellsApart()
      requires Valid() && table != 0
      ensures forall b, p :: 0 <= b < NBUCKETS && p in blocks ==> Cell(b) < p
      ensures forall b, c :: 0 <= b < c < NBUCKETS ==> Cell(b) != Cell(c)
    {
    }
  }

  lemma LaidEmpty(mem: Mem, table: int, buckets: seq<Bucket>)
    requires |buckets| == NBUCKETS && 0 < table && forall b :: 0 <= b < NBUCKETS ==> buckets[b] == NONE
    requires forall b :: 0 <= b < NBUCKETS ==> Load(mem, table + 4 * b) == 0
    ensures Laid(mem, table, table + 4 * NBUCKETS, map[], buckets)
  {
    hide InMemory;
    forall b | 0 <= b < NBUCKETS ensures InMemory(mem, table + 4 * b, b, buckets[b]) {
      NoneInMemory(mem, table + 4 * b, b);
    }
  }

  lemma NoneInMemory(mem: Mem, cell: int, b: nat)
    requires Load(mem, cell) == 0
    ensures InMemory(mem, cell, b, NONE)
  {
  }

  lemma UseLive(k: Bucket, p: int)
    requires p !in k.live
    ensures Use(k, p).live == k.live + {p} && |Use(k, p).live| == |k.live| + 1
  {
  }

  lemma ReleaseLive(k: Bucket, p: int)
    ensures Release(k, p).live == k.live - {p}
  {
  }

  lemma LaidApart(mem: Mem, table: int, brk: int, blocks: Blocks, buckets: seq<Bucket>)
    requires Laid(mem, table, brk, blocks, buckets)
    ensures Apart(blocks, table + 4 * NBUCKETS, brk)
  {
  }

  /** The two words that free writes keep the heap laid out. */
  lemma ReleaseLaid(mem: Mem, table: int, brk: int, blocks: Blocks, buckets: seq<Bucket>, b: nat, p: int)
    requires Laid(mem, table, brk, blocks, buckets) && forall c :: 0 <= c < NBUCKETS ==> Kept(blocks, c, buckets[c])
    requires b < NBUCKETS && p in blocks && blocks[p] == b && p in buckets[b].live
    ensures Laid(mem[p := Load(mem, table + 4 * b)][table + 4 * b := p], table, brk, blocks, buckets[b := Release(buckets[b], p)])
  {
    hide InMemory, Kept, Actual, Release;
    var mem' := mem[p := Load(mem, table + 4 * b)][table + 4 * b := p];
    ReleaseInMemory(mem, table + 4 * b, blocks, b, buckets[b], p);
    OthersInMemory(mem, mem', table, brk, blocks, buckets, b, p);
  }

  lemma ReleaseTotal(blocks: Blocks, buckets: seq<Bucket>, b: nat, p: int)
    requires |buckets| == NBUCKETS && b < NBUCKETS && p in buckets[b].live && forall c :: 0 <= c < NBUCKETS ==> Kept(blocks, c, buckets[c])
    ensures var buckets' := buckets[b := Release(buckets[b], p)];
            Total(buckets') == Total(buckets) - 1 && forall c :: 0 <= c < NBUCKETS ==> Kept(blocks, c, buckets'[c])
  {
    hide Kept, Release;
    ReleaseKept(blocks, b, buckets[b], p);
    TotalUpdate(buckets, b, Release(buckets[b], p));
  }

  /** No word that an owner may use shares a byte with the first word of a block, or with the table. */
  lemma PayloadAway(blocks: Blocks, lo: int, hi: int, p: int, a: int, q: int)
    requires Apart(blocks, lo, hi) && p in blocks && q in blocks && Inside(a, p, Actual(blocks[p]))
    ensures (a + 4 <= q || q + 4 <= a) && lo <= a && a + 4 <= hi
  {
    hide Actual;
    Sizes(blocks[q]);
  }

  /** Two words written, in the table and at the start of a block: the other buckets do not notice ... */
  lemma OthersInMemory(mem: Mem, mem': Mem, table: int, hi: int, blocks: Blocks, buckets: seq<Bucket>, b: nat, ptr: int)
    requires |buckets| == NBUCKETS && b < NBUCKETS && Apart(blocks, table + 4 * NBUCKETS, hi) && ptr in blocks && blocks[ptr] == b
    requires forall a :: a != ptr && a != table + 4 * b ==> Load(mem', a) == Load(mem, a)
    requires forall c :: 0 <= c < NBUCKETS ==> Kept(blocks, c, buckets[c]) && InMemory(mem, table + 4 * c, c, buckets[c])
    ensures forall c :: 0 <= c < NBUCKETS && c != b ==> InMemory(mem', table + 4 * c, c, buckets[c])
  {
    hide InMemory, Kept, Actual;
    forall c | 0 <= c < NBUCKETS && c != b ensures InMemory(mem', table + 4 * c, c, buckets[c]) {
      OtherInMemory(mem, mem', table + 4 * c, blocks, c, buckets[c]);
    }
  }

  /** A new block above all others. */
  lemma OthersAfterNew(mem: Mem, table: int, p: int, blocks: Blocks, buckets: seq<Bucket>, b: nat)
    requires |buckets| == NBUCKETS && b < NBUCKETS && 0 < table && table + 4 * NBUCKETS <= p && Apart(blocks, table + 4 * NBUCKETS, p)
    requires forall c :: 0 <= c < NBUCKETS ==> Kept(blocks, c, buckets[c]) && InMemory(mem, table + 4 * c, c, buckets[c])
    ensures p !in blocks && Apart(blocks[p := b], table + 4 * NBUCKETS, p + Actual(b))
    ensures forall c :: 0 <= c < NBUCKETS && c != b ==>
              Kept(blocks[p := b], c, buckets[c]) && InMemory(mem[p := b], table + 4 * c, c, buckets[c])
    ensures forall q, a :: q in blocks && Inside(a, q, Actual(blocks[q])) ==> Load(mem[p := b], a) == Load(mem, a)
  {
    hide InMemory, Kept, Actual;
    Sizes(b);
    forall q | q in blocks ensures q < p {
      Sizes(blocks[q]);
    }
    forall c | 0 <= c < NBUCKETS && c != b
      ensures Kept(blocks[p := b], c, buckets[c]) && InMemory(mem[p := b], table + 4 * c, c, buckets[c])
    {
      OtherKept(blocks, b, p, c, buckets[c]);
      OtherInMemory(mem, mem[p := b], table + 4 * c, blocks, c, buckets[c]);
    }
  }

  lemma LaidAfterNew(mem: Mem, table: int, p: int, blocks: Blocks, buckets: seq<Bucket>, b: nat)
    requires Laid(mem, table, p, blocks, buckets) && b < NBUCKETS && buckets[b].free == []
    requires forall c :: 0 <= c < NBUCKETS ==> Kept(blocks, c, buckets[c])
    ensures p !in blocks && p !in buckets[b].live
    ensures Laid(mem[p := b], table, p + Actual(b), blocks[p := b], buckets[b := Use(buckets[b], p)])
    ensures var bs := buckets[b := Use(buckets[b], p)];
            (forall c :: 0 <= c < NBUCKETS ==> Kept(blocks[p := b], c, bs[c]))
    ensures forall q, a :: q in blocks && Inside(a, q, Actual(blocks[q])) ==> Load(mem[p := b], a) == Load(mem, a)
  {
    hide InMemory, Kept, Actual, Use, Apart;
    Sizes(b);
    OthersAfterNew(mem, table, p, blocks, buckets, b);
    RequestKept(blocks, b, buckets[b], p);
    RequestInMemory(mem, table + 4 * b, blocks, b, buckets[b], p);
  }

  /** ... and neither do the owners of blocks. */
  lemma PayloadsAway(mem: Mem, mem': Mem, table: int, hi: int, blocks: Blocks, b: nat, ptr: int)
    requires b < NBUCKETS && Apart(blocks, table + 4 * NBUCKETS, hi) && ptr in blocks
    requires forall a :: a != ptr && a != table + 4 * b ==> Load(mem', a) == Load(mem, a)
    ensures forall p, a :: p in blocks && Inside(a, p, Actual(blocks[p])) ==> Load(mem', a) == Load(mem, a)
  {
    hide Actual;
    forall p, a | p in blocks && Inside(a, p, Actual(blocks[p])) ensures Load(mem', a) == Load(mem, a) {
      PayloadAway(blocks, table + 4 * NBUCKETS, hi, p, a, ptr);
    }
  }

  lemma FirstOf(mem: Mem, cell: int, b: nat, k: Bucket)
    requires InMemory(mem, cell, b, k)
    ensures Load(mem, cell) == Head(k.free)
  {
  }

  lemma Sizes(b: nat)
    ensures Actual(b) >= 8
  {
    Pow2Monotone(3, b + 3);
    assert Pow2(3) == 8;
  }
}
