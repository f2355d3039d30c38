/** The arithmetic behind the 64-bit division of asmg/int64_div.g: the quotient estimated from a
    64-by-32 division is at most one too large. */
module DivisionEstimate {
  import opened Powers
  import opened Int64

  /** Number of leading zero bits of a nonzero 32-bit word. */
  function Nlz(x: int): (s: nat)
    requires 0 < x < B32
    decreases B32 - x
  {
    if x >= 0x8000_0000 then 0 else 1 + Nlz(2 * x)
  }

  /** Nlz normalises: shifted by it, the word has its top bit set and nothing is shifted out. */
  lemma {:induction false} NlzNormalises(x: int)
    requires 0 < x < B32
    ensures Nlz(x) <= 31 && 0x8000_0000 <= x * Pow2(Nlz(x)) < B32
    decreases B32 - x
  {
    Pow2Values();
    MulLe(1, x, Pow2(31));
    NlzStays(x, 31);
    if x < 0x8000_0000 {
      NlzNormalises(2 * x);
      Doubled(x, Pow2(Nlz(2 * x)));
    }
  }

  lemma Doubled(x: int, p: int)
    ensures x * (2 * p) == (2 * x) * p
  {
  }

  lemma {:induction false} NlzStays(x: int, k: nat)
    requires 0 < x < B32 && x * Pow2(k) >= 0x8000_0000
    ensures Nlz(x) <= k
    decreases k
  {
    if x < 0x8000_0000 {
      assert k > 0;
      assert x * Pow2(k) == (2 * x) * Pow2(k - 1);
      NlzStays(2 * x, k - 1);
    }
  }

  lemma {:induction false} NlzShift(x: int, k: nat)
    requires 0 < x && x * Pow2(k) < B32
    ensures x < B32 && 0 < x * Pow2(k)
    ensures Nlz(x) == k + Nlz(x * Pow2(k))
    decreases k
  {
    if k > 0 {
      assert x * Pow2(k) == (2 * x) * Pow2(k - 1);
      NlzShift(2 * x, k - 1);
      assert 2 * x < B32;
    }
  }

  /** The divisor shifted left until its top bit is set, cut to its high dword. */
  function TopWord(d: int): int
    requires B32 <= d < B64
  {
    ((d * Pow2(Nlz(d / B32))) % B64) / B32
  }

  /** The estimate: halve n, divide by the top word of d, undo the normalisation. */
  function Estimate(n: int, d: int): int
    requires B32 <= d <= n < B64
  {
    TopWordCuts(d);
    ((n / 2) / TopWord(d)) / Pow2(31 - Nlz(d / B32))
  }

  /** No bit is lost on the left, and cutting the low dword divides d by r = 2^(32 - s). */
  lemma TopWordCuts(d: int)
    requires B32 <= d < B64
    ensures var s := Nlz(d / B32);
            && s <= 31
            && d * Pow2(s) < B64
            && TopWord(d) == d / Pow2(32 - s)
            && 0x8000_0000 <= TopWord(d) < B32
  {
    var d1 := d / B32;
    NlzNormalises(d1);
    var s := Nlz(d1);
    var p, r := Pow2(s), Pow2(32 - s);
    Pow2Split(s);
    assert r * p == p * r;
    MulCancelLt(d1, r, p);
    DivBounds(d, B32);
    TopWordBounds(d, d1, p, r);
    CutLow(d, p, r);
  }

  lemma CutLow(d: int, p: int, r: int)
    requires d >= 0 && p > 0 && r > 0 && p * r == B32 && 0 <= d * p
    ensures (d * p) / B32 == d / r
  {
    DivDiv(d * p, p, r);
    DivUnique(d * p, p, d);
  }

  lemma TopWordBounds(d: int, d1: int, p: int, r: int)
    requires p > 0 && r > 0 && p * r == B32 && 0 < d1 < r && d1 * p >= 0x8000_0000
    requires d1 * B32 <= d < d1 * B32 + B32
    ensures 0 <= d * p < B64 && 0x8000_0000 <= d / r < B32
  {
    assert d < B32 * r;
    DivLess(d, r, B32);
    TimesBelow(d, r, p);
    assert d1 * B32 == (d1 * p) * r by { Regroup(d1, p, r); }
    DivBounds(d, r);
    Successor(d / r, r);
    MulCancelLt(d1 * p, d / r + 1, r);
  }

  lemma Regroup(x: int, p: int, r: int)
    ensures x * (p * r) == (x * p) * r
  {
  }

  lemma Successor(x: int, r: int)
    ensures (x + 1) * r == x * r + r
  {
  }

  lemma TimesBelow(d: int, r: int, p: int)
    requires 0 <= d < B32 * r && p > 0 && p * r == B32
    ensures 0 <= d * p < B64
  {
    MulLe(0, d, p);
    MulLe(d + 1, B32 * r, p);
    Successor(d, p);
    Regroup(B32, r, p);
    assert r * p == p * r;
  }

  lemma HalvesDivide(n: int, v: int, h: int)
    requires n >= 0 && v > 0 && h > 0
    ensures v * (2 * h) > 0 && ((n / 2) / v) / h == n / (v * (2 * h))
  {
    DivNonNegative(n, 2);
    DivDiv(n / 2, v, h);
    DivDiv(n, 2, v * h);
    Doubled(v, h);
    Regroup(2, v, h);
  }

  /** The estimate divides by k = TopWord(d) * r, a multiple of r = 2^(32 - s) just below d. */
  lemma EstimateDivides(n: int, d: int, s: nat, r: int, k: int)
    requires B32 <= d <= n < B64
    requires s == Nlz(d / B32) <= 31 && r == Pow2(32 - s) && k == TopWord(d) * r
    ensures 0 < k <= d < k + r && Estimate(n, d) == n / k
  {
    TopWordCuts(d);
    var v, h := TopWord(d), Pow2(31 - s);
    assert r == 2 * h;
    DivBounds(d, r);
    HalvesDivide(n, v, h);
  }

  lemma CrossLeft(n: int, q: int, d: int, k: int)
    requires n < (q + 1) * d && k > 0
    ensures n * k < (q + 1) * (k * d)
  {
    MulLe(n + 1, (q + 1) * d, k);
    Successor(n, k);
    Regroup(q + 1, d, k);
    assert d * k == k * d;
  }

  lemma CrossRight(q: int, d: int, k: int)
    ensures ((q + 2) * k) * d == (q + 1) * (k * d) + k * d
  {
    Regroup(q + 2, k, d);
    Successor(q + 1, k * d);
  }

  lemma DistributeMinus(n: int, d: int, k: int)
    ensures n * (d - k) == n * d - n * k
  {
  }

  lemma QuotientNear(n: int, d: int, k: int, q: int)
    requires 0 < k && 0 < d && n < (q + 1) * d && n * (d - k) <= k * d
    ensures n < (q + 2) * k
  {
    CrossLeft(n, q, d, k);
    CrossRight(q, d, k);
    DistributeMinus(n, d, k);
    MulCancelLt(n, (q + 2) * k, d);
  }

  /** With k <= d and n * (d - k) <= k * d, dividing by k instead of d adds at most one. */
  lemma NearbyDivisor(n: int, d: int, k: int)
    requires n >= 0 && 0 < k <= d && n * (d - k) <= k * d
    ensures n / d <= n / k <= n / d + 1
  {
    DivMonotone(n, k, d);
    DivBounds(n, d);
    Successor(n / d, d);
    QuotientNear(n, d, k, n / d);
    DivLess(n, k, n / d + 2);
  }

  /** Hacker's Delight, unsigned doubleword division: the estimate is the quotient or one more. */
  lemma EstimateBound(n: int, d: int)
    requires B32 <= d <= n < B64
    ensures n / d <= Estimate(n, d) <= n / d + 1
  {
    TopWordCuts(d);
    var s, v := Nlz(d / B32), TopWord(d);
    var r := Pow2(32 - s);
    var k := v * r;
    EstimateDivides(n, d, s, r, k);
    MulLe(0x8000_0000, v, r);
    if s == 31 {
      assert r == 2 by { Pow2Values(); }
      LargeShift(n, d, k);
    } else {
      assert r >= 4 by { Pow2Monotone(2, 32 - s); Pow2Values(); }
      SmallError(n, d, k, r);
    }
    NearbyDivisor(n, d, k);
  }

  lemma LargeShift(n: int, d: int, k: int)
    requires 0 <= n < B64 && B32 <= k <= d < k + 2
    ensures n * (d - k) <= k * d
  {
    MulLe(d - k, 1, n);
    MulLe(B32, k, d);
  }

  lemma SmallError(n: int, d: int, k: int, r: int)
    requires 0 <= n < B64 && r >= 4 && 0x8000_0000 * r <= k <= d < k + r
    ensures n * (d - k) <= k * d
  {
    MulLe(d - k, r, n);
    MulLe(n, B64, r);
    assert (d - k) * n == n * (d - k) && r * n == n * r;
    var c := 0x8000_0000 * r;
    MulLe(c, k, d);
    MulLe(c, d, c);
    Squares(r);
    assert c * d == d * c;
  }

  lemma Squares(r: int)
    requires r >= 4
    ensures (0x8000_0000 * r) * (0x8000_0000 * r) >= B64 * r
  {
    MulLe(4, r, r);
    Regroup(0x8000_0000 * r, 0x8000_0000, r);
  }

  /** One comparison of the remainder left by estimate - 1 settles which of the two it is. */
  lemma RemainderDecides(n: int, d: int)
    requires B32 <= d <= n < B64
    ensures var e := Estimate(n, d);
            && 1 <= e <= B32
            && 0 <= (e - 1) * d <= n
            && n / d == (if n - (e - 1) * d < d then e - 1 else e)
            && (n - (e - 1) * d < d <==> n < e * d)
  {
    EstimateBound(n, d);
    var e, q := Estimate(n, d), n / d;
    DivBounds(n, d);
    Successor(q, d);
    Successor(e - 1, d);
    MulCancelLt(1, q + 1, d);
    MulLe(e - 1, q, d);
    MulLe(0, e - 1, d);
    MulLe(B32, d, B32);
    assert B32 * d == d * B32;
    DivLess(n, d, B32);
  }

  /** Schoolbook division with a 32-bit divisor: the high dword first, its remainder carried down. */
  lemma TwoStepDivision(n1: int, n0: int, d: int)
    requires 0 <= n1 < B32 && 0 <= n0 < B32 && 0 < d
    ensures 0 <= n1 % d < d && 0 <= n1 / d < B32
    ensures (n0 + B32 * n1) / d == B32 * (n1 / d) + (n0 + B32 * (n1 % d)) / d
  {
    DivBounds(n1, d);
    DivNonNegative(n1, d);
    var low := (n1 % d) * B32 + n0;
    DivBounds(low, d);
    var q := (n1 / d) * B32 + low / d;
    assert n1 * B32 == ((n1 / d) * d) * B32 + (n1 % d) * B32;
    assert q * d == ((n1 / d) * B32) * d + (low / d) * d;
    assert ((n1 / d) * B32) * d == ((n1 / d) * d) * B32;
    DivUnique(n1 * B32 + n0, d, q);
  }
}

/** asmg/int64_div.g.  The locals of a function live in the cells just below `fp`, the cell that
    holds the saved frame pointer: the first local declared is in cell fp - 1, the next in fp - 2. */
module Int64Div {
  import opened Powers
  import opened Words
  import opened Int64
  import opened DivisionEstimate

  /** Nlz by five masks: sixteen, eight, four, two and one bits. */
  method CountLeadingZeros(x0: Word) returns (n: Word)
    ensures x0 != 0 ==> n == Nlz(x0)
    ensures x0 == 0 ==> n == 31
  {
    hide Nlz, Counted;
    var x := x0;
    n := 0;
    StartCounting(x0);
    x, n := Narrow(x0, x, n, 16, 0x1_0000, 0x1_0000);
    x, n := Narrow(x0, x, n, 8, 0x100, 0x100_0000);
    x, n := Narrow(x0, x, n, 4, 0x10, 0x1000_0000);
    x, n := Narrow(x0, x, n, 2, 4, 0x4000_0000);
    x, n := Narrow(x0, x, n, 1, 2, 0x8000_0000);
    CountDone(x0, n, x);
  }

  /** One `if x mask & ! { ... }`: the mask keeps the bits from `bound` up, so the test is x < bound. */
  method Narrow(ghost x0: Word, x: Word, n: Word, k: nat, factor: int, bound: int) returns (x': Word, n': Word)
    requires Counted(x0, n, x) && n <= 30 && bound * factor == B32
    requires (k, factor) in {(1, 2), (2, 4), (4, 16), (8, 0x100), (16, 0x1_0000)}
    requires x0 == 0 || x >= bound / factor
    ensures Counted(x0, n', x') && n' <= n + k
    ensures if x0 == 0 then n' == n + k else x' >= bound
  {
    x', n' := x, n;
    if x < bound {
      Step(x0, n, x, k, factor);
      n' := n + k;
      x' := (x as int * factor) % B32;
    }
  }

  /** What the masks have found so far: n leading zeros, and x is the word shifted past them. */
  predicate Counted(x0: int, n: int, x: int)
    requires 0 <= x0 < B32
  {
    if x0 == 0 then x == 0 else 0 < x < B32 && Nlz(x0) == n + Nlz(x)
  }

  lemma Step(x0: int, n: int, x: int, k: nat, factor: int)
    requires 0 <= x0 < B32 && Counted(x0, n, x)
    requires (k, factor) in {(1, 2), (2, 4), (4, 16), (8, 0x100), (16, 0x1_0000)} && x * factor < B32
    ensures Counted(x0, n + k, x * factor) && 0 <= x * factor
    ensures x0 == 0 ==> x == 0
  {
    Pow2Values();
    if x0 > 0 {
      NlzShift(x, k);
    }
  }

  lemma StartCounting(x0: int)
    requires 0 <= x0 < B32
    ensures Counted(x0, 0, x0)
  {
  }

  lemma CountDone(x0: int, n: int, x: int)
    requires 0 <= x0 < B32 && Counted(x0, n, x)
    requires x0 == 0 || 0x8000_0000 <= x
    ensures x0 != 0 ==> n == Nlz(x0)
  {
  }

  /** `cells` cells of frame below fp, away from the two operands. */
  predicate Frame(m: array<Word>, n: int, d: int, fp: int, cells: int) {
    && m.Length <= 0x4000_0000
    && cells <= fp < m.Length
    && Slot(m, n) && Slot(m, d) && (n == d || Disjoint(n, d))
    && (n + 1 < fp - cells || fp < n) && (d + 1 < fp - cells || fp < d)
  }

  /** Nothing changed but the number at n and the frame. */
  twostate predicate OnlyResult(m: array<Word>, n: int, fp: int, cells: int)
    reads m
  {
    forall k :: 0 <= k < m.Length && k != n && k != n + 1 && !(fp - cells <= k < fp) ==> m[k] == old(m[k])
  }

  /** The branch for a divisor of 32 bits. */
  method UdivSmall(m: array<Word>, n: int, d: int)
    requires Slot(m, n) && Slot(m, d) && (n == d || Disjoint(n, d))
    requires m[d + 1] == 0 && m[d] != 0
    modifies m
    ensures OnlyChanged(m, n) && Value(m, n) == old(Value(m, n)) / old(Value(m, d))
  {
    var n1: int, d0: int := m[n + 1], m[d];
    TwoStepDivision(n1, m[n], d0);
    QuotientFits(m[n], n1 % d0, d0);
    var rem, top := n1 % d0, n1 / d0;
    assert old(Value(m, n)) / old(Value(m, d)) == B32 * top + (m[n] + B32 * rem) / d0;
    Carry(m, n, d0, rem, top);
  }

  /** The low quotient from the remainder of the high dword, then the high quotient added on top. */
  method Carry(m: array<Word>, n: int, d0: Word, rem: Word, top: Word)
    requires Slot(m, n) && rem < d0
    modifies m
    ensures OnlyChanged(m, n)
    ensures Value(m, n) == B32 * top + (old(m[n]) + B32 * rem) / d0
  {
    m[n + 1] := rem;
    UdivByWord(m, n, d0);
    m[n + 1] := (m[n + 1] as int + top) % B32;
  }

  /** Nothing changed but cells lo to hi - 1. */
  twostate predicate OnlyCells(m: array<Word>, lo: int, hi: int)
    reads m
  {
    forall k :: 0 <= k < m.Length && !(lo <= k < hi) ==> m[k] == old(m[k])
  }

  lemma HighWord(lo: int, hi: int)
    requires 0 <= lo < B32
    ensures (lo + B32 * hi) / B32 == hi
  {
  }

  lemma EstimateNeedsNoTrap(n: int, d: int)
    requires B32 <= d <= n < B64
    ensures (n / 2) / B32 < TopWord(d)
  {
    TopWordCuts(d);
  }

  /** Lines 103 to 117: s, one and the normalised copy of the divisor. */
  method NormaliseDivisor(m: array<Word>, d: int, fp: int, one: int)
    requires 16 <= fp < m.Length && Slot(m, d) && (d + 1 < fp - 16 || fp < d)
    requires one == fp - 11 || one == fp - 12
    requires B32 <= Value(m, d)
    modifies m
    ensures OnlyCells(m, fp - 14, fp - 4)
    ensures m[fp - 6] == Nlz(old(Value(m, d)) / B32) <= 31
    ensures m[one] == 1 && m[one + 1] == 0
    ensures m[fp - 13] == TopWord(old(Value(m, d)))
  {
    hide Nlz, TopWord, Pow2;
    ghost var D := Value(m, d);
    HighWord(m[d], m[d + 1]);
    TopWordCuts(D);
    m[fp - 5] := m[d + 1];
    var s := CountLeadingZeros(m[fp - 5]);
    m[fp - 6] := s;
    FromU32(m, one, 1);
    FromU32(m, fp - 8, m[fp - 6]);
    Copy(m, fp - 14, d);
    ShiftTop(m, fp - 14, fp - 8, D, s);
  }

  method ShiftTop(m: array<Word>, dcopy: int, tmp1: int, ghost D: int, ghost s: nat)
    requires Slot(m, dcopy) && Slot(m, tmp1) && Disjoint(dcopy, tmp1)
    requires B32 <= D < B64 && s == Nlz(D / B32) <= 31 && m[tmp1] == s && Value(m, dcopy) == D
    modifies m
    ensures OnlyChanged(m, dcopy) && m[dcopy + 1] == TopWord(D)
  {
    hide Nlz, Pow2;
    TopWordCuts(D);
    Shl(m, dcopy, tmp1);
    HighWord(m[dcopy], m[dcopy + 1]);
  }

  /** Lines 118 to 126: halve, divide by the top word, undo the normalisation, take one off. */
  method DivideByTop(m: array<Word>, n: int, d: int, fp: int, one: int)
    requires Frame(m, n, d, fp, 16) && (one == fp - 11 || one == fp - 12)
    requires B32 <= Value(m, d) <= Value(m, n)
    requires m[fp - 6] == Nlz(Value(m, d) / B32) <= 31 && m[fp - 13] == TopWord(Value(m, d))
    requires m[one] == 1 && m[one + 1] == 0
    modifies m
    ensures forall k :: 0 <= k < m.Length && k !in {fp - 16, fp - 15, fp - 8, fp - 7} ==> m[k] == old(m[k])
    ensures Value(m, fp - 16) == Estimate(old(Value(m, n)), old(Value(m, d))) - 1
  {
    hide Nlz, TopWord, Pow2;
    ghost var N, D := Value(m, n), Value(m, d);
    var tmp1, q := fp - 8, fp - 16;
    EstimateNeedsNoTrap(N, D);
    RemainderDecides(N, D);
    Copy(m, q, n);
    HalveAndDivide(m, q, one, m[fp - 13]);
    UndoShift(m, q, tmp1, one, m[fp - 6], Value(m, q));
  }

  method UndoShift(m: array<Word>, q: int, tmp1: int, one: int, s: Word, ghost u: int)
    requires Slot(m, q) && Slot(m, tmp1) && Slot(m, one)
    requires Disjoint(q, one) && Disjoint(tmp1, one) && Disjoint(q, tmp1)
    requires s <= 31 && Value(m, q) == u && u / Pow2(31 - s) >= 1 && Value(m, one) == 1
    modifies m
    ensures forall k :: 0 <= k < m.Length && k !in {q, q + 1, tmp1, tmp1 + 1} ==> m[k] == old(m[k])
    ensures Value(m, q) == u / Pow2(31 - s) - 1
  {
    FromU32(m, tmp1, 31 - s);
    Shr(m, q, tmp1);
    Sub(m, q, one);
  }

  method HalveAndDivide(m: array<Word>, q: int, one: int, v: Word)
    requires Slot(m, q) && Slot(m, one) && Disjoint(q, one) && m[one] == 1
    requires (Value(m, q) / 2) / B32 < v as int
    modifies m
    ensures OnlyChanged(m, q) && Value(m, q) == (old(Value(m, q)) / 2) / v as int
  {
    Pow2Values();
    Shr(m, q, one);
    HighWord(m[q], m[q + 1]);
    UdivByWord(m, q, v);
  }

  /** Lines 103 to 129: q becomes the estimate minus one and tmp1 its product with d.
      @tmp1 is fp - 8, @dcopy fp - 14, @q fp - 16; @one depends on the order of declarations. */
  method EstimateQuotient(m: array<Word>, n: int, d: int, fp: int, one: int)
    requires Frame(m, n, d, fp, 16) && (one == fp - 11 || one == fp - 12)
    requires B32 <= Value(m, d) <= Value(m, n)
    modifies m
    ensures OnlyCells(m, fp - 16, fp - 4)
    ensures m[one] == 1 && m[one + 1] == 0
    ensures Value(m, fp - 16) == Estimate(old(Value(m, n)), old(Value(m, d))) - 1
    ensures Value(m, fp - 8) == (Estimate(old(Value(m, n)), old(Value(m, d))) - 1) * old(Value(m, d))
  {
    hide Nlz, TopWord, Estimate;
    ghost var N, D := Value(m, n), Value(m, d);
    NormaliseDivisor(m, d, fp, one);
    DivideByTop(m, n, d, fp, one);
    RemainderDecides(N, D);
    MultiplyBack(m, fp - 16, fp - 8, d, Estimate(N, D) - 1, D);
  }

  method MultiplyBack(m: array<Word>, q: int, tmp1: int, d: int, ghost q': int, ghost d': int)
    requires Slot(m, q) && Slot(m, tmp1) && Slot(m, d) && Disjoint(q, tmp1) && Disjoint(tmp1, d)
    requires Value(m, q) == q' && Value(m, d) == d' && 0 <= q' * d' < B64
    modifies m
    ensures OnlyChanged(m, tmp1) && Value(m, tmp1) == q' * d'
  {
    Copy(m, tmp1, q);
    MulExact(m, tmp1, d, q', d');
  }

  method MulExact(m: array<Word>, to: int, from: int, ghost x: int, ghost y: int)
    requires Slot(m, to) && Slot(m, from)
    requires Value(m, to) == x && Value(m, from) == y && 0 <= x * y < B64
    modifies m
    ensures OnlyChanged(m, to) && Value(m, to) == x * y
  {
    hide Value;
    Mul(m, to, from);
  }

  /** Lines 130 to 139 with line 133 read as `n`, and tmp2 and one declared like the other pairs. */
  method CorrectQuotient(m: array<Word>, n: int, d: int, fp: int, ghost e: int, ghost product: int)
    requires Frame(m, n, d, fp, 16)
    requires m[fp - 12] == 1 && m[fp - 11] == 0
    requires 1 <= e <= B32 && Value(m, fp - 16) == e - 1
    requires Value(m, fp - 8) == product <= Value(m, n)
    modifies m
    ensures OnlyResult(m, n, fp, 16)
    ensures Value(m, n) == if old(Value(m, n)) - product < old(Value(m, d)) then e - 1 else e
  {
    CompareRemainder(m, fp - 10, n, fp - 8, d);
    AddAndStore(m, n, fp - 10, fp - 12, fp - 16, e);
  }

  /** tmp2 becomes one if `from` minus tmp1 is below the divisor, else zero. */
  method CompareRemainder(m: array<Word>, tmp2: int, from: int, tmp1: int, d: int)
    requires Slot(m, tmp2) && Slot(m, from) && Slot(m, tmp1) && Slot(m, d)
    requires Disjoint(tmp2, from) && Disjoint(tmp2, d) && Disjoint(tmp2, tmp1)
    modifies m
    ensures OnlyChanged(m, tmp2)
    ensures m[tmp2] == if (old(Value(m, from)) - old(Value(m, tmp1))) % B64 < old(Value(m, d)) then 1 else 0
  {
    Copy(m, tmp2, from);
    Sub(m, tmp2, tmp1);
    Ul(m, tmp2, d);
  }

  /** if tmp2 ! { @q @one i64_add ; }  n @q i64_copy ; */
  method AddAndStore(m: array<Word>, n: int, tmp2: int, one: int, q: int, ghost e: int)
    requires Slot(m, n) && Slot(m, one) && Slot(m, q) && 0 <= tmp2 < m.Length
    requires Disjoint(n, q) && Disjoint(q, one)
    requires 1 <= e <= B32 && Value(m, q) == e - 1 && m[one] == 1 && m[one + 1] == 0
    modifies m
    ensures forall k :: 0 <= k < m.Length && k !in {q, q + 1, n, n + 1} ==> m[k] == old(m[k])
    ensures Value(m, n) == if old(m[tmp2]) == 0 then e else e - 1
  {
    if m[tmp2] == 0 {
      Add(m, q, one);
    }
    Copy(m, n, q);
  }

  /** The branch for a divisor of more than 32 bits. */
  method UdivLarge(m: array<Word>, n: int, d: int, fp: int)
    requires Frame(m, n, d, fp, 16) && B32 <= Value(m, d)
    modifies m
    ensures OnlyResult(m, n, fp, 16)
    ensures Value(m, n) == old(Value(m, n)) / old(Value(m, d))
  {
    hide Estimate;
    ghost var N, D := Value(m, n), Value(m, d);
    var cmp := fp - 4;
    Copy(m, cmp, n);
    Ul(m, cmp, d);
    if m[cmp] != 0 {
      FromU32(m, n, 0);
      DivUnique(N, D, 0);
    } else {
      EstimateQuotient(m, n, d, fp, fp - 12);
      RemainderDecides(N, D);
      CorrectQuotient(m, n, d, fp, Estimate(N, D), (Estimate(N, D) - 1) * D);
    }
  }

  /** i64_udiv as its comments describe it, with three slips mended: line 133 reads n, and both tmp2
      (lines 113-114) and one (lines 115-116) are declared in the order of all other pairs.
      False stands for the failed assertion on a zero divisor. */
  method Udiv(m: array<Word>, n: int, d: int, fp: int) returns (ok: bool)
    requires Frame(m, n, d, fp, 16)
    modifies m
    ensures OnlyResult(m, n, fp, 16)
    ensures ok <==> old(Value(m, d)) != 0
    ensures ok ==> Value(m, n) == old(Value(m, n)) / old(Value(m, d))
    ensures !ok ==> Value(m, n) == old(Value(m, n))
  {
    m[fp - 1] := 4 * n;
    m[fp - 2] := 4 * d;
    assert Value(m, n) == old(Value(m, n)) && Value(m, d) == old(Value(m, d));
    if m[d] == 0 && m[d + 1] == 0 {
      return false;
    }
    if m[d + 1] == 0 {
      UdivSmall(m, n, d);
    } else {
      UdivLarge(m, n, d, fp);
    }
    return true;
  }

  // ----- signed division and remainders -----

  /** Replace the number at p by its magnitude; true when it was negative. */
  method TakeMagnitude(m: array<Word>, p: int) returns (negative: bool)
    requires Slot(m, p)
    modifies m
    ensures OnlyChanged(m, p) && negative == (Signed(old(Value(m, p))) < 0)
    ensures Value(m, p) == Abs(Signed(old(Value(m, p)))) <= B63
    ensures m[p + 1] < 0x8000_0000 || m[p + 1] == 0x8000_0000   // "i64_sdiv: error 1" and "error 2"
  {
    negative := m[p + 1] >= 0x8000_0000;
    if negative {
      NegatedPattern(Value(m, p));
      Neg(m, p);
    }
  }

  lemma NegatedPattern(v: int)
    requires 0 < v < B64
    ensures (-v) % B64 == B64 - v
  {
    DivUnique(-v, B64, -1);
  }

  lemma SignOfQuotient(a: int, b: int, q: int)
    requires -B63 <= a < B63 && -B63 <= b < B63 && b != 0 && q == Abs(a) / Abs(b)
    ensures 0 <= q <= B63
    ensures TruncDiv(a, b) == if (a < 0) != (b < 0) then -q else q
  {
    DivNonNegative(Abs(a), Abs(b));
  }

  /** i64_sdiv: divide the magnitudes, then set the sign.  Its locals are n, d, sign, tmp1_, tmp1,
      tmp2_ and tmp2; two arguments and a return address lie between them and the frame of i64_udiv. */
  method Sdiv(m: array<Word>, n: int, d: int, fp: int) returns (ok: bool)
    requires Frame(m, n, d, fp, 27)
    modifies m
    ensures OnlyResult(m, n, fp, 27)
    ensures ok <==> old(Value(m, d)) != 0
    ensures ok ==> Value(m, n) == TruncDiv(Signed(old(Value(m, n))), Signed(old(Value(m, d)))) % B64
    ensures !ok ==> Value(m, n) == old(Value(m, n))
  {
    ghost var a, b := Signed(Value(m, n)), Signed(Value(m, d));
    hide TruncDiv, Signed, Abs;
    var tmp1, tmp2 := fp - 5, fp - 7;
    m[fp - 1], m[fp - 2], m[fp - 3] := 4 * n, 4 * d, 0;
    ok := DivideMagnitudes(m, n, d, fp);
    if !ok { return; }
    SignOfQuotient(a, b, Value(m, tmp1));
    JoinResult(m, n, tmp1, fp - 3);
  }

  method DivideMagnitudes(m: array<Word>, n: int, d: int, fp: int) returns (ok: bool)
    requires Frame(m, n, d, fp, 27) && m[fp - 3] == 0
    modifies m
    ensures forall k :: 0 <= k < m.Length && !(fp - 27 <= k < fp - 2) ==> m[k] == old(m[k])
    ensures ok <==> old(Value(m, d)) != 0
    ensures ok ==> var a, b := Signed(old(Value(m, n))), Signed(old(Value(m, d)));
                   && b != 0 && Value(m, fp - 5) == Abs(a) / Abs(b)
                   && m[fp - 3] == if (a < 0) != (b < 0) then 1 else 0
  {
    hide Signed;
    var tmp1, tmp2 := fp - 5, fp - 7;
    SignedZero(Value(m, d));
    SplitOperand(m, tmp1, n, fp - 3);
    SplitOperand(m, tmp2, d, fp - 3);
    ok := Udiv(m, tmp1, tmp2, fp - 11);
  }

  lemma SignedZero(v: int)
    requires 0 <= v < B64
    ensures Abs(Signed(v)) == 0 <==> v == 0
  {
  }

  /** @tmp from i64_copy ; if tmp_ 0x80000000 & { @tmp i64_neg ; @sign sign 1 ^ = ; } */
  method SplitOperand(m: array<Word>, tmp: int, from: int, sign: int)
    requires Slot(m, tmp) && Slot(m, from) && 0 <= sign < m.Length && m[sign] <= 1
    requires Disjoint(tmp, from) && sign !in {tmp, tmp + 1, from, from + 1}
    modifies m
    ensures forall k :: 0 <= k < m.Length && k !in {tmp, tmp + 1, sign} ==> m[k] == old(m[k])
    ensures Value(m, tmp) == Abs(Signed(old(Value(m, from)))) <= B63
    ensures m[sign] == if Signed(old(Value(m, from))) < 0 then 1 - old(m[sign]) else old(m[sign])
  {
    Copy(m, tmp, from);
    var negative := TakeMagnitude(m, tmp);
    if negative {
      m[sign] := 1 - m[sign];
    }
  }

  /** if sign { @tmp1 i64_neg ; }  n @tmp1 i64_copy ; */
  method JoinResult(m: array<Word>, n: int, tmp1: int, sign: int)
    requires Slot(m, tmp1) && Slot(m, n) && 0 <= sign < m.Length
    requires Disjoint(tmp1, n) && sign !in {tmp1, tmp1 + 1, n, n + 1}
    modifies m
    ensures forall k :: 0 <= k < m.Length && k !in {tmp1, tmp1 + 1, n, n + 1} ==> m[k] == old(m[k])
    ensures Value(m, n) == (if old(m[sign]) != 0 then -old(Value(m, tmp1)) else old(Value(m, tmp1))) % B64
  {
    if m[sign] != 0 {
      Neg(m, tmp1);
    }
    Copy(m, n, tmp1);
  }

  lemma SmallPattern(q: int)
    requires 0 <= q < B64
    ensures q % B64 == q
  {
  }

  lemma RemainderPattern(n: int, q: int, d: int)
    requires 0 <= n < B64
    ensures (n - ((q % B64) * d) % B64) % B64 == (n - q * d) % B64
  {
    DivBounds(q, B64);
    var x := (q % B64) * d;
    DivBounds(x, B64);
    assert q * d == ((q / B64) * B64) * d + x;
    assert ((q / B64) * B64) * d == ((q / B64) * d) * B64;
    ModShift(n - q * d, (q / B64) * d + x / B64);
  }

  lemma ModShift(x: int, k: int)
    ensures (x + k * B64) % B64 == x % B64
  {
    DivBounds(x, B64);
    DivUnique(x + k * B64, B64, x / B64 + k);
    DivBounds(x + k * B64, B64);
  }

  /** i64_umod: n - (n / d) * d. */
  method Umod(m: array<Word>, n: int, d: int, fp: int) returns (ok: bool)
    requires Frame(m, n, d, fp, 24)
    modifies m
    ensures OnlyResult(m, n, fp, 24)
    ensures ok <==> old(Value(m, d)) != 0
    ensures ok ==> Value(m, n) == old(Value(m, n)) % old(Value(m, d))
  {
    ghost var N, D := Value(m, n), Value(m, d);
    var tmp := fp - 4;
    m[fp - 1], m[fp - 2] := 4 * n, 4 * d;
    Copy(m, tmp, n);
    ok := Udiv(m, tmp, d, fp - 8);
    if !ok { return; }
    SmallPattern(Value(m, tmp));
    SubtractProduct(m, n, d, tmp, Value(m, tmp));
    UnsignedRemainder(N, D);
  }

  /** @tmp d i64_mul ; n @tmp i64_sub ;  where tmp holds the quotient q. */
  method SubtractProduct(m: array<Word>, n: int, d: int, tmp: int, ghost q: int)
    requires Slot(m, n) && Slot(m, d) && Slot(m, tmp)
    requires Disjoint(tmp, n) && Disjoint(tmp, d) && Value(m, tmp) == q % B64
    modifies m
    ensures forall k :: 0 <= k < m.Length && k !in {tmp, tmp + 1, n, n + 1} ==> m[k] == old(m[k])
    ensures Value(m, n) == (old(Value(m, n)) - q * old(Value(m, d))) % B64
  {
    RemainderPattern(Value(m, n), q, Value(m, d));
    Mul(m, tmp, d);
    Sub(m, n, tmp);
  }

  lemma UnsignedRemainder(n: int, d: int)
    requires 0 <= n < B64 && 0 < d < B64
    ensures (n - (n / d) * d) % B64 == n % d
  {
    DivBounds(n, d);
  }

  /** i64_smod: n - (n / d) * d with the signed quotient. */
  method Smod(m: array<Word>, n: int, d: int, fp: int) returns (ok: bool)
    requires Frame(m, n, d, fp, 35)
    modifies m
    ensures OnlyResult(m, n, fp, 35)
    ensures ok <==> old(Value(m, d)) != 0
    ensures ok ==> var a, b := Signed(old(Value(m, n))), Signed(old(Value(m, d)));
                   Signed(Value(m, n)) == a - TruncDiv(a, b) * b
  {
    ghost var N, D := Value(m, n), Value(m, d);
    var tmp := fp - 4;
    m[fp - 1], m[fp - 2] := 4 * n, 4 * d;
    Copy(m, tmp, n);
    ok := Sdiv(m, tmp, d, fp - 8);
    if !ok { return; }
    SubtractProduct(m, n, d, tmp, TruncDiv(Signed(N), Signed(D)));
    SignedRemainder(N, D);
  }

  lemma SignedRemainder(n: int, d: int)
    requires 0 <= n < B64 && 0 < d < B64
    ensures var q := TruncDiv(Signed(n), Signed(d));
            Signed((n - q * d) % B64) == Signed(n) - q * Signed(d)
  {
    var a, b := Signed(n), Signed(d);
    var q := TruncDiv(a, b);
    TruncDivMeaning(a, b);
    var ka, kb := if n < B63 then 0 else 1, if d < B63 then 0 else 1;
    PatternsDiffer(n, a, ka, d, b, kb, q);
    ModShift(a - q * b, ka - q * kb);
    SignedOfPattern(a - q * b);
  }

  lemma PatternsDiffer(n: int, a: int, ka: int, d: int, b: int, kb: int, q: int)
    requires n == a + ka * B64 && d == b + kb * B64
    ensures n - q * d == (a - q * b) + (ka - q * kb) * B64
  {
    assert q * d == q * b + q * (kb * B64);
    Regroup(q, kb, B64);
  }

  lemma SignedOfPattern(r: int)
    requires -B63 <= r < B63
    ensures Signed(r % B64) == r
  {
    ModShift(r, 1);
  }

  // ----- the text as shipped -----

  /** The 64-bit number that lines 133 and 134 leave in tmp2, as shipped.  `@n` is the address of the
      local variable n, so the copy takes the pointer p and the saved frame pointer above it; and tmp2
      shares a cell with tmp1, whose low dword the copy overwrites with that frame pointer. */
  function Leftover(p: int, ebp: int, product: int): int {
    (p + B32 * ebp - (ebp + B32 * (product / B32))) % B64
  }

  method CorrectQuotientShipped(m: array<Word>, n: int, d: int, fp: int, ghost e: int, ghost product: int)
    requires Frame(m, n, d, fp, 16) && m[fp - 1] == 4 * n
    requires m[fp - 11] == 1 && m[fp - 10] == 0
    requires 1 <= e <= B32 && Value(m, fp - 16) == e - 1
    requires Value(m, fp - 8) == product
    modifies m
    ensures OnlyResult(m, n, fp, 16)
    ensures Value(m, n) == if Leftover(4 * n, old(m[fp]), product) < old(Value(m, d)) then e - 1 else e
  {
    CompareLeftover(m, d, fp, 4 * n, product);
    AddAndStore(m, n, fp - 9, fp - 11, fp - 16, e);
  }

  method CompareLeftover(m: array<Word>, d: int, fp: int, ghost p: int, ghost product: int)
    requires 16 <= fp < m.Length && Slot(m, d) && (d + 1 < fp - 16 || fp < d)
    requires m[fp - 1] == p && Value(m, fp - 8) == product
    modifies m
    ensures forall k :: 0 <= k < m.Length && k != fp - 9 && k != fp - 8 ==> m[k] == old(m[k])
    ensures m[fp - 9] == if Leftover(p, old(m[fp]), product) < old(Value(m, d)) then 1 else 0
  {
    hide Leftover;
    TakeLeftover(m, fp, p, product);
    Ul(m, fp - 9, d);
  }

  /** @tmp2 @n i64_copy ; @tmp2 @tmp1 i64_sub ; */
  method TakeLeftover(m: array<Word>, fp: int, ghost p: int, ghost product: int)
    requires 16 <= fp < m.Length && m[fp - 1] == p && Value(m, fp - 8) == product
    modifies m
    ensures OnlyChanged(m, fp - 9) && Value(m, fp - 9) == Leftover(p, old(m[fp]), product)
  {
    HighWord(m[fp - 8], m[fp - 7]);
    var tmp1, tmp2 := fp - 8, fp - 9;
    Copy(m, tmp2, fp - 1);
    Sub(m, tmp2, tmp1);
  }

  /** What the shipped i64_udiv computes, from the operands, the address of n and the saved ebp. */
  function ShippedQuotient(n: int, d: int, p: int, ebp: int): int
    requires 0 <= n < B64 && 0 < d < B64
  {
    if d < B32 || n < d then n / d
    else
      var e := Estimate(n, d);
      if Leftover(p, ebp, (e - 1) * d) < d then e - 1 else e
  }

  method UdivLargeShipped(m: array<Word>, n: int, d: int, fp: int)
    requires Frame(m, n, d, fp, 16) && B32 <= Value(m, d) && m[fp - 1] == 4 * n
    modifies m
    ensures OnlyResult(m, n, fp, 16)
    ensures Value(m, n) == ShippedQuotient(old(Value(m, n)), old(Value(m, d)), 4 * n, old(m[fp]))
  {
    hide Estimate, Leftover;
    ghost var N, D := Value(m, n), Value(m, d);
    var cmp := fp - 4;
    Copy(m, cmp, n);
    Ul(m, cmp, d);
    if m[cmp] != 0 {
      FromU32(m, n, 0);
      DivUnique(N, D, 0);
    } else {
      EstimateQuotient(m, n, d, fp, fp - 11);
      RemainderDecides(N, D);
      CorrectQuotientShipped(m, n, d, fp, Estimate(N, D), (Estimate(N, D) - 1) * D);
    }
  }

  /** i64_udiv exactly as shipped. */
  method UdivShipped(m: array<Word>, n: int, d: int, fp: int) returns (ok: bool)
    requires Frame(m, n, d, fp, 16)
    modifies m
    ensures OnlyResult(m, n, fp, 16)
    ensures ok <==> old(Value(m, d)) != 0
    ensures ok ==> Value(m, n) == ShippedQuotient(old(Value(m, n)), old(Value(m, d)), 4 * n, old(m[fp]))
  {
    hide Estimate, Leftover;
    m[fp - 1] := 4 * n;
    m[fp - 2] := 4 * d;
    assert Value(m, n) == old(Value(m, n)) && Value(m, d) == old(Value(m, d));
    if m[d] == 0 && m[d + 1] == 0 {
      return false;
    }
    if m[d + 1] == 0 {
      UdivSmall(m, n, d);
    } else {
      UdivLargeShipped(m, n, d, fp);
    }
    return true;
  }

  /** The divisor has 32 bits, or exceeds n, or the leftover compares with d the way the remainder of the
      estimate would. */
  predicate ComparesRight(n: int, d: int, p: int, ebp: int)
    requires 0 <= n < B64 && 0 < d < B64
  {
    d < B32 || n < d || (Leftover(p, ebp, (Estimate(n, d) - 1) * d) < d <==> n < Estimate(n, d) * d)
  }

  /** The shipped quotient is right exactly then. */
  lemma ShippedExactIff(n: int, d: int, p: int, ebp: int)
    requires 0 <= n < B64 && 0 < d < B64
    ensures ShippedQuotient(n, d, p, ebp) == n / d <==> ComparesRight(n, d, p, ebp)
  {
    if B32 <= d <= n {
      RemainderDecides(n, d);
    }
  }

  /** When it is wrong it is wrong by one. */
  lemma ShippedOffByOne(n: int, d: int, p: int, ebp: int)
    requires 0 <= n < B64 && 0 < d < B64
    ensures n / d - 1 <= ShippedQuotient(n, d, p, ebp) <= n / d + 1
  {
    if B32 <= d <= n {
      EstimateBound(n, d);
    }
  }

  /** 2^63 / 2^63 comes out as zero whenever the stack lies below 2^31. */
  lemma ShippedWrong(p: int, ebp: int)
    requires 0 <= p < B32 && 0 < ebp < 0x8000_0000
    ensures ShippedQuotient(B63, B63, p, ebp) == 0 && B63 / B63 == 1
  {
    EstimateBound(B63, B63);
    RemainderDecides(B63, B63);
    var e := Estimate(B63, B63);
    assert B63 / B32 == 0x8000_0000 && Nlz(0x8000_0000) == 0;
    assert TopWord(B63) == 0x8000_0000 && Pow2(0) == 1;
    Pow2Values();
    assert e == 1;
    assert Leftover(p, ebp, 0) == p + B32 * ebp - ebp;
  }

  // ----- the routines above it, as shipped -----

  /** The quotient of the shipped i64_sdiv.  It hands its own locals to i64_udiv, so that what line 133
      copies there is known: the address of tmp1 and the frame pointer of i64_sdiv. */
  function ShippedSigned(a: int, b: int, fp: int): int
    requires -B63 <= a < B63 && -B63 <= b < B63 && b != 0
  {
    var q := ShippedQuotient(Abs(a), Abs(b), 4 * (fp - 5), 4 * fp);
    if (a < 0) != (b < 0) then -q else q
  }

  /** i64_sdiv exactly as shipped. */
  method SdivShipped(m: array<Word>, n: int, d: int, fp: int) returns (ok: bool)
    requires Frame(m, n, d, fp, 27)
    modifies m
    ensures OnlyResult(m, n, fp, 27)
    ensures ok <==> old(Value(m, d)) != 0
    ensures ok ==> Signed(old(Value(m, d))) != 0
                   && Value(m, n) == ShippedSigned(Signed(old(Value(m, n))), Signed(old(Value(m, d))), fp) % B64
    ensures !ok ==> Value(m, n) == old(Value(m, n))
  {
    hide ShippedQuotient, Signed, Abs;
    var tmp1 := fp - 5;
    m[fp - 1], m[fp - 2], m[fp - 3] := 4 * n, 4 * d, 0;
    ok := DivideMagnitudesShipped(m, n, d, fp);
    if !ok { return; }
    JoinResult(m, n, tmp1, fp - 3);
  }

  /** The frame of i64_udiv begins with the frame pointer of i64_sdiv, which it saves. */
  method DivideMagnitudesShipped(m: array<Word>, n: int, d: int, fp: int) returns (ok: bool)
    requires Frame(m, n, d, fp, 27) && m[fp - 3] == 0
    modifies m
    ensures forall k :: 0 <= k < m.Length && !(fp - 27 <= k < fp - 2) ==> m[k] == old(m[k])
    ensures ok <==> old(Value(m, d)) != 0
    ensures ok ==> var a, b := Signed(old(Value(m, n))), Signed(old(Value(m, d)));
                   && b != 0 && Value(m, fp - 5) == ShippedQuotient(Abs(a), Abs(b), 4 * (fp - 5), 4 * fp)
                   && m[fp - 3] == if (a < 0) != (b < 0) then 1 else 0
  {
    hide Signed, ShippedQuotient;
    var tmp1, tmp2 := fp - 5, fp - 7;
    SignedZero(Value(m, d));
    SplitOperand(m, tmp1, n, fp - 3);
    SplitOperand(m, tmp2, d, fp - 3);
    m[fp - 11] := 4 * fp;
    ok := UdivShipped(m, tmp1, tmp2, fp - 11);
  }

  lemma NearPatterns(x: int, y: int)
    requires -1 <= x - y <= 1
    ensures x % B64 == y % B64 <==> x == y
  {
    DivBounds(x, B64);
    DivBounds(y, B64);
  }

  /** The shipped i64_sdiv truncates toward zero if and only if its i64_udiv compares right. */
  lemma SdivShippedExactIff(a: int, b: int, fp: int)
    requires -B63 <= a < B63 && -B63 <= b < B63 && b != 0
    ensures ShippedSigned(a, b, fp) % B64 == TruncDiv(a, b) % B64
       <==> ComparesRight(Abs(a), Abs(b), 4 * (fp - 5), 4 * fp)
  {
    hide ShippedQuotient, ComparesRight;
    ShippedExactIff(Abs(a), Abs(b), 4 * (fp - 5), 4 * fp);
    ShippedOffByOne(Abs(a), Abs(b), 4 * (fp - 5), 4 * fp);
    NearPatterns(ShippedSigned(a, b, fp), TruncDiv(a, b));
  }

  /** i64_umod exactly as shipped: what i64_udiv copies there is the address of tmp and this frame
      pointer. */
  method UmodShipped(m: array<Word>, n: int, d: int, fp: int) returns (ok: bool)
    requires Frame(m, n, d, fp, 24)
    modifies m
    ensures OnlyResult(m, n, fp, 24)
    ensures ok <==> old(Value(m, d)) != 0
    ensures ok ==> var N, D := old(Value(m, n)), old(Value(m, d));
                   Value(m, n) == (N - ShippedQuotient(N, D, 4 * (fp - 4), 4 * fp) * D) % B64
  {
    hide ShippedQuotient;
    ghost var N, D := Value(m, n), Value(m, d);
    var tmp := fp - 4;
    m[fp - 1], m[fp - 2] := 4 * n, 4 * d;
    Copy(m, tmp, n);
    m[fp - 8] := 4 * fp;
    ok := UdivShipped(m, tmp, d, fp - 8);
    if !ok { return; }
    SmallPattern(Value(m, tmp));
    SubtractProduct(m, n, d, tmp, Value(m, tmp));
  }

  /** x and y are as far apart as a whole number of divisors, at most one. */
  lemma WrongRemainder(n: int, q: int, q0: int, d: int)
    requires -1 <= q - q0 <= 1 && d != 0 && -B64 < d < B64
    ensures (n - q * d) % B64 == (n - q0 * d) % B64 <==> q == q0
  {
    var x, y := n - q * d, n - q0 * d;
    assert x - y == (q0 - q) * d;
    if q != q0 {
      assert x - y == d || x - y == -d;
      DivBounds(x, B64);
      DivBounds(y, B64);
    }
  }

  /** The shipped i64_umod leaves n mod d if and only if its i64_udiv compares right. */
  lemma UmodShippedExactIff(n: int, d: int, fp: int)
    requires 0 <= n < B64 && 0 < d < B64
    ensures (n - ShippedQuotient(n, d, 4 * (fp - 4), 4 * fp) * d) % B64 == n % d
       <==> ComparesRight(n, d, 4 * (fp - 4), 4 * fp)
  {
    hide ShippedQuotient, ComparesRight;
    ShippedExactIff(n, d, 4 * (fp - 4), 4 * fp);
    ShippedOffByOne(n, d, 4 * (fp - 4), 4 * fp);
    WrongRemainder(n, ShippedQuotient(n, d, 4 * (fp - 4), 4 * fp), n / d, d);
    UnsignedRemainder(n, d);
  }

  /** i64_smod exactly as shipped. */
  method SmodShipped(m: array<Word>, n: int, d: int, fp: int) returns (ok: bool)
    requires Frame(m, n, d, fp, 35)
    modifies m
    ensures OnlyResult(m, n, fp, 35)
    ensures ok <==> old(Value(m, d)) != 0
    ensures ok ==> var N, D := old(Value(m, n)), old(Value(m, d));
                   && Signed(D) != 0 && Value(m, n) == (N - ShippedSigned(Signed(N), Signed(D), fp - 8) * D) % B64
  {
    hide ShippedSigned, Signed;
    ghost var N, D := Value(m, n), Value(m, d);
    var tmp := fp - 4;
    m[fp - 1], m[fp - 2] := 4 * n, 4 * d;
    Copy(m, tmp, n);
    m[fp - 8] := 4 * fp;
    ok := SdivShipped(m, tmp, d, fp - 8);
    if !ok { return; }
    SubtractProduct(m, n, d, tmp, ShippedSigned(Signed(N), Signed(D), fp - 8));
  }

  /** The shipped i64_smod leaves the remainder of the truncating division if and only if its i64_udiv
      compares right. */
  lemma SmodShippedExactIff(n: int, d: int, fp: int)
    requires 0 <= n < B64 && 0 < d < B64
    ensures var a, b := Signed(n), Signed(d);
            b != 0 && (Signed((n - ShippedSigned(a, b, fp - 8) * d) % B64) == a - TruncDiv(a, b) * b
                       <==> ComparesRight(Abs(a), Abs(b), 4 * (fp - 13), 4 * (fp - 8)))
  {
    hide ShippedQuotient, ComparesRight;
    var a, b := Signed(n), Signed(d);
    var q, q0 := ShippedSigned(a, b, fp - 8), TruncDiv(a, b);
    SdivShippedExactIff(a, b, fp - 8);
    ShippedOffByOne(Abs(a), Abs(b), 4 * (fp - 13), 4 * (fp - 8));
    NearPatterns(q, q0);
    WrongRemainder(n, q, q0, d);
    SignedRemainder(n, d);
  }
}
