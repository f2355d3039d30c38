/** 64-bit integers as pairs of memory words, and the assembly routines on them
    (diskfs/int64/int64.asm).  Cell k of the memory is the dword at byte address 4 * k; the 64-bit
    number at p has its low dword in cell p and its high dword in cell p + 1. */
module Int64 {
  import opened Powers

  const B32: int := 0x1_0000_0000
  const B63: int := 0x8000_0000_0000_0000
  const B64: int := 0x1_0000_0000_0000_0000

  type Word = x: int | 0 <= x < 0x1_0000_0000

  predicate Slot(m: array<Word>, p: int) {
    0 <= p && p + 1 < m.Length
  }

  /** The unsigned value of the number at p. */
  function Value(m: array<Word>, p: int): (v: int)
    requires Slot(m, p)
    reads m
    ensures 0 <= v < B64
  {
    m[p] + B32 * m[p + 1]
  }

  predicate Disjoint(p: int, q: int) {
    p + 1 < q || q + 1 < p
  }

  twostate predicate OnlyChanged(m: array<Word>, p: int)
    reads m
  {
    forall k :: 0 <= k < m.Length && k != p && k != p + 1 ==> m[k] == old(m[k])
  }

  /** The signed value of a 64-bit pattern. */
  function Signed(v: int): (s: int)
    requires 0 <= v < B64
    ensures -B63 <= s < B63 && s % B64 == v
  {
    if v < B63 then v else v - B64
  }

  // ----- routines -----

  /** i64_copy: memcpy of eight bytes. */
  method Copy(m: array<Word>, to: int, from: int)
    requires Slot(m, to) && Slot(m, from) && (to == from || Disjoint(to, from))
    modifies m
    ensures OnlyChanged(m, to) && Value(m, to) == old(Value(m, from))
  {
    m[to] := m[from];
    m[to + 1] := m[from + 1];
  }

  method FromU32(m: array<Word>, to: int, x: Word)
    requires Slot(m, to)
    modifies m
    ensures OnlyChanged(m, to) && Value(m, to) == x && m[to] == x && m[to + 1] == 0
  {
    m[to], m[to + 1] := x, 0;
  }

  /** add, then adc. */
  method Add(m: array<Word>, to: int, from: int)
    requires Slot(m, to) && Slot(m, from)
    modifies m
    ensures OnlyChanged(m, to)
    ensures Value(m, to) == (old(Value(m, to)) + old(Value(m, from))) % B64
  {
    var ecx: int, edx: int := m[from], m[from + 1];
    var lo: int := m[to] as int + ecx;
    var carry := if lo < B32 then 0 else 1;
    m[to] := if lo < B32 then lo else lo - B32;
    var hi: int := m[to + 1] as int + edx + carry;
    m[to + 1] := hi % B32;
  }

  /** sub, then sbb.  The source is read before anything is written, so the operands may overlap. */
  method Sub(m: array<Word>, to: int, from: int)
    requires Slot(m, to) && Slot(m, from)
    modifies m
    ensures OnlyChanged(m, to)
    ensures Value(m, to) == (old(Value(m, to)) - old(Value(m, from))) % B64
  {
    var ecx: int, edx: int := m[from], m[from + 1];
    var lo: int := m[to] as int - ecx;
    var borrow := if lo >= 0 then 0 else 1;
    m[to] := if lo >= 0 then lo else lo + B32;
    var hi: int := m[to + 1] as int - edx - borrow;
    m[to + 1] := hi % B32;
  }

  lemma NegWords(lo: int, hi: int, carry: int)
    requires 0 <= lo < B32 && 0 <= hi < B32 && carry == if lo != 0 then 1 else 0
    ensures (-lo) % B32 + B32 * ((-((hi + carry) % B32)) % B32) == (-(lo + B32 * hi)) % B64
  {
    if hi + carry == B32 {
      DivUnique(-(lo + B32 * hi), B64, -1);
    } else if hi + carry == 0 {
    } else {
      DivUnique(-(lo + B32 * hi), B64, -1);
    }
  }

  /** neg of the low dword sets the carry unless it was zero; adc and neg of the high dword follow. */
  method Neg(m: array<Word>, to: int)
    requires Slot(m, to)
    modifies m
    ensures OnlyChanged(m, to) && Value(m, to) == (-old(Value(m, to))) % B64
  {
    var carry := if m[to] != 0 then 1 else 0;
    NegWords(m[to], m[to + 1], carry);
    m[to] := (-(m[to] as int)) % B32;
    m[to + 1] := (m[to + 1] as int + carry) % B32;
    m[to + 1] := (-(m[to + 1] as int)) % B32;
  }

  /** i64_ul: replace the number by one or zero. */
  method Ul(m: array<Word>, to: int, from: int)
    requires Slot(m, to) && Slot(m, from)
    modifies m
    ensures OnlyChanged(m, to)
    ensures m[to] == (if old(Value(m, to)) < old(Value(m, from)) then 1 else 0) && m[to + 1] == 0
  {
    var less;
    if m[to + 1] > m[from + 1] {
      less := false;
    } else if m[to + 1] < m[from + 1] {
      less := true;
    } else {
      less := m[to] < m[from];
    }
    m[to], m[to + 1] := if less then 1 else 0, 0;
  }

  lemma LimbProduct(a: int, b: int, c: int, d: int)
    requires 0 <= a < B32 && 0 <= b < B32 && 0 <= c < B32 && 0 <= d < B32
    ensures ((a + B32 * b) * (c + B32 * d)) % B64
         == (a * c) % B32 + B32 * (((a * c) / B32 + a * d + b * c) % B32)
  {
    var lo, carry := (a * c) % B32, (a * c) / B32;
    var g := carry + a * d + b * c;
    var hi, over := g % B32, g / B32;
    DivBounds(a * c, B32);
    DivBounds(g, B32);
    assert (a + B32 * b) * (c + B32 * d) == a * c + B32 * (a * d + b * c) + B64 * (b * d) by {
      assert (a + B32 * b) * (c + B32 * d) == a * (c + B32 * d) + (B32 * b) * (c + B32 * d);
      assert a * (c + B32 * d) == a * c + B32 * (a * d);
      assert (B32 * b) * (c + B32 * d) == B32 * (b * c) + B64 * (b * d);
    }
    assert (a + B32 * b) * (c + B32 * d) == lo + B32 * hi + B64 * (over + b * d);
    ModCancel(lo + B32 * hi, over + b * d);
  }

  lemma ModCancel(r: int, k: int)
    requires 0 <= r < B64
    ensures (r + B64 * k) % B64 == r
  {
    var x := r + B64 * k;
    assert x / B64 == k by { DivUnique(x, B64, k); }
  }

  /** mul of the low dwords, plus the low halves of the two cross products in the high dword. */
  method Mul(m: array<Word>, to: int, from: int)
    requires Slot(m, to) && Slot(m, from)
    modifies m
    ensures OnlyChanged(m, to)
    ensures Value(m, to) == (old(Value(m, to)) * old(Value(m, from))) % B64
  {
    var a, b, c, d := m[from], m[from + 1], m[to], m[to + 1];
    LimbProduct(a, b, c, d);
    var esi := (a * c) % B32;
    var edx := (a * c) / B32;
    DivBounds(a * c, B32);
    CrossSum(edx, a * d, b * c);
    var eax := (a * d) % B32;
    var ecx := (b * c) % B32;
    edx := (edx + eax) % B32;
    edx := (edx + ecx) % B32;
    m[to] := esi;
    m[to + 1] := edx;
    assert (a + B32 * b) * (c + B32 * d) == (c + B32 * d) * (a + B32 * b);
  }

  lemma CrossSum(x: int, y: int, z: int)
    ensures ((x + y % B32) % B32 + z % B32) % B32 == (x + y + z) % B32
  {
  }

  /** i64_udiv_64_by_32: the processor's 64-by-32 division, which traps unless the high dword is
      below the divisor; the high dword of the quotient is cleared. */
  method UdivByWord(m: array<Word>, to: int, divisor: Word)
    requires Slot(m, to) && m[to + 1] < divisor
    modifies m
    ensures OnlyChanged(m, to)
    ensures Value(m, to) == old(Value(m, to)) / divisor && m[to + 1] == 0
  {
    QuotientFits(m[to], m[to + 1], divisor);
    var q := Value(m, to) / divisor;
    m[to + 1] := 0;
    m[to] := q;
  }

  lemma QuotientFits(lo: int, hi: int, divisor: int)
    requires 0 <= lo < B32 && 0 <= hi < divisor
    ensures 0 <= (lo + B32 * hi) / divisor < B32
  {
    var v := lo + B32 * hi;
    DivNonNegative(v, divisor);
    MulLe(hi + 1, divisor, B32);
    DivLess(v, divisor, B32);
  }

  lemma Pow2Split(c: nat)
    requires c <= 32
    ensures Pow2(c) * Pow2(32 - c) == B32
  {
    Pow2Add(c, 32 - c);
    Pow2Values();
  }

  /** x * p keeps x / r in its high dword, when p * r is 2^32. */
  lemma WordTimes(x: int, p: int, r: int)
    requires p > 0 && r > 0 && p * r == B32
    ensures x * p == (x / r) * B32 + (x % r) * p
    ensures (x * p) % B32 == (x % r) * p && 0 <= (x % r) * p <= B32 - p
  {
    DivBounds(x, r);
    var t := x % r;
    assert x * p == ((x / r) * r + t) * p == (x / r) * (r * p) + t * p;
    MulLe(t, r - 1, p);
    assert (r - 1) * p == r * p - p;
    MulLe(0, t, p);
    DivUnique(x * p, B32, x / r);
    DivBounds(x * p, B32);
  }

  /** shld and shl of the two dwords. */
  lemma ShiftLeftPair(lo: int, hi: int, p: int, r: int)
    requires 0 <= lo < B32 && 0 <= hi < B32 && p > 0 && r > 0 && p * r == B32
    ensures ((lo + B32 * hi) * p) % B64 == (lo * p) % B32 + B32 * ((hi * p + lo / r) % B32)
  {
    WordTimes(lo, p, r);
    var g := hi * p + lo / r;
    DivBounds(g, B32);
    assert (lo + B32 * hi) * p == lo * p + B32 * (hi * p);
    ModCancel((lo * p) % B32 + B32 * (g % B32), g / B32);
  }

  /** The count by which i64_shl and i64_shr shift: the low byte of the operand; the processor takes it
      modulo 32, and from 32 on the routines move the dwords by one place more. */
  function ShiftCount(x: int): (c: nat)
    requires 0 <= x < B32
    ensures c <= 63 && (x < 64 ==> c == x)
  {
    var cl := x % 0x100;
    if cl < 32 then cl else 32 + cl % 32
  }

  /** A left shift by 32 places and c more. */
  lemma ShiftLeftFar(lo: int, hi: int, c: nat)
    ensures ((lo + B32 * hi) * Pow2(32 + c)) % B64 == B32 * ((lo * Pow2(c)) % B32)
  {
    hide Pow2;
    Pow2Add(32, c);
    Pow2Values();
    ShiftWhole(lo, hi, Pow2(c));
  }

  lemma ShiftWhole(lo: int, hi: int, p: int)
    ensures ((lo + B32 * hi) * (B32 * p)) % B64 == B32 * ((lo * p) % B32)
  {
    var x := lo * p;
    DivBounds(x, B32);
    assert (lo + B32 * hi) * (B32 * p) == x * B32 + B64 * (hi * p);
    ModCancel(B32 * (x % B32), x / B32 + hi * p);
  }

  /** i64_shl */
  method Shl(m: array<Word>, to: int, from: int)
    requires Slot(m, to) && Slot(m, from)
    modifies m
    ensures OnlyChanged(m, to)
    ensures Value(m, to) == (old(Value(m, to)) * Pow2(ShiftCount(old(m[from])))) % B64
  {
    hide Pow2, ShiftCount;
    var ebx, edx := m[to], m[to + 1];
    ebx, edx := ShiftLeft(ebx, edx, m[from]);
    m[to] := ebx;
    m[to + 1] := edx;
  }

  /** shld and shl, and from a count of 32 on the low dword moved to the high one. */
  method ShiftLeft(ebx: Word, edx: Word, ecx: Word) returns (ebx': Word, edx': Word)
    ensures ebx' + B32 * edx' == ((ebx + B32 * edx) * Pow2(ShiftCount(ecx))) % B64
  {
    hide Pow2;
    var cl := ecx % 0x100;
    var c := cl % 32;
    Pow2Split(c);
    edx', ebx' := LeftPair(edx, ebx, Pow2(c), Pow2(32 - c));
    if cl >= 32 {
      ShiftLeftFar(ebx, edx, c);
      edx' := ebx';
      ebx' := 0;
    }
  }

  /** shld edx, ebx, cl; shl ebx, cl: a shift by p, where p * r is 2^32. */
  method LeftPair(edx: Word, ebx: Word, p: int, r: int) returns (edx': Word, ebx': Word)
    requires p > 0 && r > 0 && p * r == B32
    ensures ebx' + B32 * edx' == ((ebx + B32 * edx) * p) % B64 && ebx' == (ebx * p) % B32
  {
    ShiftLeftPair(ebx, edx, p, r);
    edx' := (edx * p + ebx / r) % B32;
    ebx' := (ebx * p) % B32;
  }

  lemma ShiftRightPair(lo: int, hi: int, p: int, r: int)
    requires 0 <= lo < B32 && 0 <= hi < B32 && p > 0 && r > 0 && p * r == B32
    ensures 0 <= hi / p < B32
    ensures 0 <= lo / p + (hi * r) % B32 < B32
    ensures (lo + B32 * hi) / p == lo / p + (hi * r) % B32 + B32 * (hi / p)
  {
    WordTimes(hi, r, p);
    DivNonNegative(hi, p);
    DivNonNegative(lo, p);
    DivLess(lo, p, r);
    DivBounds(lo, p);
    DivBounds(hi, p);
    var u := hi % p;
    var q := lo / p + u * r + B32 * (hi / p);
    assert q * p == (lo / p) * p + (u * r) * p + (B32 * (hi / p)) * p;
    assert (u * r) * p == u * (p * r);
    assert (B32 * (hi / p)) * p == B32 * ((hi / p) * p);
    assert q * p == (lo / p) * p + B32 * hi;
    DivUnique(lo + B32 * hi, p, q);
  }

  /** A right shift by 32 places and c more. */
  lemma ShiftRightFar(lo: int, hi: int, c: nat)
    requires 0 <= lo < B32 && 0 <= hi < B32
    ensures (lo + B32 * hi) / Pow2(32 + c) == hi / Pow2(c)
  {
    hide Pow2;
    Pow2Add(32, c);
    Pow2Values();
    DivDiv(lo + B32 * hi, B32, Pow2(c));
    DivUnique(lo + B32 * hi, B32, hi);
  }

  /** i64_shr */
  method Shr(m: array<Word>, to: int, from: int)
    requires Slot(m, to) && Slot(m, from)
    modifies m
    ensures OnlyChanged(m, to)
    ensures Value(m, to) == old(Value(m, to)) / Pow2(ShiftCount(old(m[from])))
  {
    hide Pow2, ShiftCount;
    var ebx, edx := m[to], m[to + 1];
    ebx, edx := ShiftRight(ebx, edx, m[from]);
    m[to] := ebx;
    m[to + 1] := edx;
  }

  /** shrd and shr, and from a count of 32 on the high dword moved to the low one. */
  method ShiftRight(ebx: Word, edx: Word, ecx: Word) returns (ebx': Word, edx': Word)
    ensures ebx' + B32 * edx' == (ebx + B32 * edx) / Pow2(ShiftCount(ecx))
  {
    hide Pow2;
    var cl := ecx % 0x100;
    var c := cl % 32;
    Pow2Split(c);
    ebx', edx' := RightPair(ebx, edx, Pow2(c), Pow2(32 - c));
    if cl >= 32 {
      ShiftRightFar(ebx, edx, c);
      ebx' := edx';
      edx' := 0;
    }
  }

  /** shrd ebx, edx, cl; shr edx, cl: a shift by p, where p * r is 2^32. */
  method RightPair(ebx: Word, edx: Word, p: int, r: int) returns (ebx': Word, edx': Word)
    requires p > 0 && r > 0 && p * r == B32
    ensures ebx' + B32 * edx' == (ebx + B32 * edx) / p && edx' == edx / p
  {
    ShiftRightPair(ebx, edx, p, r);
    DivNonNegative(ebx, p);
    ebx' := ebx / p + (edx * r) % B32;
    edx' := edx / p;
  }
}
