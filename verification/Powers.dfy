/** Powers of two, and what the shifts and normalisations below need of them. */
module Powers {

  function Pow2(n: nat): (r: nat)
    ensures r >= 1
  {
    if n == 0 then 1 else 2 * Pow2(n - 1)
  }

  lemma {:induction false} Pow2Add(m: nat, n: nat)
    ensures Pow2(m + n) == Pow2(m) * Pow2(n)
    decreases m
  {
    if m > 0 {
      Pow2Add(m - 1, n);
      assert Pow2(m + n) == 2 * Pow2(m + n - 1);
    }
  }

  lemma {:induction false} Pow2Monotone(m: nat, n: nat)
    requires m <= n
    ensures Pow2(m) <= Pow2(n)
    decreases n
  {
    if m < n {
      Pow2Monotone(m, n - 1);
    }
  }

  lemma Pow2Values()
    ensures Pow2(1) == 2 && Pow2(2) == 4 && Pow2(4) == 16 && Pow2(8) == 256 && Pow2(16) == 0x1_0000
    ensures Pow2(31) == 0x8000_0000 && Pow2(32) == 0x1_0000_0000
  {
    assert Pow2(4) == 16 && Pow2(8) == 256 && Pow2(12) == 4096 && Pow2(16) == 0x1_0000;
    assert Pow2(20) == 0x10_0000 && Pow2(24) == 0x100_0000 && Pow2(28) == 0x1000_0000;
  }

  lemma MulLe(x: int, y: int, z: int)
    requires x <= y && z >= 0
    ensures x * z <= y * z
  {
  }

  lemma MulCancelLt(x: int, y: int, b: int)
    requires b > 0 && x * b < y * b
    ensures x < y
  {
    if x >= y {
      MulLe(y, x, b);
      assert false;
    }
  }

  lemma DivUnique(a: int, b: int, q: int)
    requires b > 0 && q * b <= a < q * b + b
    ensures a / b == q
  {
    var q' := a / b;
    DivBounds(a, b);
    assert (q + 1) * b == q * b + b && (q' + 1) * b == q' * b + b;
    MulCancelLt(q', q + 1, b);
    MulCancelLt(q, q' + 1, b);
  }

  lemma DivBounds(a: int, b: int)
    requires b > 0
    ensures (a / b) * b <= a < (a / b) * b + b
    ensures a - (a / b) * b == a % b
  {
  }

  /** Dividing twice is dividing by the product. */
  lemma DivDiv(a: int, b: int, c: int)
    requires a >= 0 && b > 0 && c > 0
    ensures b * c > 0 && a / b / c == a / (b * c)
  {
    var q := a / b / c;
    DivBounds(a, b);
    DivBounds(a / b, c);
    assert q * c <= a / b <= q * c + c - 1;
    MulLe(q * c, a / b, b);
    MulLe(a / b, q * c + c - 1, b);
    assert (q * c) * b == q * (b * c);
    assert (q * c + c - 1) * b + b == q * (b * c) + b * c;
    assert b * c > 0;
    DivUnique(a, b * c, q);
  }

  lemma DivMonotone(a: int, b: int, c: int)
    requires a >= 0 && 0 < b <= c
    ensures 0 <= a / c <= a / b
  {
    var x, y := a / c, a / b;
    DivBounds(a, b);
    DivBounds(a, c);
    DivNonNegative(a, c);
    MulLe(b, c, x);
    assert x * b == b * x && x * c == c * x && (y + 1) * b == y * b + b;
    MulCancelLt(x, y + 1, b);
  }

  lemma DivNonNegative(a: int, b: int)
    requires a >= 0 && b > 0
    ensures 0 <= a / b <= a
  {
    DivBounds(a, b);
    assert (a / b + 1) * b == (a / b) * b + b;
    MulCancelLt(0, a / b + 1, b);
    MulLe(1, b, a / b);
    assert (a / b) * b == b * (a / b);
  }

  lemma DivLess(a: int, b: int, c: int)
    requires a >= 0 && b > 0 && a < c * b
    ensures a / b < c
  {
    DivBounds(a, b);
    MulCancelLt(a / b, c, b);
  }
}
