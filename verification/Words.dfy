/** Arithmetic on machine words: two's complement, and division as C has it. */
module Words {
  import opened Powers

  /** The signed number that the low `bits` bits of x stand for. */
  function SignedBits(x: int, bits: nat): int
    requires bits > 0
  {
    var r := x % Pow2(bits);
    if r < Pow2(bits - 1) then r else r - Pow2(bits)
  }

  /** The signed number in a 32-bit word. */
  function Signed32(x: int): int {
    if x % 0x1_0000_0000 < 0x8000_0000 then x % 0x1_0000_0000 else x % 0x1_0000_0000 - 0x1_0000_0000
  }

  function Abs(x: int): nat {
    if x < 0 then -x else x
  }

  /** Division truncating toward zero (section 6.5.5 of ISO/IEC 9899:2011). */
  function TruncDiv(a: int, b: int): int
    requires b != 0
  {
    if (a < 0) == (b < 0) then Abs(a) / Abs(b) else -(Abs(a) / Abs(b))
  }

  /** What truncation means: the remainder is smaller than b and zero or of a's sign. */
  lemma TruncDivMeaning(a: int, b: int)
    requires b != 0
    ensures var r := a - TruncDiv(a, b) * b;
            && Abs(r) < Abs(b)
            && (r == 0 || (r < 0) == (a < 0))
            && Abs(TruncDiv(a, b)) <= Abs(a)
  {
    var q := Abs(a) / Abs(b);
    DivBounds(Abs(a), Abs(b));
    DivNonNegative(Abs(a), Abs(b));
    assert TruncDiv(a, b) * b == if a < 0 then -(q * Abs(b)) else q * Abs(b) by {
      SignedProduct(q, b);
    }
  }

  lemma SignedProduct(q: int, b: int)
    ensures (-q) * b == -(q * b) && q * (-b) == -(q * b) && (-q) * (-b) == q * b
  {
  }
}
