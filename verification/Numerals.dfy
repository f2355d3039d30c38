/** Numbers written in any base from 2 to 36 with the digits of the table, and read by diskfs/stdlib/_strtox.h. */
module Numerals {
  import opened Options
  import opened Powers
  import opened Strtox
  import opened Printf

  /** The character of the table for d. */
  function Symbol(d: nat): (c: Ch)
    requires d < 36
    ensures Digit(c) == d && !IsSpace(c) && c != PLUS && c != MINUS && (c == ZERO <==> d == 0)
  {
    TableAt(d);
    DIGITS[d] as int
  }

  /** v in that base, the most significant digit first. */
  function Numeral(v: nat, base: nat): (t: Text)
    requires 2 <= base <= 36
    ensures t != []
  {
    DivShrinks(v, base);
    if v < base then [Symbol(v)] else Numeral(v / base, base) + [Symbol(v % base)]
  }

  /** No character of it is blank or a sign. */
  predicate Plain(t: Text) {
    forall i :: 0 <= i < |t| ==> !IsSpace(t[i]) && t[i] != PLUS && t[i] != MINUS
  }

  lemma OneMoreDigit(front: Text, c: Ch, base: nat)
    requires AllDigits(front, base) && Plain(front) && IsDigit(c, base) && Plain([c])
    ensures var t := front + [c];
            AllDigits(t, base) && Plain(t) && ValueOf(t, 0, |t|, base) == ValueOf(front, 0, |front|, base) * base + Digit(c)
  {
    hide IsSpace, Digit;
    ValueInside([], front, [c], |front|, base);
    assert [] + front + [c] == front + [c];
    assert [c][0] == c;
  }

  lemma SymbolPlain(d: nat)
    requires d < 36
    ensures Plain([Symbol(d)]) && Digit(Symbol(d)) == d
  {
  }

  lemma {:induction false} NumeralValue(v: nat, base: nat)
    requires 2 <= base <= 36
    ensures var t := Numeral(v, base); AllDigits(t, base) && Plain(t) && ValueOf(t, 0, |t|, base) == v
    decreases v
  {
    hide IsSpace, Digit, ValueOf, AllDigits, Plain, Symbol;
    DivShrinks(v, base);
    DivBounds(v, base);
    if v < base {
      SymbolPlain(v);
      NoDigits(base);
      OneMoreDigit([], Symbol(v), base);
      assert [] + [Symbol(v)] == [Symbol(v)];
    } else {
      NumeralValue(v / base, base);
      SymbolPlain(v % base);
      OneMoreDigit(Numeral(v / base, base), Symbol(v % base), base);
    }
  }

  lemma NoDigits(base: nat)
    ensures AllDigits([], base) && Plain([]) && ValueOf([], 0, 0, base) == 0
  {
  }

  function Signed(v: nat, negative: bool): int {
    if negative then 0 - v as int else v as int
  }

  /** The numeral, behind a minus sign or none. */
  function Spelling(v: nat, negative: bool, base: nat): Text
    requires 2 <= base <= 36
  {
    (if negative then [MINUS] else []) + Numeral(v, base)
  }

  /** Read in its base, a numeral gives its number, and nothing of it is left. */
  lemma NumeralReads(v: nat, negative: bool, base: nat)
    requires 2 <= base <= 36
    ensures Spelled(Spelling(v, negative, base), base) == Signed(v, negative)
    ensures EndOf(Spelling(v, negative, base), base) == |Spelling(v, negative, base)|
    ensures Read(Spelling(v, negative, base), base).base == base
  {
    hide ValueOf, Digit, IsSpace, Numeral;
    var pre: Text, m := if negative then [MINUS] else [], Numeral(v, base);
    var s := pre + m;
    NumeralValue(v, base);
    SignIsPlain();
    SkipsTo(s, 0, 0);
    StartOf(s, m, base);
    assert pre + m + [] == s;
    ReadsNumber(pre, m, [], 0, |pre|, base, base);
    RunsTo(s, |pre|, |s|, base);
  }

  lemma SignIsPlain()
    ensures !IsSpace(MINUS) && MINUS != PLUS && Digit('x' as int) == Digit('X' as int) == 33
  {
  }

  /** The digits start at once: what could be a prefix is none. */
  lemma StartOf(s: Text, m: Text, base: nat)
    requires 2 <= base <= 36 && m != [] && AllDigits(m, base) && Plain(m) && (s == [] + m || s == [MINUS] + m)
    ensures AfterSign(s, 0) == |s| - |m| && BaseAt(s, |s| - |m|, base) == (base, |s| - |m|)
    ensures (At(s, 0) == MINUS <==> s == [MINUS] + m) && !IsSpace(At(s, 0))
  {
    hide Digit, IsSpace;
    SignIsPlain();
    var q := |s| - |m|;
    assert s[q] == m[0];
    if |m| > 1 {
      assert s[q + 1] == m[1];
    }
  }

  /** strtol and strtoll give every number of their type back, from any base. */
  lemma NumeralRoundTrip(v: nat, negative: bool, base: nat, bits: nat)
    requires 2 <= base <= 36 && Width(bits) && -Half(bits) <= Signed(v, negative) < Half(bits)
    ensures Clamp(Spelled(Spelling(v, negative, base), base), -Half(bits), Half(bits) - 1) == Signed(v, negative)
  {
    hide Spelled, EndOf, Read, Half;
    NumeralReads(v, negative, base);
  }
}
