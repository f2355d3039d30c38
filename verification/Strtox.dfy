/** Reading numbers: diskfs/stdlib/_strtox.h.  A C string is a sequence of characters with a zero after it. */
module Strtox {
  import opened Options
  import opened Powers
  import opened Words

  type Ch = c: int | 0 <= c < 256

  type Text = seq<Ch>

  /** The character at i; behind the end stands the terminator. */
  function At(s: Text, i: nat): Ch {
    if i < |s| then s[i] else 0
  }

  predicate IsSpace(c: int) {
    9 <= c <= 13 || c == 32
  }

  function ToLower(c: int): int {
    if 'A' as int <= c <= 'Z' as int then c + 32 else c
  }

  /** The place of a character in _digits, case ignored; 36 if it is not there. */
  function Digit(c: int): (d: nat)
    ensures d <= 36
  {
    var l := ToLower(c);
    if '0' as int <= l <= '9' as int then l - '0' as int
    else if 'a' as int <= l <= 'z' as int then l - 'a' as int + 10
    else 36
  }

  /** _digits of diskfs/stdlib/_digits.h */
  const DIGITS: string := "0123456789abcdefghijklmnopqrstuvwxyz"

  lemma TableAt(d: nat)
    requires d < 36
    ensures DIGITS[d] as int == if d < 10 then '0' as int + d else 'a' as int + d - 10
  {
    assert |DIGITS| == 36;
  }

  /** Digit inverts the table: it finds the place of a character, and only of those that are there. */
  lemma DigitInverse(c: int, d: nat)
    requires d < 36
    ensures Digit(c) == d <==> DIGITS[d] as int == ToLower(c)
  {
    TableAt(d);
  }

  /** memchr(_digits, tolower(c), base) != NULL */
  predicate IsDigit(c: int, base: int) {
    Digit(c) < base
  }

  const PLUS := '+' as int
  const MINUS := '-' as int
  const ZERO := '0' as int

  // ----- what the input says, with no limit on numbers -----

  /** The end of the longest run of digits from p on. */
  function RunEnd(s: Text, p: nat, base: int): (e: nat)
    requires p <= |s|
    ensures p <= e <= |s|
    ensures (forall i :: p <= i < e ==> IsDigit(s[i], base)) && (e < |s| ==> !IsDigit(s[e], base))
    decreases |s| - p
  {
    if p < |s| && IsDigit(s[p], base) then RunEnd(s, p + 1, base) else p
  }

  /** The number that s[p..e] spells. */
  function ValueOf(s: Text, p: nat, e: nat, base: nat): (v: nat)
    requires p <= e <= |s|
    decreases e - p
  {
    if e == p then 0 else ValueOf(s, p, e - 1, base) * base + Digit(s[e - 1])
  }

  function SkipSpaces(s: Text, p: nat): (r: nat)
    requires p <= |s|
    ensures p <= r <= |s| && (forall i :: p <= i < r ==> IsSpace(s[i])) && (r < |s| ==> !IsSpace(s[r]))
    decreases |s| - p
  {
    if p < |s| && IsSpace(s[p]) then SkipSpaces(s, p + 1) else p
  }

  function AfterSign(s: Text, p: nat): nat {
    if At(s, p) == PLUS || At(s, p) == MINUS then p + 1 else p
  }

  /** The base that a number at p is in, and where its digits start: 0x, and 0 for octal, count only
      when the base asked for leaves room for them, and 0x only when a digit follows. */
  function BaseAt(s: Text, p: nat, base: int): (r: (int, nat)) {
    if At(s, p) == ZERO then
      if (base == 0 || base == 16) && (At(s, p + 1) == 'x' as int || At(s, p + 1) == 'X' as int) then
        (16, if IsDigit(At(s, p + 2), 16) then p + 2 else p)
      else ((if base == 0 then 8 else base), p)
    else ((if base == 0 then 10 else base), p)
  }

  /** A number as the standard describes it: sign, base, and the run of digits. */
  datatype Reading = Reading(negative: bool, base: int, from: nat, to: nat)

  function Read(s: Text, base: int): (r: Reading)
    ensures r.from <= |s| && r.from <= r.to <= |s|
  {
    var p := SkipSpaces(s, 0);
    var q := AfterSign(s, p);
    var (b, from) := BaseAt(s, q, base);
    StartsInside(s, p, q, base);
    Reading(At(s, p) == MINUS, b, from, RunEnd(s, from, b))
  }

  lemma StartsInside(s: Text, p: nat, q: nat, base: int)
    requires p <= |s| && q == AfterSign(s, p)
    ensures q <= |s| && BaseAt(s, q, base).1 <= |s|
  {
  }

  // ----- the code -----

  /** _strtox_prelim; p is where the digits start, and valid is false for the null pointer. */
  method Prelim(s: Text, base0: int) returns (p: nat, sign: Ch, base: int, valid: bool)
    ensures var r := Read(s, base0);
            && base == r.base && p == r.from && (sign == MINUS <==> r.negative) && (sign == PLUS <==> !r.negative)
            && (valid <==> 2 <= base <= 36)
  {
    p, base := 0, base0;
    while IsSpace(At(s, p))
      invariant p <= |s| && SkipSpaces(s, 0) == SkipSpaces(s, p)
      decreases |s| - p
    {
      p := p + 1;
    }
    StartsInside(s, p, AfterSign(s, p), base0);
    if At(s, p) != PLUS && At(s, p) != MINUS {
      sign := PLUS;
    } else {
      sign := At(s, p);
      p := p + 1;
    }
    if At(s, p) == ZERO {
      p := p + 1;
      if (base == 0 || base == 16) && (At(s, p) == 'x' as int || At(s, p) == 'X' as int) {
        base := 16;
        p := p + 1;
        if !IsDigit(At(s, p), base) {
          p := p - 2;
        }
      } else if base == 0 {
        base := 8;
        p := p - 1;
      } else {
        p := p - 1;
      }
    } else if base == 0 {
      base := 10;
    }
    valid := 2 <= base <= 36;
  }

  lemma {:induction false} ValueMonotone(s: Text, p: nat, e: nat, e': nat, base: nat)
    requires p <= e <= e' <= |s| && base >= 1
    ensures ValueOf(s, p, e, base) <= ValueOf(s, p, e', base)
    decreases e' - e
  {
    if e < e' {
      ValueMonotone(s, p, e, e' - 1, base);
      Grows(ValueOf(s, p, e' - 1, base), base);
    }
  }

  lemma Grows(v: nat, base: nat)
    requires base >= 1
    ensures v * base >= v
  {
  }

  /** Is rc * base + digit within the limit?  The test of the code never forms the product. */
  lemma WithinLimit(rc: nat, digit: nat, base: nat, limval: nat, limdigit: nat)
    requires digit < base && limdigit < base
    ensures rc * base + digit <= limval * base + limdigit <==> rc < limval || (rc == limval && digit <= limdigit)
  {
    if rc < limval {
      assert (rc + 1) * base <= limval * base;
    } else if rc > limval {
      assert rc * base >= (limval + 1) * base;
    }
  }

  /** _strtox_main: the value of the run of digits when it is at most limval * base + limdigit, which the
      accumulator then never exceeds; otherwise the error value.  In both cases the run is passed over. */
  method Accumulate(s: Text, p0: nat, base: nat, error: int, limval: nat, limdigit: nat, sign0: Ch)
    returns (rc: int, p: nat, digits: bool, sign: Ch, erange: bool)
    requires p0 <= |s| && 2 <= base <= 36 && limdigit < base && limval * base + limdigit < 0x1_0000_0000_0000_0000
    ensures p == RunEnd(s, p0, base) && (digits <==> p > p0)
    ensures var v := ValueOf(s, p0, p, base);
            && (erange <==> v > limval * base + limdigit)
            && rc == (if erange then error else v) && sign == (if erange then PLUS else sign0)
  {
    p, digits, sign, erange := p0, false, sign0, false;
    var acc := 0;
    while IsDigit(At(s, p), base)
      invariant p0 <= p <= |s| && RunEnd(s, p0, base) == RunEnd(s, p, base) && (digits <==> p > p0)
      invariant acc == ValueOf(s, p0, p, base) <= limval * base + limdigit
      decreases |s| - p
    {
      var digit := Digit(At(s, p));
      WithinLimit(acc, digit, base, limval, limdigit);
      if acc < limval || (acc == limval && digit <= limdigit) {
        acc := acc * base + digit;
        p := p + 1;
        digits := true;
      } else {
        ValueMonotone(s, p0, p + 1, RunEnd(s, p0, base), base);
        erange, digits := true, true;
        while IsDigit(At(s, p), base)
          invariant p0 <= p <= |s| && RunEnd(s, p0, base) == RunEnd(s, p, base)
          decreases |s| - p
        {
          p := p + 1;
        }
        return error, p, digits, PLUS, erange;
      }
    }
    rc := acc;
  }

  // ----- strtol, strtoll, strtoul, strtoull -----

  /** The number that the input spells, unlimited. */
  function Spelled(s: Text, base: int): int {
    var r := Read(s, base);
    if 2 <= r.base <= 36 then
      var v: int := ValueOf(s, r.from, r.to, r.base);
      if r.negative then -v else v
    else 0
  }

  /** Where the rest of the input begins: behind the digits, or at the very start if there are none. */
  function EndOf(s: Text, base: int): nat {
    var r := Read(s, base);
    if r.to > r.from then r.to else 0
  }

  function Clamp(v: int, lo: int, hi: int): int {
    if v < lo then lo else if v > hi then hi else v
  }

  predicate Width(bits: nat) {
    bits == 32 || bits == 64
  }

  /** One more than the greatest unsigned number. */
  function Top(bits: nat): int {
    Pow2(bits)
  }

  /** One more than the greatest signed number. */
  function Half(bits: nat): int
    requires bits > 0
  {
    Pow2(bits - 1)
  }

  lemma Limits(bits: nat)
    requires Width(bits)
    ensures Top(bits) == 2 * Half(bits) && 0 < Half(bits) && Half(bits) >= 0x8000_0000 && Top(bits) <= Top(64)
    ensures Top(64) == 0x1_0000_0000_0000_0000
  {
    Pow2Values();
    Pow2Add(32, 32);
  }

  /** LONG_MIN / -base and -(LONG_MIN % base), in C's division, are what the magnitude gives. */
  lemma NegativeLimit(half: int, base: int)
    requires half > 0 && 2 <= base <= 36
    ensures TruncDiv(-half, -base) == half / base
    ensures -half - TruncDiv(-half, base) * base == -(half % base)
    ensures (half / base) * base + half % base == half && half / base >= 0 && 0 <= half % base < base
  {
    assert TruncDiv(-half, base) == -(half / base);
    SignedProduct(half / base, base);
    DivBounds(half, base);
    DivNonNegative(half, base);
  }

  lemma SmallMod(x: int, b: int)
    requires 0 <= x < b
    ensures x % b == x
  {
  }

  lemma NegativeMod(x: int, b: int)
    requires -b <= x < 0
    ensures x % b == x + b
  {
    assert x == -1 * b + (x + b);
    DivBounds(x, b);
    DivUnique(x, b, -1);
  }

  lemma SignedFits(x: int, bits: nat)
    requires Width(bits) && -Half(bits) <= x <= Half(bits)
    ensures SignedBits(x, bits) == if x == Half(bits) then -x else x
  {
    Limits(bits);
    if x < 0 {
      NegativeMod(x, Top(bits));
    } else {
      SmallMod(x, Top(bits));
    }
  }

  /** The least number, widened to 64 bits and cut down again. */
  lemma MinWraps(bits: nat)
    requires Width(bits)
    ensures SignedBits(-Half(bits) % Top(64), bits) == -Half(bits)
  {
    hide Pow2;
    Limits(bits);
    Limits(32);
    Pow2Values();
    NegativeMod(-Half(bits), Top(64));
    var x := Top(64) - Half(bits);
    if bits == 32 {
      assert x == 0xFFFF_FFFF * Top(32) + Half(32);
      DivBounds(x, Top(32));
      DivUnique(x, Top(32), 0xFFFF_FFFF);
    } else {
      SmallMod(x, Top(64));
    }
  }

  lemma SignedResult(v: nat, negative: bool, erange: bool, raw: int, bits: nat)
    requires Width(bits)
    requires erange <==> v > if negative then Half(bits) else Half(bits) - 1
    requires raw == if !erange then v else if negative then -Half(bits) % Top(64) else Half(bits) - 1
    ensures var w := if negative then 0 - v as int else v as int;
            var rc := SignedBits(raw, bits);
            && (if negative && !erange then SignedBits(-rc, bits) else rc) == Clamp(w, -Half(bits), Half(bits) - 1)
            && (erange <==> Clamp(w, -Half(bits), Half(bits) - 1) != w)
  {
    hide SignedBits, Pow2;
    Limits(bits);
    if !erange {
      SignedFits(v, bits);
      SignedFits(-SignedBits(v, bits), bits);
    } else if negative {
      MinWraps(bits);
    } else {
      SignedFits(Half(bits) - 1, bits);
    }
  }

  /** strtol for 32 bits, strtoll for 64: the number, brought into the range of the type. */
  method StrtoSigned(s: Text, base0: int, bits: nat) returns (rc: int, end: Option<nat>, erange: bool)
    requires Width(bits)
    ensures var b := Read(s, base0).base;
            if b < 2 || b > 36 then rc == 0 && end == None && !erange
            else
              && rc == Clamp(Spelled(s, base0), -Half(bits), Half(bits) - 1) && end == Some(EndOf(s, base0))
              && (erange <==> rc != Spelled(s, base0))
  {
    hide Read, Half, Top, SignedBits, TruncDiv, ValueOf, RunEnd, Clamp;
    var from, sign, base, valid := Prelim(s, base0);
    if base < 2 || base > 36 {
      return 0, None, false;
    }
    Limits(bits);
    var digits, p, raw;
    if sign == PLUS {
      var max := Half(bits) - 1;
      DivBounds(max, base);
      DivNonNegative(max, base);
      raw, p, digits, sign, erange := Accumulate(s, from, base, max, max / base, max % base, sign);
      SignedResult(ValueOf(s, from, p, base), false, erange, raw, bits);
    } else {
      var min := -Half(bits);
      NegativeLimit(Half(bits), base);
      raw, p, digits, sign, erange :=
        Accumulate(s, from, base, min % Top(64), TruncDiv(min, -base), -(min - TruncDiv(min, base) * base), sign);
      SignedResult(ValueOf(s, from, p, base), true, erange, raw, bits);
    }
    RunIs(s, base0);
    rc := SignedBits(raw, bits);
    end := Some(if digits then p else 0);
    if sign != PLUS {
      rc := SignedBits(-rc, bits);
    }
  }

  lemma RunIs(s: Text, base: int)
    ensures var r := Read(s, base); r.to == RunEnd(s, r.from, r.base)
  {
  }

  /** strtoul for 32 bits, strtoull for 64: with a minus sign, the negation in the unsigned type. */
  method StrtoUnsigned(s: Text, base0: int, bits: nat) returns (rc: int, end: Option<nat>, erange: bool)
    requires Width(bits)
    ensures var b := Read(s, base0).base;
            var v := Spelled(s, base0);
            if b < 2 || b > 36 then rc == 0 && end == None && !erange
            else
              && rc == (if -Top(bits) < v < Top(bits) then v % Top(bits) else Top(bits) - 1) && end == Some(EndOf(s, base0))
              && (erange <==> !(-Top(bits) < v < Top(bits)))
  {
    hide Read, Half, Top, ValueOf, RunEnd;
    var from, sign, base, valid := Prelim(s, base0);
    if base < 2 || base > 36 {
      return 0, None, false;
    }
    Limits(bits);
    var max := Top(bits) - 1;
    DivBounds(max, base);
    DivNonNegative(max, base);
    var digits, p;
    rc, p, digits, sign, erange := Accumulate(s, from, base, max, max / base, max % base, sign);
    RunIs(s, base0);
    end := Some(if digits then p else 0);
    SmallMod(rc, Top(bits));
    if sign != PLUS {
      rc := -rc % Top(bits);
    }
  }
}
