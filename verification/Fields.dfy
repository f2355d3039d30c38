/** What the integer conversions of diskfs/stdlib/_printf.h print, told apart from how they do it (section
    7.21.6.1 of ISO/IEC 9899:2011): the parts of a field, and how long it is. */
module Fields {
  import opened Powers
  import opened Words
  import opened Strtox
  import opened Printf

  /** At least so many digits. */
  function Wanted(c: Conv): nat {
    if c.prec < 0 then 1 else c.prec
  }

  /** The prefix of the base, asked for by '#', of a number that is not zero. */
  predicate IsPrefix(c: Conv, v: int, x: Text) {
    && (x != [] <==> c.alt && v != 0 && (c.base == 8 || c.base == 16))
    && (x != [] ==> x[0] == '0' as int && |x| == if c.base == 8 then 1 else 2)
    && (|x| > 1 ==> x[1] == (if c.lower then 'x' as int else 'X' as int))
  }

  /** The sign: always of a negative number, and for others what the flags of a signed conversion ask for. */
  predicate IsSign(c: Conv, v: int, y: Text) {
    && |y| <= 1
    && (y == ['-' as int] <==> v < 0)
    && (y == ['+' as int] <==> v >= 0 && !c.unsigned && c.plus)
    && (y == [' ' as int] <==> v >= 0 && !c.unsigned && !c.plus && c.space)
    && (y != [] ==> y[0] in {'-' as int, '+' as int, ' ' as int})
  }

  /** A digit, with letters of the case asked for. */
  predicate Cased(d: Ch, lower: bool) {
    || '0' as int <= d <= '9' as int
    || (if lower then 'a' as int <= d <= 'f' as int else 'A' as int <= d <= 'F' as int)
  }

  /** The digits of the number, none too many; none at all for a zero of precision zero. */
  predicate IsBody(c: Conv, v: int, m: Text)
    requires 2 <= c.base <= 16
  {
    && (m == [] <==> v == 0 && c.prec == 0)
    && AllDigits(m, c.base) && ValueOf(m, 0, |m|, c.base) == Abs(v)
    && (forall i :: 0 <= i < |m| ==> Cased(m[i], c.lower))
    && (m != [] && m[0] == '0' as int ==> |m| == 1)
  }

  /** Blanks, sign and prefix, zeros, digits, blanks: as long as the field is wide, or longer if that takes more;
      at least as many digits as wanted; blanks in front only without '-' and '0', behind only with '-'; zeros
      beyond the precision only with '0' and without '-'. */
  predicate IsLayout(c: Conv, front: nat, p: nat, zeros: nat, m: nat, behind: nat) {
    && front + p + zeros + m + behind == Max(c.width, p + Max(m, Wanted(c)))
    && zeros + m >= Wanted(c)
    && (front > 0 ==> !c.minus && !c.zero)
    && (behind > 0 ==> c.minus)
    && (zeros + m > Max(m, Wanted(c)) ==> c.zero && !c.minus)
  }

  /** The text is a field for v. */
  ghost predicate IsField(c: Conv, v: int, t: Text)
    requires 2 <= c.base <= 16
  {
    exists f: Parts :: IsFieldOf(c, v, t, f)
  }

  datatype Parts = Parts(front: nat, prefix: Text, sign: Text, zeros: nat, body: Text, behind: nat)

  predicate IsFieldOf(c: Conv, v: int, t: Text, f: Parts)
    requires 2 <= c.base <= 16
  {
    && t == Repeat(SPACE, f.front) + (f.prefix + f.sign) + Repeat(ZERO, f.zeros) + f.body + Repeat(SPACE, f.behind)
    && IsPrefix(c, v, f.prefix) && IsSign(c, v, f.sign) && IsBody(c, v, f.body)
    && IsLayout(c, f.front, |f.prefix| + |f.sign|, f.zeros, |f.body|, f.behind)
  }

  // ----- what is printed is a field -----

  lemma {:induction false} DigitsCased(v: nat, base: nat, lower: bool)
    requires 2 <= base <= 16
    ensures var t := Digits(v, base, lower); (forall i :: 0 <= i < |t| ==> Cased(t[i], lower)) && (t[0] == '0' as int ==> |t| == 1)
    decreases v
  {
    DivShrinks(v, base);
    if v / base > 0 {
      DigitsCased(v / base, base, lower);
      DigitsLead(v / base, base, lower);
    }
  }

  lemma {:induction false} DigitsLead(v: nat, base: nat, lower: bool)
    requires 2 <= base <= 16 && v > 0
    ensures Digits(v, base, lower)[0] != '0' as int
    decreases v
  {
    DivShrinks(v, base);
    if v / base > 0 {
      DigitsLead(v / base, base, lower);
    } else {
      assert v % base == v by { DivBounds(v, base); }
    }
  }

  lemma BodyIs(c: Conv, v: int)
    requires 2 <= c.base <= 16
    ensures IsBody(c, v, Body(c, v))
  {
    hide Cased, IsDigit;
    if v == 0 && c.prec == 0 {
      assert ValueOf([], 0, 0, c.base) == 0;
    } else {
      DigitsValue(Abs(v), c.base, c.lower);
      DigitsCased(Abs(v), c.base, c.lower);
    }
  }

  function PrefixOf(c: Conv, v: int): Text {
    if !c.alt || v == 0 || (c.base != 8 && c.base != 16) then []
    else if c.base == 8 then ['0' as int] else ['0' as int, if c.lower then 'x' as int else 'X' as int]
  }

  function SignOf(c: Conv, v: int): Text {
    if v < 0 then ['-' as int]
    else if c.unsigned || (!c.plus && !c.space) then []
    else if c.plus then ['+' as int] else [' ' as int]
  }

  lemma PrefaceParts(c: Conv, v: int)
    ensures IsPrefix(c, v, PrefixOf(c, v)) && IsSign(c, v, SignOf(c, v))
    ensures Preface(c, v < 0, v != 0) == PrefixOf(c, v) + SignOf(c, v)
  {
  }

  lemma Repeated(n: int)
    ensures Repeat(SPACE, n) == Repeat(SPACE, Max(n, 0))
  {
  }

  lemma LayoutIs(c: Conv, p: nat, m: nat)
    ensures var zeros := PadZeros(c, c.prec, m, p);
            var front := Max(PadSpaces(c, c.prec, m, p), 0);
            IsLayout(c, front, p, zeros, m, if c.minus then Max(c.width - (front + p + zeros) - m, 0) else 0)
  {
  }

  /** What a conversion prints is a field. */
  lemma PrintedIsField(c: Conv, v: int) returns (f: Parts)
    requires 2 <= c.base <= 16
    ensures IsFieldOf(c, v, Printed(c, v), f)
  {
    hide Preface, PadSpaces, PadZeros, Body, IsPrefix, IsSign, IsBody, IsLayout, Repeat;
    var body := Body(c, v);
    var x, y := PrefixOf(c, v), SignOf(c, v);
    PrefaceParts(c, v);
    BodyIs(c, v);
    var zeros := PadZeros(c, c.prec, |body|, |x + y|);
    var front := Max(PadSpaces(c, c.prec, |body|, |x + y|), 0);
    var behind := if c.minus then Max(c.width - (front + |x + y| + zeros) - |body|, 0) else 0;
    f := Parts(front, x, y, zeros, body, behind);
    LayoutIs(c, |x + y|, |body|);
    Repeated(PadSpaces(c, c.prec, |body|, |x + y|));
    Repeated(c.width - (front + |x + y| + zeros) - |body|);
    assert Repeat(SPACE, 0) == [] by { Nothing(); }
    LeadIs(c, v, body, front, x + y, zeros);
  }

  lemma Nothing()
    ensures Repeat(SPACE, 0) == []
  {
  }

  lemma LeadIs(c: Conv, v: int, body: Text, front: nat, p: Text, zeros: nat)
    requires p == Preface(c, v < 0, v != 0) && zeros == PadZeros(c, c.prec, |body|, |p|)
    requires front == Max(PadSpaces(c, c.prec, |body|, |p|), 0)
    ensures Lead(c, c.prec, |body|, v < 0, v != 0) == Repeat(SPACE, front) + p + Repeat(ZERO, zeros)
    ensures |Lead(c, c.prec, |body|, v < 0, v != 0)| == front + |p| + zeros
  {
    hide Preface, PadSpaces, PadZeros;
    Repeated(PadSpaces(c, c.prec, |body|, |p|));
  }

  // ----- and there is only one -----

  lemma {:induction false} DigitsUnique(m: Text, v: nat, base: nat, lower: bool)
    requires 2 <= base <= 16 && m != [] && AllDigits(m, base) && ValueOf(m, 0, |m|, base) == v
    requires (forall i :: 0 <= i < |m| ==> Cased(m[i], lower)) && (m[0] == '0' as int ==> |m| == 1)
    ensures m == Digits(v, base, lower)
    decreases |m|
  {
    hide Cased, Digit, IsDigit;
    var k := |m| - 1;
    var front := m[..k];
    var u := ValueOf(m, 0, k, base);
    LastDigit(m[k], base, lower);
    DivUnique(v, base, u);
    DivBounds(v, base);
    assert m == front + [m[k]];
    FrontValue(m, base);
    if k > 0 {
      assert forall i :: 0 <= i < k ==> front[i] == m[i];
      NotZero(m, base);
      DigitsUnique(front, u, base, lower);
    } else {
      assert ValueOf(m, 0, 0, base) == 0;
    }
  }

  lemma LastDigit(d: Ch, base: nat, lower: bool)
    requires 2 <= base <= 16 && IsDigit(d, base) && Cased(d, lower)
    ensures Digit(d) < base && DigitChar(Digit(d), lower) == d
  {
  }

  lemma FrontValue(m: Text, base: nat)
    requires m != []
    ensures ValueOf(m[..|m| - 1], 0, |m| - 1, base) == ValueOf(m, 0, |m| - 1, base)
  {
    SameValue(m, |m| - 1, base);
  }

  lemma {:induction false} Positive(m: Text, k: nat, base: nat)
    requires 1 <= k <= |m| && 2 <= base && Digit(m[0]) > 0
    ensures ValueOf(m, 0, k, base) > 0
    decreases k
  {
    if k > 1 {
      Positive(m, k - 1, base);
      MulLe(1, ValueOf(m, 0, k - 1, base), base);
    } else {
      assert ValueOf(m, 0, 0, base) == 0;
    }
  }

  /** More than one digit: what stands in front of the last is not zero. */
  lemma NotZero(m: Text, base: nat)
    requires 2 <= base <= 16 && |m| > 1 && AllDigits(m, base) && m[0] != '0' as int
    ensures ValueOf(m, 0, |m| - 1, base) > 0
  {
    assert IsDigit(m[0], base);
    FirstDigit(m[0], base);
    Positive(m, |m| - 1, base);
  }

  lemma FirstDigit(d: Ch, base: nat)
    requires 2 <= base <= 16 && IsDigit(d, base) && d != '0' as int
    ensures Digit(d) > 0
  {
  }

  lemma BodyUnique(c: Conv, v: int, m: Text)
    requires 2 <= c.base <= 16 && IsBody(c, v, m)
    ensures m == Body(c, v)
  {
    hide Cased, IsDigit;
    if m != [] {
      DigitsUnique(m, Abs(v), c.base, c.lower);
    }
  }

  lemma PrefaceUnique(c: Conv, v: int, x: Text, y: Text)
    requires IsPrefix(c, v, x) && IsSign(c, v, y)
    ensures x + y == Preface(c, v < 0, v != 0)
  {
    PrefaceParts(c, v);
    assert x == PrefixOf(c, v);
    assert y == SignOf(c, v);
  }

  lemma LayoutUnique(c: Conv, p: nat, m: nat, a: nat, z: nat, t: nat, a': nat, z': nat, t': nat)
    requires IsLayout(c, a, p, z, m, t) && IsLayout(c, a', p, z', m, t')
    ensures a == a' && z == z' && t == t'
  {
  }

  /** What a conversion prints, with whatever flags, width and precision, is the one text that is a field for
      the number. */
  lemma PrintedIff(c: Conv, v: int, t: Text)
    requires 2 <= c.base <= 16
    ensures t == Printed(c, v) <==> IsField(c, v, t)
  {
    hide Printed, IsPrefix, IsSign, IsBody, IsLayout, Preface, Body;
    var f := PrintedIsField(c, v);
    if g: Parts :| IsFieldOf(c, v, t, g) {
      BodyUnique(c, v, f.body);
      BodyUnique(c, v, g.body);
      PrefaceUnique(c, v, f.prefix, f.sign);
      PrefaceUnique(c, v, g.prefix, g.sign);
      assert |f.prefix| + |f.sign| == |f.prefix + f.sign| && |g.prefix| + |g.sign| == |g.prefix + g.sign|;
      LayoutUnique(c, |f.prefix| + |f.sign|, |f.body|, f.front, f.zeros, f.behind, g.front, g.zeros, g.behind);
    }
  }
}
