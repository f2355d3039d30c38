/** Writing integers: the conversions d, u, o, x and X of diskfs/stdlib/_printf.h, and the proof that
    diskfs/stdlib/_strtox.h reads them back. */
module Printf {
  import opened Powers
  import opened Words
  import opened Strtox

  /** What a conversion asks for: flags, width and precision (negative if none is given). */
  datatype Conv = Conv(base: int, unsigned: bool, lower: bool, minus: bool, plus: bool, alt: bool, space: bool, zero: bool,
                       width: nat, prec: int)

  /** The conversions: d is signed decimal; u, o, x and X are unsigned. */
  predicate IsConv(c: Conv) {
    c.base == 10 || (c.unsigned && (c.base == 8 || c.base == 16))
  }

  const SPACE := ' ' as int

  function Repeat(c: Ch, n: int): (t: Text)
    ensures |t| == (if n < 0 then 0 else n) && forall i :: 0 <= i < |t| ==> t[i] == c
  {
    seq(if n < 0 then 0 else n, _ => c)
  }

  /** _digits[d], or _Xdigits[d] */
  function DigitChar(d: nat, lower: bool): (c: Ch)
    requires d < 16
    ensures Digit(c) == d && !IsSpace(c) && c != PLUS && c != MINUS && c != 'x' as int && c != 'X' as int && (c == ZERO <==> d == 0)
  {
    if d < 10 then ZERO + d else if lower then 'a' as int + d - 10 else 'A' as int + d - 10
  }

  /** The digits of a magnitude, the most significant first. */
  function Digits(v: nat, base: nat, lower: bool): (t: Text)
    requires 2 <= base <= 16
    ensures |t| > 0
  {
    DivShrinks(v, base);
    var q := v / base;
    if q == 0 then [DigitChar(v % base, lower)] else Digits(q, base, lower) + [DigitChar(v % base, lower)]
  }

  lemma DivShrinks(v: nat, base: nat)
    requires base >= 2
    ensures 0 <= v / base && (v / base > 0 ==> v / base < v) && 0 <= v % base < base
  {
    var q := v / base;
    DivBounds(v, base);
    DivNonNegative(v, base);
    MulLe(2, base, q);
  }

  function Max(a: int, b: int): int {
    if a < b then b else a
  }

  /** Prefix or sign. */
  function Preface(c: Conv, negative: bool, nonzero: bool): (t: Text)
    ensures |t| <= 3
  {
    (if c.alt && (c.base == 16 || c.base == 8) && nonzero then
       [ZERO] + if c.base == 16 then [if c.lower then 'x' as int else 'X' as int] else []
     else [])
    + if negative then [MINUS] else if c.unsigned then [] else if c.plus then [PLUS] else if c.space then [SPACE] else []
  }

  /** The precision that holds where it is not given. */
  function Prec(prec: int): nat {
    if prec < 0 then 1 else prec
  }

  function PadSpaces(c: Conv, prec: int, n: nat, preface: nat): int {
    if c.minus || c.zero then 0 else c.width - (preface + Max(n, Prec(prec)))
  }

  function PadZeros(c: Conv, prec: int, n: nat, preface: nat): nat {
    var p := Max(Prec(prec) - n, 0);
    p + if c.minus || !c.zero then 0 else Max(c.width - (n + preface + p), 0)
  }

  /** All that stands before n digits. */
  function Lead(c: Conv, prec: int, n: nat, negative: bool, nonzero: bool): Text {
    var preface := Preface(c, negative, nonzero);
    Repeat(SPACE, PadSpaces(c, prec, n, |preface|)) + preface + Repeat(ZERO, PadZeros(c, prec, n, |preface|))
  }

  /** No digit at all is printed for a zero with precision zero. */
  function Body(c: Conv, v: int): Text
    requires 2 <= c.base <= 16
  {
    if v == 0 && c.prec == 0 then [] else Digits(Abs(v), c.base, c.lower)
  }

  /** What a conversion prints. */
  function Printed(c: Conv, v: int): Text
    requires 2 <= c.base <= 16
  {
    var body := Body(c, v);
    var lead := Lead(c, c.prec, |body|, v < 0, v != 0);
    lead + body + if c.minus then Repeat(SPACE, c.width - |lead| - |body|) else []
  }

  // ----- the code -----

  /** struct _status_t, for output into a buffer. */
  class Printer {
    const s: array<Ch>
    const n: nat
    var i: nat
    var conv: Conv
    var prec: int
    var current: nat
    ghost var out: Text     // every character delivered so far, whether the buffer had room for it or not
    ghost var cut: bool     // a full buffer has been ended with a zero

    constructor (s: array<Ch>, n: nat, c: Conv)
      requires n <= s.Length
      ensures this.s == s && this.n == n && conv == c && out == [] && !cut && Shows()
    {
      this.s, this.n, i := s, n, 0;
      conv, prec, current, out, cut := c, c.prec, 0, [], false;
    }

    /** The buffer shows what has been delivered, as far as its limit. */
    ghost predicate Shows()
      reads this`i, this`out, this`cut, s
    {
      && n <= s.Length && i == |out| && (cut ==> i >= n > 0)
      && forall k :: 0 <= k < |out| && k < n ==> s[k] == if cut && k == n - 1 then 0 else out[k]
    }

    /** Cells that have not been delivered to since are as they were. */
    twostate predicate Spares()
      reads this`out, s
    {
      |old(out)| <= |out| && forall k :: 0 <= k < s.Length && !(|old(out)| <= k < |out| && k < n) ==> s[k] == old(s[k])
    }

    /** PUT, and counting the character. */
    method Put(c: Ch)
      requires Shows()
      modifies this`i, this`out, this`current, s
      ensures Shows() && Spares() && out == old(out) + [c] && current == old(current) + 1
    {
      if i < n {
        s[i] := c;
      }
      i := i + 1;
      out := out + [c];
      current := current + 1;
    }

    method PutMany(c: Ch, m: int)
      requires Shows()
      modifies this`i, this`out, this`current, s
      ensures Shows() && Spares() && out == old(out) + Repeat(c, m) && current == old(current) + |Repeat(c, m)|
    {
      var k := 0;
      assert out == old(out) + Repeat(c, 0);
      while k < m
        invariant 0 <= k && (k <= m || k == 0) && out == old(out) + Repeat(c, k) && current == old(current) + k
        invariant Shows() && Spares()
      {
        Put(c);
        k := k + 1;
        assert Repeat(c, k) == Repeat(c, k - 1) + [c];
      }
      assert Repeat(c, m) == Repeat(c, k);
    }

    method PutAll(t: Text)
      requires Shows()
      modifies this`i, this`out, this`current, s
      ensures Shows() && Spares() && out == old(out) + t && current == old(current) + |t|
    {
      var k := 0;
      while k < |t|
        invariant 0 <= k <= |t| && out == old(out) + t[..k] && current == old(current) + k
        invariant Shows() && Spares()
      {
        Put(t[k]);
        k := k + 1;
      }
    }

    /** The first part of intformat: prefix or sign. */
    method MakePreface(value: int) returns (preface: Text)
      ensures preface == Preface(conv, value < 0, value != 0)
    {
      preface := [];
      if conv.alt && (conv.base == 16 || conv.base == 8) && value != 0 {
        preface := preface + [ZERO];
        if conv.base == 16 {
          preface := preface + [if conv.lower then 'x' as int else 'X' as int];
        }
      }
      if value < 0 {
        preface := preface + [MINUS];
      } else if !conv.unsigned {
        if conv.plus {
          preface := preface + [PLUS];
        } else if conv.space {
          preface := preface + [SPACE];
        }
      }
    }

    /** intformat, with `current` digits queued. */
    method IntFormat(value: int)
      requires Shows()
      modifies this`i, this`out, this`current, this`prec, s
      ensures prec == Prec(old(prec))
      ensures var lead := Lead(conv, old(prec), old(current), value < 0, value != 0);
              out == old(out) + lead && current == old(current) + |lead|
      ensures Shows() && Spares()
    {
      hide Preface, Repeat, PadSpaces, PadZeros, Shows;
      if prec < 0 {
        prec := 1;
      }
      ghost var queued := current;
      var preface := MakePreface(value);
      var precPads := if prec > current then prec - current else 0;
      FillSpaces(|preface|);
      PutAll(preface);
      FillZeros(precPads, |preface|, queued);
      PadsPrec(conv, old(prec), queued, |preface|);
    }

    /** The padding with spaces: only if no zero padding or left alignment is asked for. */
    method FillSpaces(preface: nat)
      requires prec >= 0 && Shows()
      modifies this`i, this`out, this`current, s
      ensures var fill := Repeat(SPACE, PadSpaces(conv, prec, old(current), preface));
              out == old(out) + fill && current == old(current) + |fill|
      ensures current > old(current) ==> !conv.minus && !conv.zero
      ensures Shows() && Spares()
    {
      hide Shows;
      if !conv.minus && !conv.zero {
        var characters := preface + if current > prec then current else prec;
        PutMany(SPACE, conv.width - characters);
      }
    }

    /** The zeros for the precision, and those for the width. */
    method FillZeros(precPads: nat, ghost preface: nat, ghost queued: nat)
      requires prec >= 0 && precPads == Max(prec - queued, 0) && Shows()
      requires !conv.minus && conv.zero ==> current == queued + preface
      modifies this`i, this`out, this`current, s
      ensures var fill := Repeat(ZERO, PadZeros(conv, prec, queued, preface));
              out == old(out) + fill && current == old(current) + |fill|
      ensures Shows() && Spares()
    {
      hide Shows;
      var zeros := 0;
      PutMany(ZERO, precPads);
      if !conv.minus && conv.zero {
        zeros := conv.width - current;
        PutMany(ZERO, zeros);
      }
      RepeatAdd(ZERO, precPads, zeros);
    }

    /** int2base: the digits are counted on the way down, and put on the way up. */
    method Int2Base(value: int)
      requires 2 <= conv.base <= 16 && Shows()
      modifies this`i, this`out, this`current, this`prec, s
      ensures var none := old(current) == 0 && value == 0 && old(prec) == 0;
              var body := if none then [] else Digits(Abs(value), conv.base, conv.lower);
              var lead := Lead(conv, old(prec), old(current) + |body|, value < 0, value != 0);
              out == old(out) + lead + body && current == old(current) + |body| + |lead|
      ensures Shows() && Spares()
      decreases Abs(value)
    {
      hide Lead, Shows;
      if current == 0 && value == 0 && prec == 0 {
        IntFormat(value);
        return;
      }
      current := current + 1;
      ghost var at := current;
      var rest := TruncDiv(value, conv.base);
      Quotient(value, conv.base);
      if rest != 0 {
        Int2Base(rest);
      } else {
        IntFormat(value);
      }
      var digit := value - rest * conv.base;
      if digit < 0 {
        digit := -digit;
      }
      PutDigit(DigitChar(digit, conv.lower));
    }

    /** PUT of a digit, which has been counted already. */
    method PutDigit(c: Ch)
      requires Shows()
      modifies this`i, this`out, s
      ensures Shows() && Spares() && out == old(out) + [c]
    {
      if i < n {
        s[i] := c;
      }
      i := i + 1;
      out := out + [c];
    }

    /** The integer part of _print: the conversion, and a zero in the last cell of a full buffer. */
    method Print(c: Conv, value: int)
      requires 2 <= c.base <= 16 && Shows()
      modifies this, s
      ensures Shows() && out == old(out) + Printed(c, value) && (cut <==> old(cut) || i >= n > 0)
      ensures forall k :: |out| <= k < s.Length || n <= k < s.Length ==> s[k] == old(s[k])
    {
      hide Lead, Printed;
      Convert(c, value);
      End();
    }

    method Convert(c: Conv, value: int)
      requires 2 <= c.base <= 16 && Shows()
      modifies this`i, this`out, this`current, this`prec, this`conv, s
      ensures Shows() && Spares() && out == old(out) + Printed(c, value)
    {
      hide Lead, Shows, Repeat, Digits, Abs;
      conv, prec, current := c, c.prec, 0;
      Int2Base(value);
      if conv.minus {
        PutMany(SPACE, conv.width - current);
      }
    }

    method End()
      requires Shows()
      modifies this`cut, s
      ensures Shows() && (cut <==> old(cut) || i >= n > 0)
      ensures forall k :: 0 <= k < s.Length && !(k == n - 1 && i >= n) ==> s[k] == old(s[k])
    {
      if i >= n && n > 0 {
        s[n - 1] := 0;
        cut := true;
      }
    }
  }

  /** A missing precision counts as 1. */
  lemma PadsPrec(c: Conv, prec: int, n: nat, k: nat)
    ensures PadSpaces(c, Prec(prec), n, k) == PadSpaces(c, prec, n, k) && PadZeros(c, Prec(prec), n, k) == PadZeros(c, prec, n, k)
  {
  }

  lemma RepeatAdd(c: Ch, m: int, n: int)
    requires m >= 0
    ensures Repeat(c, m) + Repeat(c, n) == Repeat(c, m + Max(n, 0))
  {
  }

  /** The quotient has the sign of the value, and its digits are all but the last. */
  lemma Quotient(v: int, base: int)
    requires 2 <= base <= 16
    ensures var q := TruncDiv(v, base);
            && Abs(q) == Abs(v) / base && (q != 0 ==> Abs(q) < Abs(v) && (q < 0 <==> v < 0))
            && (v - q * base == if v < 0 then -(Abs(v) % base) else Abs(v) % base)
  {
    hide Abs;
    var a: nat := Abs(v);
    DivShrinks(a, base);
    DivBounds(a, base);
    SignedQuotient(v, base, a, a / base);
  }

  lemma SignedQuotient(v: int, base: int, a: nat, m: nat)
    requires base > 0 && a == Abs(v) && m == a / base
    ensures TruncDiv(v, base) == (if v < 0 then 0 - m as int else m as int) && Abs(TruncDiv(v, base)) == m
    ensures v - TruncDiv(v, base) * base == if v < 0 then -(a - m * base) else a - m * base
  {
    SignedProduct(m, base);
  }

  // ----- reading back what was printed -----

  predicate AllDigits(t: Text, base: int) {
    forall i :: 0 <= i < |t| ==> IsDigit(t[i], base)
  }

  lemma {:induction false} ValueInside(pre: Text, m: Text, post: Text, k: nat, base: nat)
    requires k <= |m|
    ensures ValueOf(pre + m + post, |pre|, |pre| + k, base) == ValueOf(m, 0, k, base)
    decreases k
  {
    if k > 0 {
      ValueInside(pre, m, post, k - 1, base);
      assert (pre + m + post)[|pre| + k - 1] == m[k - 1];
    }
  }

  lemma {:induction false} DigitsValue(v: nat, base: nat, lower: bool)
    requires 2 <= base <= 16
    ensures AllDigits(Digits(v, base, lower), base)
    ensures var d := Digits(v, base, lower); ValueOf(d, 0, |d|, base) == v
    decreases v
  {
    var d := Digits(v, base, lower);
    DivShrinks(v, base);
    DivBounds(v, base);
    var q := v / base;
    if q == 0 {
      assert ValueOf(d, 0, 0, base) == 0;
    } else {
      var front := Digits(q, base, lower);
      DigitsValue(q, base, lower);
      ValueInside([], front, [DigitChar(v % base, lower)], |front|, base);
      assert d == [] + front + [DigitChar(v % base, lower)];
    }
  }

  lemma {:induction false} ZerosValue(z: nat, t: Text, k: nat, base: nat)
    requires k <= |t| && 1 <= base <= 36
    ensures ValueOf(Repeat(ZERO, z) + t, 0, z + k, base) == ValueOf(t, 0, k, base)
    decreases z + k
  {
    var s := Repeat(ZERO, z) + t;
    if k > 0 {
      ZerosValue(z, t, k - 1, base);
      assert s[z + k - 1] == t[k - 1];
    } else if z > 0 {
      ZerosValue(z - 1, t, 0, base);
      ValueInside([], Repeat(ZERO, z - 1), [ZERO] + t, z - 1, base);
      ValueInside([], Repeat(ZERO, z - 1), t, z - 1, base);
      assert s == [] + Repeat(ZERO, z - 1) + ([ZERO] + t);
      assert Repeat(ZERO, z - 1) + t == [] + Repeat(ZERO, z - 1) + t;
      assert s[z - 1] == ZERO;
    }
  }

  lemma {:induction false} SkipsTo(s: Text, p: nat, k: nat)
    requires p <= k <= |s| && (forall i :: p <= i < k ==> IsSpace(s[i])) && (k < |s| ==> !IsSpace(s[k]))
    ensures SkipSpaces(s, p) == k
    decreases k - p
  {
    if p < k {
      SkipsTo(s, p + 1, k);
    }
  }

  lemma {:induction false} RunsTo(s: Text, p: nat, e: nat, base: int)
    requires p <= e <= |s| && (forall i :: p <= i < e ==> IsDigit(s[i], base)) && (e < |s| ==> !IsDigit(s[e], base))
    ensures RunEnd(s, p, base) == e
    decreases e - p
  {
    if p < e {
      RunsTo(s, p + 1, e, base);
    }
  }

  /** Digits behind spaces, a sign and a prefix, with something else after them. */
  lemma ReadsNumber(pre: Text, m: Text, post: Text, k: nat, q: nat, base: int, b: nat)
    requires 2 <= b <= 36 && AllDigits(m, b) && (post == [] || !IsDigit(post[0], b))
    requires var s := pre + m + post; SkipSpaces(s, 0) == k && AfterSign(s, k) == q && BaseAt(s, q, base) == (b, |pre|)
    ensures Spelled(pre + m + post, base)
         == if At(pre + m + post, k) == MINUS then 0 - ValueOf(m, 0, |m|, b) as int else ValueOf(m, 0, |m|, b) as int
  {
    var s := pre + m + post;
    ValueInside(pre, m, post, |m|, b);
    assert forall i :: |pre| <= i < |pre| + |m| ==> s[i] == m[i - |pre|];
    assert |pre| + |m| < |s| ==> s[|pre| + |m|] == post[0];
    RunsTo(s, |pre|, |pre| + |m|, b);
  }

  /** No digit anywhere: zero. */
  lemma ReadsNothing(s: Text, base: int)
    requires forall i :: 0 <= i < |s| ==> Digit(s[i]) == 36
    ensures Spelled(s, base) == 0
  {
    var r := Read(s, base);
    if r.base <= 36 {
      RunsTo(s, r.from, r.from, r.base);
    }
  }

  predicate Ordinary(m: Text) {
    forall i :: 0 <= i < |m| ==> !IsSpace(m[i]) && m[i] != PLUS && m[i] != MINUS && m[i] != 'x' as int && m[i] != 'X' as int
  }

  /** What stands where in blanks, p, digits, blanks. */
  lemma Layout(a: nat, p: Text, m: Text, t: nat)
    ensures var s := Repeat(SPACE, a) + p + m + Repeat(SPACE, t);
            && |s| == a + |p| + |m| + t
            && (forall i :: 0 <= i < a ==> s[i] == SPACE) && (forall i :: 0 <= i < |p| ==> s[a + i] == p[i])
            && (forall i :: 0 <= i < |m| ==> s[a + |p| + i] == m[i]) && (forall i :: a + |p| + |m| <= i < |s| ==> s[i] == SPACE)
  {
  }

  /** With a sign, or none. */
  lemma ReadsSigned(a: nat, p: Text, m: Text, t: nat, base: int, b: nat)
    requires m != [] && 2 <= b <= 16 && AllDigits(m, b) && Ordinary(m)
    requires base == b || (base == 0 && b == 8 && p == [] && m[0] == ZERO)
    requires p == [] || p == [PLUS] || p == [MINUS] || p == [SPACE]
    ensures Spelled(Repeat(SPACE, a) + p + m + Repeat(SPACE, t), base)
         == if p == [MINUS] then 0 - ValueOf(m, 0, |m|, b) as int else ValueOf(m, 0, |m|, b) as int
  {
    hide Spelled, ValueOf, SkipSpaces, Digit, Repeat;
    BlankIsNoDigit();
    Layout(a, p, m, t);
    Blank(t);
    var k := SignAt(a, p, m, t);
    ReadsNumber(Repeat(SPACE, a) + p, m, Repeat(SPACE, t), k, a + |p|, base, b);
  }

  /** Where the sign is, or the digits if there is none. */
  lemma SignAt(a: nat, p: Text, m: Text, t: nat) returns (k: nat)
    requires m != [] && Ordinary(m)
    requires p == [] || p == [PLUS] || p == [MINUS] || p == [SPACE]
    ensures var s := Repeat(SPACE, a) + p + m + Repeat(SPACE, t);
            SkipSpaces(s, 0) == k && AfterSign(s, k) == a + |p| && (At(s, k) == MINUS <==> p == [MINUS])
  {
    hide SkipSpaces, Repeat;
    BlankIsNoDigit();
    Layout(a, p, m, t);
    var s := Repeat(SPACE, a) + p + m + Repeat(SPACE, t);
    k := if p == [SPACE] then a + 1 else a;
    assert k < |s| && !IsSpace(s[k]);
    SkipsTo(s, 0, k);
  }

  /** With a prefix. */
  lemma ReadsPrefixed(a: nat, p: Text, m: Text, t: nat, base: int, b: nat)
    requires m != [] && AllDigits(m, b) && Ordinary(m) && (base == b || base == 0)
    requires (p == [ZERO] && b == 8) || ((p == [ZERO, 'x' as int] || p == [ZERO, 'X' as int]) && b == 16)
    ensures Spelled(Repeat(SPACE, a) + p + m + Repeat(SPACE, t), base) == ValueOf(m, 0, |m|, b)
  {
    hide Spelled, ValueOf, SkipSpaces, Digit, Repeat, BaseAt, AfterSign;
    BlankIsNoDigit();
    Blank(t);
    PrefixAt(a, p, m, t, base, b);
    var spaces, post := Repeat(SPACE, a), Repeat(SPACE, t);
    if b == 8 {
      OneZero();
      ZerosValue(1, m, |m|, b);
      assert spaces + p + m + post == spaces + (p + m) + post;
      ReadsNumber(spaces, p + m, post, a, a, base, b);
    } else {
      ReadsNumber(spaces + p, m, post, a, a, base, b);
    }
  }

  /** Where the digits start. */
  lemma PrefixAt(a: nat, p: Text, m: Text, t: nat, base: int, b: nat)
    requires m != [] && AllDigits(m, b) && Ordinary(m) && (base == b || base == 0)
    requires (p == [ZERO] && b == 8) || ((p == [ZERO, 'x' as int] || p == [ZERO, 'X' as int]) && b == 16)
    ensures var s := Repeat(SPACE, a) + p + m + Repeat(SPACE, t);
            && SkipSpaces(s, 0) == a && AfterSign(s, a) == a && At(s, a) == ZERO
            && BaseAt(s, a, base) == (b, if b == 8 then a else a + 2)
  {
    hide SkipSpaces, Digit, Repeat;
    BlankIsNoDigit();
    Layout(a, p, m, t);
    SkipsTo(Repeat(SPACE, a) + p + m + Repeat(SPACE, t), 0, a);
  }

  lemma OneZero()
    ensures Repeat(ZERO, 1) == [ZERO]
  {
  }

  lemma Blank(t: nat)
    ensures Repeat(SPACE, t) == [] || Repeat(SPACE, t)[0] == SPACE
  {
  }

  lemma BlankIsNoDigit()
    ensures Digit(SPACE) == 36 && Digit(PLUS) == 36 && Digit(MINUS) == 36 && Digit(ZERO) == 0
    ensures IsSpace(SPACE) && !IsSpace(ZERO) && !IsSpace(PLUS) && !IsSpace(MINUS)
  {
  }

  lemma PrefaceIs(c: Conv, v: int)
    requires IsConv(c) && (c.unsigned ==> v >= 0)
    ensures var p := Preface(c, v < 0, v != 0);
            if c.alt && c.base != 10 && v != 0 then p == if c.base == 8 then [ZERO] else [ZERO, if c.lower then 'x' as int else 'X' as int]
            else p == if v < 0 then [MINUS] else if c.unsigned then [] else if c.plus then [PLUS] else if c.space then [SPACE] else []
  {
  }

  /** The zeros and digits of a field. */
  lemma FieldValue(c: Conv, v: int, z: nat, b: int)
    requires IsConv(c) && (b == c.base || (v == 0 && b == 8))
    ensures var m := Repeat(ZERO, z) + Body(c, v);
            && AllDigits(m, b) && ValueOf(m, 0, |m|, b) == Abs(v)
            && Ordinary(m)
            && (v == 0 && m != [] ==> m[0] == ZERO) && (v != 0 ==> m != [])
  {
    hide ValueOf, Digit, IsSpace;
    var body := Body(c, v);
    BlankIsNoDigit();
    ZerosValue(z, body, |body|, b);
    if v == 0 {
      ZeroBody(c, b);
    } else {
      DigitsValue(Abs(v), c.base, c.lower);
      DigitsPlain(Abs(v), c.base, c.lower);
    }
  }

  lemma ZeroBody(c: Conv, b: nat)
    requires IsConv(c) && 1 <= b
    ensures var t := Body(c, 0); (t == [] || t == [ZERO]) && ValueOf(t, 0, |t|, b) == 0
  {
    assert Digits(0, c.base, c.lower) == [ZERO];
    assert ValueOf([ZERO], 0, 0, b) == 0;
  }

  lemma {:induction false} DigitsPlain(v: nat, base: nat, lower: bool)
    requires 2 <= base <= 16
    ensures Ordinary(Digits(v, base, lower))
    decreases v
  {
    DivShrinks(v, base);
    if v / base > 0 {
      DigitsPlain(v / base, base, lower);
    }
  }

  /** Every integer that a conversion prints, with whatever flags, width and precision, is read back in
      the base of the conversion; and in base 0 too if it is printed with the prefix of its base. */
  lemma RoundTrip(c: Conv, v: int, base: int)
    requires IsConv(c) && (c.unsigned ==> v >= 0)
    requires base == c.base || (base == 0 && c.alt && c.base != 10)
    ensures Spelled(Printed(c, v), base) == v
  {
    hide Spelled, ValueOf, Body, Digit, IsSpace, Preface;
    var body := Body(c, v);
    var p := Preface(c, v < 0, v != 0);
    PrefaceIs(c, v);
    BlankIsNoDigit();
    var a, z := PadSpaces(c, c.prec, |body|, |p|), PadZeros(c, c.prec, |body|, |p|);
    var m := Repeat(ZERO, z) + body;
    var t := if c.minus then c.width - |Lead(c, c.prec, |body|, v < 0, v != 0)| - |body| else 0;
    assert Printed(c, v) == Repeat(SPACE, Max(a, 0)) + p + m + Repeat(SPACE, Max(t, 0)) by {
      FieldParts(c, v, a, p, z, body, t);
    }
    var b := if v == 0 && base == 0 then 8 else c.base;
    FieldValue(c, v, z, b);
    if m == [] {
      ReadsNothing(Printed(c, v), base);
    } else if p != [] && p[0] == ZERO {
      ReadsPrefixed(Max(a, 0), p, m, Max(t, 0), base, b);
    } else {
      ReadsSigned(Max(a, 0), p, m, Max(t, 0), base, b);
    }
  }

  lemma FieldParts(c: Conv, v: int, a: int, p: Text, z: nat, body: Text, t: int)
    requires IsConv(c) && body == Body(c, v) && p == Preface(c, v < 0, v != 0)
    requires a == PadSpaces(c, c.prec, |body|, |p|) && z == PadZeros(c, c.prec, |body|, |p|)
    requires t == if c.minus then c.width - |Lead(c, c.prec, |body|, v < 0, v != 0)| - |body| else 0
    ensures Printed(c, v) == Repeat(SPACE, Max(a, 0)) + p + (Repeat(ZERO, z) + body) + Repeat(SPACE, Max(t, 0))
  {
    hide Body, Preface, PadSpaces, PadZeros;
    assert Repeat(SPACE, a) == Repeat(SPACE, Max(a, 0)) && Repeat(SPACE, t) == Repeat(SPACE, Max(t, 0));
    var x, y := Repeat(SPACE, Max(a, 0)), Repeat(ZERO, z);
    assert (x + p + y) + body == x + p + (y + body);
  }

  /** In the signed type of either width, the least number included, the value survives. */
  lemma RoundTripSigned(c: Conv, v: int, bits: nat)
    requires IsConv(c) && !c.unsigned && Width(bits) && -Half(bits) <= v < Half(bits)
    ensures Clamp(Spelled(Printed(c, v), 10), -Half(bits), Half(bits) - 1) == v
  {
    hide Spelled, Printed;
    RoundTrip(c, v, 10);
  }

  /** In the unsigned type, too, in the base of the conversion or, with its prefix, in base 0. */
  lemma RoundTripUnsigned(c: Conv, v: int, bits: nat, base: int)
    requires IsConv(c) && c.unsigned && Width(bits) && 0 <= v < Top(bits)
    requires base == c.base || (base == 0 && c.alt && c.base != 10)
    ensures var r := Spelled(Printed(c, v), base);
            -Top(bits) < r < Top(bits) && r % Top(bits) == v
  {
    hide Spelled, Printed, Top;
    RoundTrip(c, v, base);
    SmallMod(v, Top(bits));
  }

  // ----- decimals in base 0 -----

  /** Without a prefix, the first digit decides between decimal and octal. */
  lemma ReadsInBaseZero(a: nat, p: Text, m: Text, t: nat, b: nat, e: nat)
    requires m != [] && Ordinary(m) && b == (if m[0] == ZERO then 8 else 10)
    requires e <= |m| && AllDigits(m[..e], b) && (e < |m| ==> !IsDigit(m[e], b))
    requires p == [] || p == [PLUS] || p == [MINUS] || p == [SPACE]
    ensures Spelled(Repeat(SPACE, a) + p + m + Repeat(SPACE, t), 0)
         == if p == [MINUS] then 0 - ValueOf(m[..e], 0, e, b) as int else ValueOf(m[..e], 0, e, b) as int
  {
    hide Spelled, ValueOf, SkipSpaces, Digit, Repeat;
    BlankIsNoDigit();
    Layout(a, p, m, t);
    Blank(t);
    Resplit(Repeat(SPACE, a) + p, m, Repeat(SPACE, t), e);
    var k := SignAt(a, p, m, t);
    ReadsNumber(Repeat(SPACE, a) + p, m[..e], m[e..] + Repeat(SPACE, t), k, a + |p|, 0, b);
  }

  lemma Resplit(pre: Text, m: Text, post: Text, e: nat)
    requires e <= |m|
    ensures pre + m + post == pre + m[..e] + (m[e..] + post)
    ensures m[e..] + post == [] || (m[e..] + post)[0] == (if e < |m| then m[e] else post[0])
  {
  }

  lemma {:induction false} LeadingDigit(v: nat)
    requires v > 0
    ensures Digits(v, 10, false)[0] != ZERO && Digits(v, 10, true)[0] != ZERO
    decreases v
  {
    DivShrinks(v, 10);
    if v / 10 > 0 {
      LeadingDigit(v / 10);
    } else {
      assert v % 10 == v;
    }
  }

  /** Read as octal, decimal digits give less, unless there is but one that counts. */
  lemma {:induction false} OctalIsLess(m: Text, e: nat, k: nat)
    requires e <= k <= |m| && AllDigits(m, 10) && AllDigits(m[..e], 8) && (e < |m| ==> !IsDigit(m[e], 8))
    ensures ValueOf(m, 0, e, 8) <= ValueOf(m, 0, k, 10)
    ensures ValueOf(m, 0, e, 8) == ValueOf(m, 0, k, 10) <==> ValueOf(m, 0, k, 10) < 8
    ensures k > e ==> ValueOf(m, 0, k, 10) >= 8
    decreases k
  {
    if k == e {
      OctalPrefix(m, e);
    } else {
      OctalIsLess(m, e, k - 1);
    }
  }

  lemma SameStart(m: Text, e: nat)
    requires e < |m| && AllDigits(m[..e + 1], 8)
    ensures AllDigits(m[..e], 8)
  {
    forall i | 0 <= i < e ensures IsDigit(m[..e][i], 8) {
      assert m[..e][i] == m[..e + 1][i];
    }
  }

  lemma {:induction false} OctalPrefix(m: Text, e: nat)
    requires e <= |m| && AllDigits(m[..e], 8)
    ensures ValueOf(m, 0, e, 8) <= ValueOf(m, 0, e, 10)
    ensures ValueOf(m, 0, e, 8) == ValueOf(m, 0, e, 10) <==> ValueOf(m, 0, e, 10) < 8
    decreases e
  {
    if e > 0 {
      assert IsDigit(m[..e][e - 1], 8);
      SameStart(m, e - 1);
      OctalPrefix(m, e - 1);
    }
  }

  /** Digits that are not all zeros in front read in base 0. */
  lemma FieldInBaseZero(a: nat, p: Text, m: Text, t: nat, v: nat)
    requires m != [] && Ordinary(m) && AllDigits(m, 10) && ValueOf(m, 0, |m|, 10) == v
    requires p == [] || p == [PLUS] || p == [MINUS] || p == [SPACE]
    ensures Spelled(Repeat(SPACE, a) + p + m + Repeat(SPACE, t), 0) == (if p == [MINUS] then 0 - v as int else v as int)
       <==> v < 8 || m[0] != ZERO
  {
    hide Spelled, ValueOf, Digit, IsSpace, Repeat, RunEnd;
    var b := if m[0] == ZERO then 8 else 10;
    var e := RunEnd(m, 0, b);
    assert AllDigits(m[..e], b);
    ReadsInBaseZero(a, p, m, t, b, e);
    SameValue(m, e, b);
    if b == 8 {
      OctalIsLess(m, e, |m|);
    } else {
      WholeRun(m, e);
    }
  }

  /** What d and u print is read back in base 0 if and only if no zeros lead, or the value has but one octal
      digit: with leading zeros it is taken for octal. */
  lemma DecimalInBaseZero(c: Conv, v: int)
    requires IsConv(c) && c.base == 10 && (c.unsigned ==> v >= 0)
    ensures Spelled(Printed(c, v), 0) == v
       <==> Abs(v) < 8 || PadZeros(c, c.prec, |Body(c, v)|, |Preface(c, v < 0, v != 0)|) == 0
  {
    hide Spelled, ValueOf, Body, Digit, IsSpace, Preface, PadZeros, PadSpaces, Repeat, Lead, Printed;
    var body, p := Body(c, v), Preface(c, v < 0, v != 0);
    var a, z := PadSpaces(c, c.prec, |body|, |p|), PadZeros(c, c.prec, |body|, |p|);
    var m := Repeat(ZERO, z) + body;
    var t := if c.minus then c.width - |Lead(c, c.prec, |body|, v < 0, v != 0)| - |body| else 0;
    PrefaceIs(c, v);
    FieldParts(c, v, a, p, z, body, t);
    FieldValue(c, v, z, 10);
    if m == [] {
      BlankIsNoDigit();
      ReadsNothing(Printed(c, v), 0);
    } else {
      FirstOfField(c, v, z);
      FieldInBaseZero(Max(a, 0), p, m, Max(t, 0), Abs(v));
    }
  }

  lemma FirstOfField(c: Conv, v: int, z: nat)
    requires IsConv(c) && c.base == 10 && Repeat(ZERO, z) + Body(c, v) != []
    ensures (Repeat(ZERO, z) + Body(c, v))[0] == ZERO <==> z > 0 || v == 0
  {
    if v != 0 {
      LeadingDigit(Abs(v));
    }
  }

  lemma SameValue(m: Text, e: nat, b: nat)
    requires e <= |m|
    ensures ValueOf(m[..e], 0, e, b) == ValueOf(m, 0, e, b)
  {
    ValueInside([], m[..e], m[e..], e, b);
    ValueInside([], m[..e], [], e, b);
    assert [] + m[..e] + m[e..] == m && [] + m[..e] + [] == m[..e];
  }

  lemma WholeRun(m: Text, e: nat)
    requires AllDigits(m, 10) && e == RunEnd(m, 0, 10)
    ensures e == |m|
  {
    RunsTo(m, 0, |m|, 10);
  }

  // ----- a whole format -----

  /** A character of the format that is copied, or an integer conversion with its argument. */
  datatype Piece = Verbatim(c: Ch) | Integer(conv: Conv, value: int)

  predicate Formats(format: seq<Piece>) {
    forall k :: 0 <= k < |format| ==> format[k].Integer? ==> 2 <= format[k].conv.base <= 16
  }

  function PieceText(p: Piece): Text
    requires p.Integer? ==> 2 <= p.conv.base <= 16
  {
    match p
    case Verbatim(c) => [c]
    case Integer(conv, value) => Printed(conv, value)
  }

  /** What the first k pieces print. */
  function Written(format: seq<Piece>, k: nat): Text
    requires k <= |format| && Formats(format)
  {
    if k == 0 then [] else Written(format, k - 1) + PieceText(format[k - 1])
  }

  /** Some conversion among the first k pieces ends at the limit or behind it. */
  predicate CutAt(format: seq<Piece>, k: nat, n: nat)
    requires k <= |format| && Formats(format)
  {
    n > 0 && exists j :: 1 <= j <= k && format[j - 1].Integer? && |Written(format, j)| >= n
  }

  /** vsnprintf answers the full length; the buffer holds as much of the text as its limit lets in.  A text
      shorter than the limit is ended with a zero; a longer one, whose last cell then gives way to the zero,
      if and only if some conversion ends at the limit or behind it.  (Section 7.21.6.5 of ISO/IEC 9899:2011
      wants a zero at all times: a format that overflows with verbatim characters gets none.) */
  method Vsnprintf(s: array<Ch>, n: nat, format: seq<Piece>) returns (r: nat)
    requires n <= s.Length && Formats(format)
    modifies s
    ensures var text := Written(format, |format|);
            && r == |text|
            && (forall k :: 0 <= k < r && k < n - 1 ==> s[k] == text[k])
            && (r < n ==> s[r] == 0 && forall k :: 0 <= k < r ==> s[k] == text[k])
            && (r >= n > 0 ==> s[n - 1] == if CutAt(format, |format|, n) then 0 else text[n - 1])
    ensures forall k :: r < k < s.Length || n <= k < s.Length ==> s[k] == old(s[k])
  {
    hide Printed;
    var status := new Printer(s, n, Conv(10, false, false, false, false, false, false, false, 0, -1));
    var k := 0;
    while k < |format|
      invariant 0 <= k <= |format| && fresh(status) && status.s == s && status.n == n && status.Shows()
      invariant status.out == Written(format, k) && (status.cut <==> CutAt(format, k, n))
      invariant forall j :: |status.out| <= j < s.Length || n <= j < s.Length ==> s[j] == old(s[j])
    {
      var piece := format[k];
      k := k + 1;
      if piece.Verbatim? {
        status.Put(piece.c);
      } else {
        status.Print(piece.conv, piece.value);
      }
    }
    if status.i < n {
      s[status.i] := 0;
    }
    r := status.i;
  }
}
