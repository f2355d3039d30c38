/** What strtol and its like take for a number (section 7.22.1.4 of ISO/IEC 9899:2011): the longest part at
    the beginning of the input that has the form described there (diskfs/stdlib/_strtox.h). */
module Subjects {
  import opened Options
  import opened Powers
  import opened Strtox
  import opened Printf

  /** isspace (section 7.4.1.10): blank, form feed, new line, carriage return, and the two tabs. */
  predicate White(c: Ch) {
    c in [' ' as int, 0x0c, '\n' as int, '\r' as int, '\t' as int, 0x0b]
  }

  /** White space, a sign, a prefix and digits, with the base that the digits are in. */
  datatype Parts = Parts(blanks: Text, sign: Text, prefix: Text, digits: Text, base: nat)

  predicate HexPrefix(t: Text) {
    |t| == 2 && t[0] == ZERO && (t[1] == 'x' as int || t[1] == 'X' as int)
  }

  /** The form of a number when `base` is asked for: in base 0 that of a constant of the language. */
  predicate Form(p: Parts, base: int) {
    && (forall i :: 0 <= i < |p.blanks| ==> White(p.blanks[i]))
    && (p.sign == [] || p.sign == [PLUS] || p.sign == [MINUS])
    && (p.prefix == [] || (HexPrefix(p.prefix) && (base == 0 || base == 16)))
    && p.digits != [] && 2 <= p.base <= 36 && AllDigits(p.digits, p.base)
    && p.base == if base != 0 then base else if p.prefix != [] then 16 else if p.digits[0] == ZERO then 8 else 10
  }

  function Whole(p: Parts): Text {
    p.blanks + p.sign + p.prefix + p.digits
  }

  function NumberOf(p: Parts): int
    requires p.base >= 0
  {
    var v: int := ValueOf(p.digits, 0, |p.digits|, p.base);
    if p.sign == [MINUS] then -v else v
  }

  /** The text has the form, and the number is v. */
  ghost predicate Subject(t: Text, base: int, v: int) {
    exists p :: Form(p, base) && Whole(p) == t && NumberOf(p) == v
  }

  lemma WhiteIsSpace(c: Ch)
    ensures White(c) <==> IsSpace(c)
  {
  }

  /** The code starts at w behind the white space and at q behind the sign, and reads the digits from
      r.from to r.to. */
  predicate Starts(s: Text, base: int, w: nat, q: nat, r: Reading) {
    && w <= q <= r.from <= r.to <= |s| && (forall i :: 0 <= i < w ==> IsSpace(s[i]))
    && (q == w || (q == w + 1 && (s[w] == PLUS || s[w] == MINUS)))
    && (r.negative <==> q == w + 1 && s[w] == MINUS)
    && (r.from == q || (r.from == q + 2 && HexPrefix(s[q..r.from]) && r.base == 16 && (base == 0 || base == 16)))
    && 2 <= r.base <= 36 && (base != 0 ==> r.base == base)
    && AllDigits(s[r.from..r.to], r.base)
    && (base == 0 && r.from == q && r.to > q ==>
          if s[q] != ZERO then r.base == 10 else r.base == 8 || (r.base == 16 && r.to == q + 1))
  }

  lemma ReadStarts(s: Text, base: int)
    requires base == 0 || 2 <= base <= 36
    ensures Starts(s, base, SkipSpaces(s, 0), AfterSign(s, SkipSpaces(s, 0)), Read(s, base))
  {
    hide Digit, RunEnd, BaseAt, SkipSpaces;
    var r, w := Read(s, base), SkipSpaces(s, 0);
    var q := AfterSign(s, w);
    StartsInside(s, w, q, base);
    PrefixAt(s, q, base);
    SpacesSkipped(s);
    RunInside(s, r.from, r.base);
    if base == 0 && r.from == q && r.to > q && s[q] == ZERO && r.base == 16 {
      RunStops(s, q, q + 1, 16);
    }
  }

  lemma SpacesSkipped(s: Text)
    ensures SkipSpaces(s, 0) <= |s| && forall i :: 0 <= i < SkipSpaces(s, 0) ==> IsSpace(s[i])
  {
  }

  lemma RunInside(s: Text, p: nat, base: int)
    requires p <= |s|
    ensures p <= RunEnd(s, p, base) <= |s| && AllDigits(s[p..RunEnd(s, p, base)], base)
  {
  }

  lemma RunStops(s: Text, p: nat, k: nat, base: int)
    requires p <= k <= |s| && !IsDigit(At(s, k), base)
    ensures RunEnd(s, p, base) <= k
  {
  }

  lemma RunCovers(s: Text, p: nat, e: nat, b: int)
    requires p <= e <= |s| && forall i :: p <= i < e ==> IsDigit(s[i], b)
    ensures RunEnd(s, p, b) >= e
  {
  }

  /** What BaseAt finds at q. */
  lemma PrefixAt(s: Text, q: nat, base: int)
    requires q <= |s| && (base == 0 || 2 <= base <= 36)
    ensures var (b, from) := BaseAt(s, q, base);
            && (from == q || (from == q + 2 && from < |s| && HexPrefix(s[q..from]) && b == 16 && (base == 0 || base == 16)))
            && 2 <= b <= 36 && (base != 0 ==> b == base)
            && (base == 0 && from == q && At(s, q) != ZERO ==> b == 10)
            && (base == 0 && from == q && At(s, q) == ZERO ==> b == 8 || (b == 16 && !IsDigit(At(s, q + 1), 16)))
  {
    hide Digit;
    XIsNoDigit();
    EndIsNoDigit(16);
  }

  lemma EndIsNoDigit(b: nat)
    requires b <= 36
    ensures !IsDigit(0, b)
  {
  }

  lemma XIsNoDigit()
    ensures Digit('x' as int) == Digit('X' as int) == 33
  {
  }

  lemma ZeroIsDigit()
    ensures Digit(ZERO) == 0
  {
  }

  /** What the code reads has the form, if it reads anything. */
  lemma ReadHasForm(s: Text, base: int)
    requires (base == 0 || 2 <= base <= 36) && EndOf(s, base) > 0
    ensures EndOf(s, base) <= |s| && Subject(s[..EndOf(s, base)], base, Spelled(s, base))
  {
    hide ValueOf, Digit, Form, NumberOf, Read, Starts, SkipSpaces, AfterSign, PartsAt;
    var r, w := Read(s, base), SkipSpaces(s, 0);
    var q := AfterSign(s, w);
    ReadStarts(s, base);
    StartsOrdered(s, base, w, q, r);
    var p := PartsAt(s, base, w, q, r);
    PartsForm(s, base, w, q, r);
    PartsNumber(s, base, w, q, r);
    PartsWhole(s, base, w, q, r);
  }

  lemma StartsOrdered(s: Text, base: int, w: nat, q: nat, r: Reading)
    requires Starts(s, base, w, q, r)
    ensures w <= q <= r.from <= r.to <= |s| && 2 <= r.base <= 36
  {
  }

  function PartsAt(s: Text, base: int, w: nat, q: nat, r: Reading): Parts
    requires w <= q <= r.from <= r.to <= |s| && 0 <= r.base
  {
    Parts(s[..w], s[w..q], s[q..r.from], s[r.from..r.to], if base == 0 && r.from == q && At(s, q) == ZERO then 8 else r.base)
  }

  lemma PartsWhole(s: Text, base: int, w: nat, q: nat, r: Reading)
    requires w <= q <= r.from <= r.to <= |s| && 0 <= r.base
    ensures Whole(PartsAt(s, base, w, q, r)) == s[..r.to]
  {
  }

  lemma PartsForm(s: Text, base: int, w: nat, q: nat, r: Reading)
    requires (base == 0 || 2 <= base <= 36) && Starts(s, base, w, q, r) && r.from < r.to
    ensures Form(PartsAt(s, base, w, q, r), base)
  {
    hide Digit, White, IsSpace;
    var p := PartsAt(s, base, w, q, r);
    forall i | 0 <= i < w ensures White(p.blanks[i]) {
      WhiteIsSpace(s[i]);
    }
    assert p.digits[0] == s[r.from];
    if p.base != r.base {
      ZeroIsDigit();
      assert |p.digits| == 1;
    }
  }

  lemma PartsNumber(s: Text, base: int, w: nat, q: nat, r: Reading)
    requires Starts(s, base, w, q, r) && r.from < r.to && r == Read(s, base)
    ensures NumberOf(PartsAt(s, base, w, q, r)) == Spelled(s, base)
  {
    hide ValueOf, Digit, IsSpace, White, HexPrefix, AllDigits, Read;
    var p := PartsAt(s, base, w, q, r);
    SameValue(s, r.from, r.to, p.base, r.base);
  }

  lemma SameValue(s: Text, from: nat, to: nat, a: nat, b: nat)
    requires from < to <= |s| && (a == b || (to == from + 1 && s[from] == ZERO))
    ensures ValueOf(s[from..to], 0, to - from, a) == ValueOf(s, from, to, b)
  {
    hide ValueOf, Digit;
    var m := s[from..to];
    assert s == s[..from] + m + s[to..];
    ValueInside(s[..from], m, s[to..], to - from, b);
    if a != b {
      OneZero(m, a);
      OneZero(m, b);
    }
  }

  lemma OneZero(t: Text, b: nat)
    requires |t| == 1 && t[0] == ZERO
    ensures ValueOf(t, 0, 1, b) == 0
  {
    ZeroIsDigit();
    assert ValueOf(t, 0, 0, b) == 0;
  }

  /** Nothing longer at the beginning of the input has the form. */
  lemma NothingLonger(s: Text, base: int, p: Parts, e: nat)
    requires (base == 0 || 2 <= base <= 36) && e <= |s| && Form(p, base) && Whole(p) == s[..e]
    ensures e <= EndOf(s, base)
  {
    hide Digit, RunEnd, SkipSpaces, BaseAt, Form, Whole, AfterSign;
    var w := |p.blanks|;
    var q := w + |p.sign|;
    var f := q + |p.prefix|;
    WholeAt(s, p, e);
    FirstChars(s, base, p, e);
    StartFound(s, base, p, e);
    FromWhere(s, base, p, e);
    var (b, from) := BaseAt(s, q, base);
    RunInside(s, from, b);
    if from == f && b == p.base {
      RunCovers(s, f, e, b);
    }
  }

  /** The parts as they lie in the input. */
  lemma WholeAt(s: Text, p: Parts, e: nat)
    requires e <= |s| && Whole(p) == s[..e]
    ensures var w := |p.blanks|; var q := w + |p.sign|; var f := q + |p.prefix|;
            && f + |p.digits| == e && s[..w] == p.blanks && s[w..q] == p.sign && s[q..f] == p.prefix && s[f..e] == p.digits
  {
    var t := s[..e];
    var w := |p.blanks|;
    var q := w + |p.sign|;
    var f := q + |p.prefix|;
    LastPart(p.blanks + p.sign + p.prefix, p.digits, t);
    LastPart(p.blanks + p.sign, p.prefix, t[..f]);
    LastPart(p.blanks, p.sign, t[..f][..q]);
    assert s[f..e] == t[f..] && s[q..f] == t[..f][q..] && s[w..q] == t[..f][..q][w..] && s[..w] == t[..f][..q][..w];
  }

  lemma LastPart(a: Text, b: Text, t: Text)
    requires t == a + b
    ensures |t| == |a| + |b| && t[..|a|] == a && t[|a|..] == b
  {
  }

  /** The characters at which the parts begin. */
  lemma FirstChars(s: Text, base: int, p: Parts, e: nat)
    requires e <= |s| && Form(p, base) && Whole(p) == s[..e]
    ensures var w := |p.blanks|; var q := w + |p.sign|; var f := q + |p.prefix|;
            && w <= q <= f < e && (forall i :: 0 <= i < w ==> White(s[i])) && (forall i :: f <= i < e ==> IsDigit(s[i], p.base))
            && (q > w ==> s[w] == p.sign[0]) && (f > q ==> s[q] == ZERO && (s[q + 1] == 'x' as int || s[q + 1] == 'X' as int))
  {
    hide Digit;
    WholeAt(s, p, e);
    var w := |p.blanks|;
    var q := w + |p.sign|;
    var f := q + |p.prefix|;
    forall i | 0 <= i < w ensures White(s[i]) {
      assert s[i] == p.blanks[i];
    }
    forall i | f <= i < e ensures IsDigit(s[i], p.base) {
      assert s[i] == p.digits[i - f];
    }
    if q > w {
      assert s[w] == p.sign[0];
    }
    if f > q {
      assert s[q] == p.prefix[0] && s[q + 1] == p.prefix[1];
    }
  }

  /** A digit is not white space and no sign. */
  lemma DigitPlain(c: Ch, b: int)
    requires IsDigit(c, b) && b <= 36
    ensures !IsSpace(c) && c != PLUS && c != MINUS
  {
  }

  /** The code passes over the same white space and the same sign. */
  lemma StartFound(s: Text, base: int, p: Parts, e: nat)
    requires e <= |s| && Form(p, base) && Whole(p) == s[..e]
    ensures SkipSpaces(s, 0) == |p.blanks| && AfterSign(s, |p.blanks|) == |p.blanks| + |p.sign|
  {
    hide Digit, IsSpace, SkipSpaces, White;
    FirstChars(s, base, p, e);
    var w := |p.blanks|;
    var q := w + |p.sign|;
    var f := q + |p.prefix|;
    forall i | 0 <= i < w ensures IsSpace(s[i]) {
      WhiteIsSpace(s[i]);
    }
    SignsPlain();
    DigitPlain(s[f], p.base);
    SkipsTo(s, 0, w);
  }

  lemma SignsPlain()
    ensures !IsSpace(PLUS) && !IsSpace(MINUS) && !IsSpace(ZERO)
  {
  }

  /** The digits start at the same place in the same base; or the number is a zero with something like a
      prefix behind it. */
  lemma FromWhere(s: Text, base: int, p: Parts, e: nat)
    requires (base == 0 || 2 <= base <= 36) && e <= |s| && Form(p, base) && Whole(p) == s[..e]
    ensures var q := |p.blanks| + |p.sign|; var (b, from) := BaseAt(s, q, base);
            && from <= |s|
            && ((from == q + |p.prefix| && b == p.base)
                || (e == q + 1 && b == 16 && RunEnd(s, from, b) >= e && RunEnd(s, from, b) > from))
  {
    hide Digit, RunEnd, Whole, BaseAt;
    FirstChars(s, base, p, e);
    WholeAt(s, p, e);
    var q := |p.blanks| + |p.sign|;
    var f := q + |p.prefix|;
    assert s[f] == p.digits[0];
    if f > q {
      WithPrefix(s, q, base);
    } else if At(s, q) == ZERO && (base == 0 || base == 16) && (At(s, q + 1) == 'x' as int || At(s, q + 1) == 'X' as int) {
      XIsNoDigit();
      OneDigit(s, q, e, p.base);
      LikePrefix(s, q, base);
    } else {
      WithoutPrefix(s, q, base);
    }
  }

  lemma WithPrefix(s: Text, q: nat, base: int)
    requires q + 2 < |s| && s[q] == ZERO && (s[q + 1] == 'x' as int || s[q + 1] == 'X' as int) && IsDigit(s[q + 2], 16)
    requires base == 0 || base == 16
    ensures BaseAt(s, q, base) == (16, q + 2)
  {
  }

  /** A zero with something like a prefix behind it. */
  lemma LikePrefix(s: Text, q: nat, base: int)
    requires q < |s| && s[q] == ZERO && (At(s, q + 1) == 'x' as int || At(s, q + 1) == 'X' as int)
    requires base == 0 || base == 16
    ensures var (b, from) := BaseAt(s, q, base);
            b == 16 && from <= |s| && RunEnd(s, from, b) > from && RunEnd(s, from, b) >= q + 1
  {
    hide Digit, RunEnd;
    ZeroIsDigit();
    EndIsNoDigit(16);
    if IsDigit(At(s, q + 2), 16) {
      RunCovers(s, q + 2, q + 3, 16);
    } else {
      RunCovers(s, q, q + 1, 16);
    }
  }

  lemma WithoutPrefix(s: Text, q: nat, base: int)
    requires !(At(s, q) == ZERO && (base == 0 || base == 16) && (At(s, q + 1) == 'x' as int || At(s, q + 1) == 'X' as int))
    ensures BaseAt(s, q, base) == (if base != 0 then base else if At(s, q) == ZERO then 8 else 10, q)
  {
  }

  lemma OneDigit(s: Text, q: nat, e: nat, b: int)
    requires q < e <= |s| && q + 1 < |s| && (forall i :: q <= i < e ==> IsDigit(s[i], b)) && !IsDigit(s[q + 1], b)
    ensures e == q + 1
  {
  }

  /** Main result: what is read is the longest beginning of the input that has the form of a number, and
      gives that number; where nothing has, nothing is read, and the number is zero. */
  lemma LongestSubject(s: Text, base: int)
    requires base == 0 || 2 <= base <= 36
    ensures EndOf(s, base) <= |s|
    ensures EndOf(s, base) > 0 ==> Subject(s[..EndOf(s, base)], base, Spelled(s, base))
    ensures EndOf(s, base) == 0 ==> Spelled(s, base) == 0
    ensures forall e, v :: EndOf(s, base) < e <= |s| ==> !Subject(s[..e], base, v)
  {
    hide Form, Whole, NumberOf, EndOf, Spelled;
    NothingRead(s, base);
    if EndOf(s, base) > 0 {
      ReadHasForm(s, base);
    }
    forall e, v | EndOf(s, base) < e <= |s| ensures !Subject(s[..e], base, v) {
      if Subject(s[..e], base, v) {
        var p :| Form(p, base) && Whole(p) == s[..e] && NumberOf(p) == v;
        NothingLonger(s, base, p, e);
      }
    }
  }

  lemma NothingRead(s: Text, base: int)
    ensures EndOf(s, base) <= |s|
    ensures EndOf(s, base) == 0 ==> Spelled(s, base) == 0
  {
    var r := Read(s, base);
  }
}
