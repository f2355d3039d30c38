/** Strings of bytes ended by a zero, and the comparison of asmg/utils.g. */
module CString {

  type Byte = x: int | 0 <= x < 256

  /** The bytes before the terminator. */
  type Str = s: seq<Byte> | 0 !in s

  /** The i-th byte, the terminator included. */
  function At(s: Str, i: nat): Byte
    requires i <= |s|
  {
    if i < |s| then s[i] else 0
  }

  /** Alphabetical order of the bytes. */
  predicate Less(a: Str, b: Str) {
    b != [] && (a == [] || a[0] < b[0] || (a[0] == b[0] && Less(a[1..], b[1..])))
  }

  /** The first i bytes are the same, and the next one of a is the smaller; the terminator is smaller than all. */
  predicate Before(a: Str, b: Str, i: nat) {
    i <= |a| && i <= |b| && a[..i] == b[..i] && At(a, i) < At(b, i)
  }

  /** strcmp; 1 means that a comes first, the opposite of the C function of that name. */
  method Strcmp(a: Str, b: Str) returns (r: int)
    ensures r == Order(a, b)
    ensures r == 1 <==> exists i: nat :: Before(a, b, i)
    ensures r == -1 <==> exists i: nat :: Before(b, a, i)
    ensures r == 0 <==> a == b
  {
    LessTotal(a, b);
    LessMeans(a, b);
    LessMeans(b, a);
    var i := 0;
    assert a[0..] == a && b[0..] == b;
    while At(a, i) == At(b, i)
      invariant i <= |a| && i <= |b| && Order(a, b) == Order(a[i..], b[i..])
      decreases |a| - i
    {
      if At(a, i) == 0 {
        return 0;
      }
      assert a[i..][1..] == a[i + 1..] && b[i..][1..] == b[i + 1..];
      i := i + 1;
    }
    if At(a, i) < At(b, i) {
      r := 1;
    } else {
      r := -1;
    }
  }

  function Order(a: Str, b: Str): int {
    if a == b then 0 else if Less(a, b) then 1 else -1
  }

  /** Alphabetical order is decided at the first byte that differs. */
  lemma {:induction false} LessMeans(a: Str, b: Str)
    ensures Less(a, b) <==> exists i: nat :: Before(a, b, i)
    decreases |a|
  {
    forall i: nat | Before(a, b, i) && i > 0 ensures a != [] && b != [] && a[0] == b[0] && Before(a[1..], b[1..], i - 1) {
      BeforeRest(a, b, i);
    }
    if a != [] && b != [] && a[0] == b[0] {
      LessMeans(a[1..], b[1..]);
      if i: nat :| Before(a[1..], b[1..], i) {
        assert a[..i + 1] == [a[0]] + a[1..][..i] && b[..i + 1] == [b[0]] + b[1..][..i];
        assert Before(a, b, i + 1);
      }
    } else if Less(a, b) {
      assert Before(a, b, 0);
    }
  }

  lemma BeforeRest(a: Str, b: Str, i: nat)
    requires Before(a, b, i) && i > 0
    ensures a != [] && b != [] && a[0] == b[0] && Before(a[1..], b[1..], i - 1)
  {
    assert a[..i][0] == b[..i][0];
    assert a[1..][..i - 1] == a[..i][1..] && b[1..][..i - 1] == b[..i][1..];
  }

  lemma {:induction false} LessTrans(a: Str, b: Str, c: Str)
    requires Less(a, b) && Less(b, c)
    ensures Less(a, c)
    decreases |a|
  {
    if a != [] && a[0] == b[0] && b[0] == c[0] {
      LessTrans(a[1..], b[1..], c[1..]);
    }
  }

  lemma {:induction false} LessTotal(a: Str, b: Str)
    ensures Less(a, b) || a == b || Less(b, a)
    ensures !(Less(a, b) && Less(b, a)) && !Less(a, a)
    decreases |a|
  {
    if a != [] {
      LessTotal(a[1..], a[1..]);
      if b != [] && a[0] == b[0] {
        LessTotal(a[1..], b[1..]);
        if a[1..] == b[1..] {
          assert a == [a[0]] + a[1..] && b == [b[0]] + b[1..];
        }
      }
    }
  }
}
