/** Strings as the program uses them: byte order, prefixes, and the two number
    formats `%d` and `%0wd` that go into label names and object keys. */
module Text {
  datatype Option<+T> = None | Some(value: T)

  /** The same values, none of them missing. */
  function Present<T>(s: seq<T>): (t: seq<Option<T>>)
    ensures |t| == |s| && forall i :: 0 <= i < |s| ==> t[i] == Some(s[i])
  {
    seq(|s|, i requires 0 <= i < |s| => Some(s[i]))
  }

  /** Go's `<` on strings. */
  predicate Less(a: string, b: string) {
    |b| > 0 && (|a| == 0 || a[0] < b[0] || (a[0] == b[0] && Less(a[1..], b[1..])))
  }

  lemma {:induction false} LessAsymmetric(a: string, b: string)
    requires Less(a, b)
    ensures !Less(b, a) && a != b
  {
    if |a| > 0 && a[0] == b[0] {
      LessAsymmetric(a[1..], b[1..]);
    }
  }

  lemma {:induction false} LessTransitive(a: string, b: string, c: string)
    requires Less(a, b) && Less(b, c)
    ensures Less(a, c)
  {
    if |a| > 0 && a[0] == b[0] && b[0] == c[0] {
      LessTransitive(a[1..], b[1..], c[1..]);
    }
  }

  lemma {:induction false} LessTotal(a: string, b: string)
    ensures a == b || Less(a, b) || Less(b, a)
  {
    if |a| > 0 && |b| > 0 && a[0] == b[0] {
      LessTotal(a[1..], b[1..]);
      assert a == [a[0]] + a[1..] && b == [b[0]] + b[1..];
    }
  }

  /** Comparing strings that start with fields of equal width compares the fields first. */
  lemma {:induction false} LessOfConcat(a: string, b: string, x: string, y: string)
    requires |a| == |b|
    ensures Less(a + x, b + y) <==> Less(a, b) || (a == b && Less(x, y))
  {
    if a == [] {
      assert a + x == x && b + y == y;
    } else {
      assert (a + x)[1..] == a[1..] + x && (b + y)[1..] == b[1..] + y;
      LessOfConcat(a[1..], b[1..], x, y);
      assert a == [a[0]] + a[1..] && b == [b[0]] + b[1..];
    }
  }

  predicate HasPrefix(s: string, prefix: string) {
    prefix <= s
  }

  predicate IsDigit(c: char) {
    '0' <= c <= '9'
  }

  predicate AllDigits(s: string) {
    forall i :: 0 <= i < |s| ==> IsDigit(s[i])
  }

  function Digit(d: nat): (c: char)
    requires d < 10
    ensures IsDigit(c)
  {
    ('0' as int + d) as char
  }

  lemma {:induction false} DigitOrder(d: nat, e: nat)
    requires d < 10 && e < 10
    ensures Digit(d) < Digit(e) <==> d < e
    ensures Digit(d) == Digit(e) <==> d == e
  {
    assert Digit(d) as int == '0' as int + d && Digit(e) as int == '0' as int + e;
  }

  /** `%d` of a non-negative number. */
  function Decimal(n: nat): (s: string)
    ensures |s| > 0 && AllDigits(s)
  {
    if n < 10 then [Digit(n)] else Decimal(n / 10) + [Digit(n % 10)]
  }

  lemma {:induction false} DecimalInjective(m: nat, n: nat)
    requires Decimal(m) == Decimal(n)
    ensures m == n
  {
    if m < 10 && n < 10 {
      DigitOrder(m, n);
    } else if m >= 10 && n >= 10 {
      var a, b := Decimal(m / 10), Decimal(n / 10);
      assert a == (a + [Digit(m % 10)])[..|Decimal(m)| - 1] == b;
      assert Decimal(m)[|a|] == Digit(m % 10) && Decimal(n)[|b|] == Digit(n % 10);
      DecimalInjective(m / 10, n / 10);
      DigitOrder(m % 10, n % 10);
    } else {
      assert false;
    }
  }

  /** A run of digits is recovered from a string in which a non-digit (or the end) follows it. */
  lemma {:induction false} DigitsThenRest(a: string, x: string, b: string, y: string)
    requires AllDigits(a) && AllDigits(b)
    requires x == [] || !IsDigit(x[0])
    requires y == [] || !IsDigit(y[0])
    requires a + x == b + y
    ensures a == b && x == y
  {
    var s := a + x;
    assert |a| < |s| ==> s[|a|] == x[0];
    assert |b| < |s| ==> s[|b|] == y[0];
    assert forall i :: 0 <= i < |a| ==> s[i] == a[i];
    assert forall i :: 0 <= i < |b| ==> s[i] == b[i];
    assert a == (a + x)[..|a|] == (b + y)[..|b|] == b;
    assert x == (a + x)[|a|..] == (b + y)[|b|..] == y;
  }

  function Pow10(w: nat): (p: nat)
    ensures p > 0
  {
    if w == 0 then 1 else 10 * Pow10(w - 1)
  }

  function Zeros(k: nat): string {
    if k == 0 then "" else ['0'] + Zeros(k - 1)
  }

  /** `%0wd` of a non-negative number: `%d`, padded on the left to at least `w` characters. */
  function Padded(n: nat, w: nat): string {
    var d := Decimal(n);
    if |d| >= w then d else Zeros(w - |d|) + d
  }

  /** The last `w` decimal digits of `n`. */
  function FixedWidth(n: nat, w: nat): (s: string)
    ensures |s| == w && AllDigits(s)
  {
    if w == 0 then "" else FixedWidth(n / 10, w - 1) + [Digit(n % 10)]
  }

  lemma {:induction false} FixedWidthZero(w: nat)
    ensures FixedWidth(0, w) == Zeros(w)
  {
    if w > 0 {
      FixedWidthZero(w - 1);
      ZerosAppend(w - 1);
    }
  }

  lemma {:induction false} ZerosAppend(k: nat)
    ensures Zeros(k) + ['0'] == ['0'] + Zeros(k) == Zeros(k + 1)
  {
    if k > 0 {
      ZerosAppend(k - 1);
      assert Zeros(k) + ['0'] == ['0'] + (Zeros(k - 1) + ['0']);
    }
  }

  /** A number that fits is printed with exactly `w` digits. */
  lemma {:induction false} PaddedIsFixedWidth(n: nat, w: nat)
    requires w > 0 && n < Pow10(w)
    ensures Padded(n, w) == FixedWidth(n, w)
  {
    if n < 10 {
      assert FixedWidth(n, w) == FixedWidth(0, w - 1) + [Digit(n)];
      FixedWidthZero(w - 1);
      assert Zeros(0) + [Digit(n)] == [Digit(n)];
    } else {
      PaddedIsFixedWidth(n / 10, w - 1);
      var d := Decimal(n / 10);
      var z := if |d| >= w - 1 then "" else Zeros(w - 1 - |d|);
      assert FixedWidth(n / 10, w - 1) == z + d;
      assert z + (d + [Digit(n % 10)]) == (z + d) + [Digit(n % 10)];
      assert Zeros(0) + Decimal(n) == Decimal(n);
    }
  }

  /** Zero padding makes string order agree with numeric order. */
  lemma {:induction false} FixedWidthOrder(m: nat, n: nat, w: nat)
    requires m < Pow10(w) && n < Pow10(w)
    ensures Less(FixedWidth(m, w), FixedWidth(n, w)) <==> m < n
    ensures FixedWidth(m, w) == FixedWidth(n, w) <==> m == n
  {
    if w > 0 {
      var a, b := FixedWidth(m / 10, w - 1), FixedWidth(n / 10, w - 1);
      var x, y := [Digit(m % 10)], [Digit(n % 10)];
      FixedWidthOrder(m / 10, n / 10, w - 1);
      DigitOrder(m % 10, n % 10);
      LessOfConcat(a, b, x, y);
      assert a == (a + x)[..w - 1] && b == (b + y)[..w - 1];
      assert x == (a + x)[w - 1..] && y == (b + y)[w - 1..];
    }
  }

  /** The number that a run of decimal digits stands for. */
  function Value(s: string): nat
    requires AllDigits(s)
  {
    if s == "" then 0 else 10 * Value(s[..|s| - 1]) + (s[|s| - 1] as int - '0' as int)
  }

  lemma {:induction false} ValueOfDecimal(n: nat)
    ensures Value(Decimal(n)) == n
  {
    if n >= 10 {
      ValueOfDecimal(n / 10);
      assert Decimal(n)[..|Decimal(n)| - 1] == Decimal(n / 10);
    } else {
      assert Decimal(n)[..0] == "";
    }
  }

  lemma {:induction false} ValueOfZeros(k: nat)
    ensures AllDigits(Zeros(k)) && Value(Zeros(k)) == 0
  {
    if k > 0 {
      ValueOfZeros(k - 1);
      ZerosAppend(k - 1);
      var z := Zeros(k - 1);
      assert Zeros(k) == z + ['0'] && (z + ['0'])[..|z + ['0']| - 1] == z;
    }
  }

  lemma {:induction false} ValueAfterZeros(k: nat, s: string)
    requires AllDigits(s)
    ensures AllDigits(Zeros(k) + s) && Value(Zeros(k) + s) == Value(s)
  {
    ValueOfZeros(k);
    if s == "" {
      assert Zeros(k) + s == Zeros(k);
    } else {
      ValueAfterZeros(k, s[..|s| - 1]);
      assert (Zeros(k) + s)[..|Zeros(k) + s| - 1] == Zeros(k) + s[..|s| - 1];
    }
  }

  /** `%0wd` prints different numbers differently, also those that are wider than `w`. */
  lemma {:induction false} PaddedInjective(m: nat, n: nat, w: nat)
    requires Padded(m, w) == Padded(n, w)
    ensures m == n
  {
    ValueOfPadded(m, w);
    ValueOfPadded(n, w);
  }

  lemma {:induction false} ValueOfPadded(n: nat, w: nat)
    ensures AllDigits(Padded(n, w)) && Value(Padded(n, w)) == n
  {
    ValueOfDecimal(n);
    if |Decimal(n)| < w {
      ValueAfterZeros(w - |Decimal(n)|, Decimal(n));
    }
  }

  /** The texts agree before position `k`, and there the first one ends or has the smaller character. */
  predicate SmallerAt(a: string, b: string, k: nat) {
    k < |b| && k <= |a| && a[..k] == b[..k] && (k == |a| || a[k] as int < b[k] as int)
  }

  lemma {:induction false} SmallerAtShifts(a: string, b: string, k: nat)
    requires a != [] && b != [] && a[0] == b[0]
    ensures SmallerAt(a, b, k + 1) <==> SmallerAt(a[1..], b[1..], k)
  {
    if k < |b| - 1 && k <= |a| - 1 {
      assert a[..k + 1] == [a[0]] + a[1..][..k] && b[..k + 1] == [b[0]] + b[1..][..k];
      assert a[1..][..k] == a[..k + 1][1..] && b[1..][..k] == b[..k + 1][1..];
    }
  }

  lemma {:induction false} SmallerLater(a: string, b: string, k: nat)
    requires SmallerAt(a, b, k) && k > 0
    ensures a != [] && b != [] && a[0] == b[0]
  {
    assert a[..k][0] == b[..k][0];
  }

  /** Go's order of strings, by the first position at which they differ. */
  lemma {:induction false} LessAtFirstDifference(a: string, b: string)
    ensures Less(a, b) <==> exists k: nat :: SmallerAt(a, b, k)
  {
    if a != [] && b != [] && a[0] == b[0] {
      LessAtFirstDifference(a[1..], b[1..]);
      if Less(a, b) {
        var k: nat :| SmallerAt(a[1..], b[1..], k);
        SmallerAtShifts(a, b, k);
      }
      forall k: nat | SmallerAt(a, b, k)
        ensures Less(a, b)
      {
        SmallerAtShifts(a, b, k - 1);
      }
    } else {
      forall k: nat | SmallerAt(a, b, k)
        ensures Less(a, b)
      {
        if k > 0 {
          SmallerLater(a, b, k);
        }
      }
      assert Less(a, b) ==> SmallerAt(a, b, 0);
    }
  }

  /** `%d` prints digits that stand for the number, with no zero in front. */
  lemma {:induction false} DecimalIsCanonical(n: nat)
    ensures AllDigits(Decimal(n)) && Value(Decimal(n)) == n
    ensures Decimal(n)[0] == '0' <==> n == 0
    ensures n == 0 ==> Decimal(n) == "0"
  {
    ValueOfDecimal(n);
    if n >= 10 {
      DecimalIsCanonical(n / 10);
    } else {
      assert Decimal(n)[0] as int == '0' as int + n;
    }
  }

  /** `%0wd` prints digits that stand for the number: `w` of them, or as many as `%d` if those are more. */
  lemma {:induction false} PaddedIsCanonical(n: nat, w: nat)
    ensures AllDigits(Padded(n, w)) && Value(Padded(n, w)) == n
    ensures |Padded(n, w)| == if |Decimal(n)| < w then w else |Decimal(n)|
  {
    ValueOfPadded(n, w);
    if |Decimal(n)| < w {
      ZerosLength(w - |Decimal(n)|);
    }
  }

  lemma {:induction false} ZerosLength(k: nat)
    ensures |Zeros(k)| == k
  {
    if k > 0 {
      ZerosLength(k - 1);
    }
  }
}
