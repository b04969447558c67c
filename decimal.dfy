/**
 * Decimal digit strings: their numeric value, `strconv.Atoi` restricted to
 * what the version parser can hand it, `%d` formatting, and trimming of
 * leading zeros.
 */
module Decimal {
  import opened Wrappers
  import opened Strings

  /** True when every character is an ASCII digit; the empty string qualifies. */
  predicate IsAsciiDigits(s: string)
  {
    forall i :: 0 <= i < |s| ==> '0' <= s[i] <= '9'
  }

  function DigitValue(c: char): (d: nat)
    requires '0' <= c <= '9'
    ensures d < 10
  {
    (c as int) - ('0' as int)
  }

  function DigitChar(d: nat): (c: char)
    requires d < 10
    ensures '0' <= c <= '9' && DigitValue(c) == d
  {
    ('0' as int + d) as char
  }

  function Pow10(n: nat): (p: nat)
    ensures p >= 1
  {
    if n == 0 then 1 else 10 * Pow10(n - 1)
  }

  /** The number an ASCII digit string denotes, read most significant digit first. */
  function Value(s: string): nat
    requires IsAsciiDigits(s)
    decreases |s|
  {
    if s == [] then 0 else Value(s[..|s| - 1]) * 10 + DigitValue(s[|s| - 1])
  }

  /**
   * `strconv.Atoi` on a field the version grammar accepted.  Such a field
   * never holds a sign, and at nine digits it never overflows, so Atoi
   * succeeds exactly on non-empty ASCII digit strings; `None` is the error
   * on which the source panics.
   */
  function Atoi(s: string): (r: Option<nat>)
    ensures r.Some? <==> s != [] && IsAsciiDigits(s)
  {
    if s != [] && IsAsciiDigits(s) then Some(Value(s)) else None
  }

  /** The digits of `n` without leading zeros, as `%d` prints them. */
  function Digits(n: nat): (s: string)
    ensures s != [] && IsAsciiDigits(s)
    decreases n
  {
    if n < 10 then [DigitChar(n)] else Digits(n / 10) + [DigitChar(n % 10)]
  }

  /** `%d` on a Go `int`. */
  function FormatInt(n: int): (s: string)
    ensures s != [] && (s[0] == '-' <==> n < 0)
    ensures n >= 0 ==> Atoi(s) == Some(n)
  {
    if n < 0 then "-" + Digits(-n)
    else
      ValueOfDigits(n);
      Digits(n)
  }

  /** `strings.TrimLeft(s, "0")`. */
  function TrimZeros(s: string): (t: string)
    ensures |t| <= |s|
    ensures t == [] || t[0] != '0'
    decreases |s|
  {
    if s != [] && s[0] == '0' then TrimZeros(s[1..]) else s
  }

  /** Formatting then converting gives the number back: `%d` and Atoi are inverse. */
  lemma {:induction false} ValueOfDigits(n: nat)
    ensures Value(Digits(n)) == n
    ensures Atoi(Digits(n)) == Some(n)
    decreases n
  {
    var s := Digits(n);
    if n >= 10 {
      ValueOfDigits(n / 10);
      assert s[..|s| - 1] == Digits(n / 10);
    }
  }

  /** A number below `10^k` prints in at most `k` digits (and always in at least one). */
  lemma {:induction false} DigitsLength(n: nat, k: nat)
    requires n < Pow10(k)
    ensures |Digits(n)| <= if k == 0 then 1 else k
    decreases n
  {
    if n >= 10 {
      assert k != 0 && k != 1 by {
        assert Pow10(0) == 1;
        assert Pow10(1) == 10;
      }
      assert n / 10 < Pow10(k - 1);
      DigitsLength(n / 10, k - 1);
    }
  }

  /** `%d` never prints a leading zero except for zero itself. */
  lemma {:induction false} DigitsNoLeadingZero(n: nat)
    ensures Digits(n)[0] == '0' <==> n == 0
    decreases n
  {
    if n >= 10 {
      DigitsNoLeadingZero(n / 10);
      assert Digits(n)[0] == Digits(n / 10)[0];
    }
  }

  lemma {:induction false} ValueBelowPow10(s: string)
    requires IsAsciiDigits(s)
    ensures Value(s) < Pow10(|s|)
    decreases |s|
  {
    if s != [] {
      var init := s[..|s| - 1];
      ValueBelowPow10(init);
      assert Value(init) + 1 <= Pow10(|s| - 1);
      assert Value(s) == Value(init) * 10 + DigitValue(s[|s| - 1]);
    }
  }

  /** Reading from the left: the first digit weighs `10^(|s|-1)`. */
  lemma {:induction false} ValueFromLeft(s: string)
    requires s != [] && IsAsciiDigits(s)
    ensures Value(s) == DigitValue(s[0]) * Pow10(|s| - 1) + Value(s[1..])
    decreases |s|
  {
    if |s| > 1 {
      var init := s[..|s| - 1];
      ValueFromLeft(init);
      assert init[1..] == s[1..][..|s| - 2];
      assert s[1..][|s| - 2] == s[|s| - 1];
      assert Value(s[1..]) == Value(init[1..]) * 10 + DigitValue(s[|s| - 1]);
      ShiftDigit(DigitValue(s[0]), Pow10(|s| - 2), Value(init[1..]), DigitValue(s[|s| - 1]));
    } else {
      assert s[1..] == [];
    }
  }

  lemma ShiftDigit(d: nat, p: nat, v: nat, e: nat)
    ensures (d * p + v) * 10 + e == d * (10 * p) + (v * 10 + e)
  {
  }

  /** A leading zero does not change the value. */
  lemma {:induction false} ValueLeadingZero(s: string)
    requires s != [] && s[0] == '0' && IsAsciiDigits(s)
    ensures Value(s) == Value(s[1..])
    decreases |s|
  {
    if |s| > 1 {
      var init := s[..|s| - 1];
      ValueLeadingZero(init);
      assert init[1..] == s[1..][..|s| - 2];
      assert s[1..][|s| - 2] == s[|s| - 1];
    } else {
      assert s[1..] == [];
    }
  }

  /** Leading zeros do not change the value. */
  lemma {:induction false} TrimZerosValue(s: string)
    requires IsAsciiDigits(s)
    ensures IsAsciiDigits(TrimZeros(s)) && Value(TrimZeros(s)) == Value(s)
    decreases |s|
  {
    if s != [] && s[0] == '0' {
      TrimZerosValue(s[1..]);
      ValueLeadingZero(s);
    }
  }

  /** A digit string without a leading zero has at least `|s|` digits' worth of value. */
  lemma ValueAtLeast(s: string)
    requires s != [] && IsAsciiDigits(s) && s[0] != '0'
    ensures Value(s) >= Pow10(|s| - 1)
  {
    ValueFromLeft(s);
    assert DigitValue(s[0]) >= 1;
  }

  lemma {:induction false} Pow10Monotone(i: nat, j: nat)
    requires i <= j
    ensures Pow10(i) <= Pow10(j)
    decreases j
  {
    if i < j {
      Pow10Monotone(i, j - 1);
    }
  }

  /** Between equal-length digit strings, a smaller first digit means a smaller value. */
  lemma FirstDigitDecides(a: string, b: string)
    requires |a| == |b| && a != [] && IsAsciiDigits(a) && IsAsciiDigits(b)
    requires a[0] < b[0]
    ensures Value(a) < Value(b)
  {
    ValueFromLeft(a);
    ValueFromLeft(b);
    ValueBelowPow10(a[1..]);
    WeightedDigits(DigitValue(a[0]), DigitValue(b[0]), Pow10(|a| - 1), Value(a[1..]), Value(b[1..]));
  }

  lemma WeightedDigits(da: nat, db: nat, p: nat, x: nat, y: nat)
    requires da < db && x < p
    ensures da * p + x < db * p + y
  {
    var k := db - da;
    assert db * p == da * p + k * p;
    assert k * p >= p by {
      assert k * p == (k - 1) * p + p;
    }
  }

  /**
   * For digit strings of equal length, string order is numeric order, and
   * equal values mean equal strings.
   */
  lemma {:induction false} SameLengthOrder(a: string, b: string)
    requires |a| == |b| && IsAsciiDigits(a) && IsAsciiDigits(b)
    ensures Value(a) == Value(b) <==> a == b
    ensures Value(a) < Value(b) <==> LexLess(a, b)
    decreases |a|
  {
    if a != [] {
      if a[0] == b[0] {
        SameLengthOrder(a[1..], b[1..]);
        ValueFromLeft(a);
        ValueFromLeft(b);
        if Value(a) == Value(b) {
          assert a == [a[0]] + a[1..] && b == [b[0]] + b[1..];
        }
      } else if a[0] < b[0] {
        FirstDigitDecides(a, b);
      } else {
        FirstDigitDecides(b, a);
      }
    }
  }
}
