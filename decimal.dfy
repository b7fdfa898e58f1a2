/** Decimal digit strings: Python's `str.isdigit`, `int(s)` and `str(n)` on
    natural numbers, restricted to the ASCII digits '0'..'9'. Both the
    checkpoint file (main.py:41, 46) and the like and comment counters
    (main.py:94, 97) go through these rules. */
module Decimal {

  predicate IsDigit(c: char) {
    '0' <= c <= '9'
  }

  /** `s.isdigit()`: true exactly when `s` is non-empty and all digits. */
  predicate IsDigitString(s: string) {
    |s| > 0 && forall i :: 0 <= i < |s| ==> IsDigit(s[i])
  }

  /** A digit string as `str(n)` prints it: no leading zero unless it is "0". */
  predicate IsCanonical(s: string) {
    IsDigitString(s) && (|s| > 1 ==> s[0] != '0')
  }

  function DigitValue(c: char): (d: nat)
    requires IsDigit(c)
    ensures d < 10
  {
    c as int - '0' as int
  }

  function DigitChar(d: nat): (c: char)
    requires d < 10
    ensures IsDigit(c) && DigitValue(c) == d
  {
    ('0' as int + d) as char
  }

  /** `int(s)` for a string of digits; leading zeros are allowed ("007" is 7). */
  function Value(s: string): nat
    requires forall i :: 0 <= i < |s| ==> IsDigit(s[i])
    decreases |s|
  {
    if s == [] then 0 else 10 * Value(s[..|s| - 1]) + DigitValue(s[|s| - 1])
  }

  /** `str(n)` for a natural number. */
  function Show(n: nat): (s: string)
    ensures IsCanonical(s)
  {
    if n < 10 then [DigitChar(n)] else Show(n / 10) + [DigitChar(n % 10)]
  }

  /** `int(s) if s.isdigit() else 0`: the parse rule shared by the
      checkpoint file and the engagement counters. */
  function DigitsOrZero(s: string): (r: nat)
    ensures !IsDigitString(s) ==> r == 0
    ensures IsDigitString(s) ==> r == Value(s)
    ensures IsCanonical(s) ==> Show(r) == s
  {
    if IsDigitString(s) then
      if IsCanonical(s) then ShowOfValue(s); Value(s) else Value(s)
    else 0
  }

  /** Printing and then parsing gives the number back. */
  lemma {:induction false} ValueOfShow(n: nat)
    ensures Value(Show(n)) == n
  {
    if n >= 10 {
      var p := Show(n / 10);
      var s := p + [DigitChar(n % 10)];
      assert s[..|s| - 1] == p;
      ValueOfShow(n / 10);
    }
  }

  /** A digit string whose first digit is not '0' denotes a positive number. */
  lemma {:induction false} ValuePositive(s: string)
    requires IsDigitString(s) && s[0] != '0'
    ensures Value(s) > 0
  {
    if |s| > 1 {
      var p := s[..|s| - 1];
      assert p[0] == s[0];
      ValuePositive(p);
    }
  }

  /** Parsing a canonical digit string and printing the number gives the
      string back, so `Show` and `Value` are inverse bijections between the
      naturals and the canonical digit strings. */
  lemma {:induction false} ShowOfValue(s: string)
    requires IsCanonical(s)
    ensures Show(Value(s)) == s
  {
    if |s| > 1 {
      var p := s[..|s| - 1];
      var d := DigitValue(s[|s| - 1]);
      assert p[0] == s[0];
      ValuePositive(p);
      ShowOfValue(p);
      assert Value(s) / 10 == Value(p) && Value(s) % 10 == d;
      assert s == p + [s[|s| - 1]];
    }
  }

  /** Printing is injective: two different numbers never share a checkpoint text. */
  lemma ShowInjective(m: nat, n: nat)
    requires Show(m) == Show(n)
    ensures m == n
  {
    ValueOfShow(m);
    ValueOfShow(n);
  }

  /** A run of zeros denotes 0. */
  lemma {:induction false} ValueOfZeros(z: string)
    requires forall i :: 0 <= i < |z| ==> z[i] == '0'
    ensures Value(z) == 0
    decreases |z|
  {
    if z != [] {
      ValueOfZeros(z[..|z| - 1]);
    }
  }

  /** Leading zeros do not change a digit string's value. */
  lemma {:induction false} ValueLeadingZeros(z: string, s: string)
    requires forall i :: 0 <= i < |z| ==> z[i] == '0'
    requires forall i :: 0 <= i < |s| ==> IsDigit(s[i])
    ensures Value(z + s) == Value(s)
    decreases |s|
  {
    if s == [] {
      assert z + s == z;
      ValueOfZeros(z);
    } else {
      var t := z + s;
      assert t[..|t| - 1] == z + s[..|s| - 1] && t[|t| - 1] == s[|s| - 1];
      ValueLeadingZeros(z, s[..|s| - 1]);
    }
  }

  /** `int(t) if t.isdigit() else 0` ignores leading zeros: "007" reads
      as 7 and "00" as 0, whatever follows the zeros. */
  lemma DigitsOrZeroLeadingZeros(z: string, s: string)
    requires forall i :: 0 <= i < |z| ==> z[i] == '0'
    ensures DigitsOrZero(z + s) == DigitsOrZero(s)
  {
    var t := z + s;
    if IsDigitString(s) {
      ValueLeadingZeros(z, s);
      assert forall i :: 0 <= i < |t| ==> IsDigit(t[i]) by {
        forall i | 0 <= i < |t| ensures IsDigit(t[i]) {
          if i >= |z| {
            assert t[i] == s[i - |z|];
          }
        }
      }
    } else if s == [] {
      assert t == z;
      if z != [] {
        ValueOfZeros(z);
      }
    } else {
      var k :| 0 <= k < |s| && !IsDigit(s[k]);
      assert t[|z| + k] == s[k];
    }
  }

  /** The shared parse rule reads back every printed number. */
  lemma DigitsOrZeroOfShow(n: nat)
    ensures DigitsOrZero(Show(n)) == n
  {
    ValueOfShow(n);
  }
}
