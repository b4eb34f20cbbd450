/** Character classes, longest-prefix scans and decimal numerals, shared by the log parser and the SQL reader. */
module Lexical {
  predicate IsDigit(c: char) {
    '0' <= c <= '9'
  }

  predicate All(s: string, f: char -> bool) {
    forall i :: 0 <= i < |s| ==> f(s[i])
  }

  const Digit: char -> bool := c => IsDigit(c)

  /** The length of the longest prefix whose characters all satisfy `f`. */
  function Span(s: string, f: char -> bool): (n: nat)
    ensures n <= |s| && All(s[..n], f) && (n < |s| ==> !f(s[n]))
  {
    if s == [] || !f(s[0]) then 0 else 1 + Span(s[1..], f)
  }

  function Decimal(digits: string): nat
    requires All(digits, Digit)
  {
    if digits == [] then 0
    else 10 * Decimal(digits[..|digits| - 1]) + (digits[|digits| - 1] as int - '0' as int)
  }

  function DigitChar(d: nat): char
    requires d < 10
  {
    ('0' as int + d) as char
  }

  function PrintNat(n: nat): string {
    if n < 10 then [DigitChar(n)] else PrintNat(n / 10) + [DigitChar(n % 10)]
  }

  lemma {:induction false} SpanPrinted(a: string, rest: string, f: char -> bool)
    requires All(a, f) && (rest == [] || !f(rest[0]))
    ensures Span(a + rest, f) == |a|
  {
    if a == [] {
      assert a + rest == rest;
    } else {
      SpanPrinted(a[1..], rest, f);
      assert (a + rest)[1..] == a[1..] + rest;
    }
  }

  lemma Joined(a: string, rest: string)
    ensures (a + rest)[..|a|] == a && (a + rest)[|a|..] == rest
  {
  }

  lemma {:induction false} DecimalPrinted(n: nat)
    ensures All(PrintNat(n), Digit) && PrintNat(n) != []
    ensures Decimal(PrintNat(n)) == n
  {
    if n < 10 {
      assert PrintNat(n)[..0] == [];
    } else {
      DecimalPrinted(n / 10);
      var front, last := PrintNat(n / 10), DigitChar(n % 10);
      assert (front + [last])[..|front|] == front;
      assert n == 10 * (n / 10) + n % 10;
    }
  }

  lemma PrintedLength(n: nat)
    ensures n < 10 ==> |PrintNat(n)| == 1
    ensures 10 <= n < 100 ==> |PrintNat(n)| == 2
    ensures 100 <= n < 1000 ==> |PrintNat(n)| == 3
  {
    if n >= 100 {
      assert PrintNat(n / 10) == PrintNat(n / 10 / 10) + [DigitChar(n / 10 % 10)];
    }
  }

  lemma {:induction false} SpanAll(s: string, f: char -> bool)
    requires All(s, f)
    ensures Span(s, f) == |s|
  {
    if s != [] {
      SpanAll(s[1..], f);
    }
  }
}
