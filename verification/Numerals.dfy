/** Decimal numerals: what "%d" prints and what strtol and atoi read. */
module Numerals {

  function Digit(d: nat): (c: char)
    requires d < 10
    ensures '0' <= c <= '9' && DigitValue(c) == d
  {
    ('0' as int + d) as char
  }

  function DigitValue(c: char): nat
    requires '0' <= c <= '9'
  {
    c as int - '0' as int
  }

  predicate IsDigit(c: char) {
    '0' <= c <= '9'
  }

  predicate IsSpace(c: char) {
    c == ' ' || c == '\t' || c == '\n' || c == '\r' || c == 11 as char || c == 12 as char
  }

  function PrintNat(n: nat): (s: string)
    ensures |s| > 0 && forall i :: 0 <= i < |s| ==> IsDigit(s[i])
  {
    if n < 10 then [Digit(n)] else PrintNat(n / 10) + [Digit(n % 10)]
  }

  function PrintInt(n: int): (s: string)
    ensures |s| > 0 && (IsDigit(s[0]) || (s[0] == '-' && |s| > 1 && IsDigit(s[1])))
    ensures forall i :: 0 <= i < |s| ==> IsDigit(s[i]) || s[i] == '-'
  {
    if n < 0 then "-" + PrintNat(-n) else PrintNat(n)
  }

  /** The number that the leading digits of `s` stand for, read after `acc`. */
  function ReadNat(acc: nat, s: string): nat
    decreases |s|
  {
    if |s| == 0 || !IsDigit(s[0]) then acc else ReadNat(10 * acc + DigitValue(s[0]), s[1..])
  }

  function SkipSpace(s: string): string {
    if |s| > 0 && IsSpace(s[0]) then SkipSpace(s[1..]) else s
  }

  /** A sign and digits, after any white space; None when there are no digits. */
  datatype Reading = NoDigits | Number(value: int)

  function Strtol(s: string): Reading {
    var t := SkipSpace(s);
    if |t| > 0 && IsDigit(t[0]) then Number(ReadNat(0, t))
    else if |t| > 1 && t[0] == '+' && IsDigit(t[1]) then Number(ReadNat(0, t[1..]))
    else if |t| > 1 && t[0] == '-' && IsDigit(t[1]) then Number(-1 * ReadNat(0, t[1..]))
    else NoDigits
  }

  /** strtol and atoi return 0 when there are no digits. */
  function Atoi(s: string): int {
    match Strtol(s)
    case NoDigits => 0
    case Number(v) => v
  }

  lemma {:induction false} ReadNatConcat(acc: nat, a: string, b: string)
    requires forall i :: 0 <= i < |a| ==> IsDigit(a[i])
    ensures ReadNat(acc, a + b) == ReadNat(ReadNat(acc, a), b)
    decreases |a|
  {
    if |a| == 0 {
      assert a + b == b;
    } else {
      assert (a + b)[1..] == a[1..] + b;
      ReadNatConcat(10 * acc + DigitValue(a[0]), a[1..], b);
    }
  }

  lemma {:induction false} ReadPrinted(n: nat)
    ensures ReadNat(0, PrintNat(n)) == n
  {
    if n >= 10 {
      var d := [Digit(n % 10)];
      ReadPrinted(n / 10);
      ReadNatConcat(0, PrintNat(n / 10), d);
      assert d[1..] == "";
      assert ReadNat(n / 10, d) == ReadNat(10 * (n / 10) + n % 10, d[1..]);
    } else {
      var d := [Digit(n)];
      assert ReadNat(0, d) == ReadNat(n, d[1..]);
    }
  }

  /** Reading back what was printed. */
  lemma ReadBack(n: int)
    ensures Strtol(PrintInt(n)) == Number(n)
  {
    if n < 0 {
      ReadPrinted(-n);
      assert PrintInt(n)[1..] == PrintNat(-n);
    } else {
      ReadPrinted(n);
    }
  }

  /** No zero in front, except for zero itself. */
  lemma {:induction false} NoLeadingZero(n: nat)
    ensures n > 0 ==> PrintNat(n)[0] != '0'
    ensures n == 0 ==> PrintNat(n) == "0"
  {
    if n >= 10 {
      NoLeadingZero(n / 10);
    }
  }

  lemma {:induction false} ReadStops(acc: nat, digits: string, rest: string)
    requires forall i :: 0 <= i < |digits| ==> IsDigit(digits[i])
    requires rest == "" || !('0' <= rest[0] <= '9')
    ensures ReadNat(acc, digits + rest) == ReadNat(acc, digits)
    decreases |digits|
  {
    if |digits| == 0 {
      assert digits + rest == rest;
    } else {
      assert (digits + rest)[1..] == digits[1..] + rest;
      ReadStops(10 * acc + DigitValue(digits[0]), digits[1..], rest);
    }
  }

  /** A numeral is read after blanks and with a sign, up to the first character that is
      no digit; a text that starts with a letter is no number, and atoi makes it 0. */
  lemma ReadsLoosely(blank: char, n: nat, rest: string)
    requires blank == ' ' || 9 as char <= blank <= 13 as char
    requires rest == "" || !('0' <= rest[0] <= '9')
    ensures Strtol(PrintNat(n) + rest) == Number(n) == Strtol([blank] + (PrintNat(n) + rest)) == Strtol("+" + (PrintNat(n) + rest))
    ensures Strtol("-" + (PrintNat(n) + rest)) == Number(-1 * n)
    ensures rest != "" && 'a' <= rest[0] <= 'z' ==> Strtol(rest) == NoDigits && Atoi(rest) == 0
  {
    var s := PrintNat(n) + rest;
    ReadPrinted(n);
    ReadStops(0, PrintNat(n), rest);
    assert IsDigit(s[0]) && ([blank] + s)[1..] == s && ("+" + s)[1..] == s && ("-" + s)[1..] == s;
    assert SkipSpace([blank] + s) == SkipSpace(s) == s;
    assert SkipSpace("+" + s) == "+" + s && SkipSpace("-" + s) == "-" + s;
  }

  lemma {:induction false} NatLength(n: nat, bound: nat, digits: nat)
    requires digits > 0 && n < bound && bound == Pow10(digits)
    ensures |PrintNat(n)| <= digits
    decreases digits
  {
    if n >= 10 {
      NatLength(n / 10, Pow10(digits - 1), digits - 1);
    }
  }

  function Pow10(n: nat): nat {
    if n == 0 then 1 else 10 * Pow10(n - 1)
  }

  /** A 32-bit integer prints in at most eleven characters. */
  lemma Int32Length(n: int)
    requires -0x8000_0000 <= n < 0x8000_0000
    ensures |PrintInt(n)| <= 11
  {
    var m := if n < 0 then -n else n;
    assert Pow10(10) == 10_000_000_000 by {
      assert Pow10(5) == 100_000;
    }
    NatLength(m, Pow10(10), 10);
  }

  predicate StartsWith(s: string, prefix: string) {
    |prefix| <= |s| && s[..|prefix|] == prefix
  }
}
