/** Positional numerals: String(n), n.toString(radix), Number(text) and parseInt(text, radix) on digits. */
module Numerals {
  predicate Radix(radix: nat) { 2 <= radix <= 16 }

  predicate IsDigit(c: char, radix: nat) {
    || ('0' <= c <= '9' && (c - '0') as nat < radix)
    || ('a' <= c <= 'f' && (c - 'a') as nat + 10 < radix)
    || ('A' <= c <= 'F' && (c - 'A') as nat + 10 < radix)
  }

  predicate AllDigits(s: string, radix: nat) { forall i :: 0 <= i < |s| ==> IsDigit(s[i], radix) }

  function DigitValue(c: char, radix: nat): (v: nat)
    requires IsDigit(c, radix)
    ensures v < radix
  {
    if '0' <= c <= '9' then (c - '0') as nat
    else if 'a' <= c <= 'f' then (c - 'a') as nat + 10
    else (c - 'A') as nat + 10
  }

  function DigitChar(d: nat): (c: char)
    requires d < 16
  {
    if d < 10 then '0' + d as char else 'a' + (d - 10) as char
  }

  lemma DigitRoundTrip(d: nat, radix: nat)
    requires d < radix <= 16
    ensures var c := DigitChar(d);
      IsDigit(c, radix) && DigitValue(c, radix) == d && !('A' <= c <= 'F') && (d > 0 ==> c != '0')
  {
  }

  lemma DivShrinks(n: nat, radix: nat)
    requires Radix(radix) && n >= radix
    ensures 0 < n / radix < n && n % radix < radix && (n / radix) * radix + n % radix == n
  {
  }

  function Print(n: nat, radix: nat): string
    requires Radix(radix)
  {
    if n < radix then [DigitChar(n)] else Print(n / radix, radix) + [DigitChar(n % radix)]
  }

  lemma Product(a: nat, b: nat)
    ensures a * b >= 0
    ensures a >= 1 ==> a * b >= b
  {
  }

  function Parse(s: string, radix: nat): nat
    requires AllDigits(s, radix)
  {
    if s == [] then 0 else
    var front, digit := Parse(s[..|s| - 1], radix), DigitValue(s[|s| - 1], radix);
    Product(front, radix);
    front * radix + digit
  }

  function Decimal(n: nat): string { Print(n, 10) }

  /** Without leading zeros, and in lower case. */
  predicate Canonical(s: string, radix: nat) {
    && s != [] && AllDigits(s, radix) && (|s| > 1 ==> s[0] != '0')
    && forall i :: 0 <= i < |s| ==> !('A' <= s[i] <= 'F')
  }

  lemma {:induction false} PrintIsCanonical(n: nat, radix: nat)
    requires Radix(radix)
    ensures Canonical(Print(n, radix), radix)
    ensures n > 0 ==> Print(n, radix)[0] != '0'
  {
    hide IsDigit, DigitChar;
    if n < radix {
      DigitRoundTrip(n, radix);
    } else {
      DivShrinks(n, radix);
      DigitRoundTrip(n % radix, radix);
      PrintIsCanonical(n / radix, radix);
    }
  }

  lemma {:induction false} ParsePrint(n: nat, radix: nat)
    requires Radix(radix)
    ensures AllDigits(Print(n, radix), radix) && Parse(Print(n, radix), radix) == n
  {
    hide IsDigit, DigitChar, DigitValue;
    PrintIsCanonical(n, radix);
    var s := Print(n, radix);
    if n < radix {
      DigitRoundTrip(n, radix);
      assert s[..|s| - 1] == [];
    } else {
      DivShrinks(n, radix);
      DigitRoundTrip(n % radix, radix);
      ParsePrint(n / radix, radix);
      assert s[..|s| - 1] == Print(n / radix, radix);
    }
  }

  lemma {:induction false} ParsePositive(s: string, radix: nat)
    requires Radix(radix) && AllDigits(s, radix) && s != [] && s[0] != '0'
    ensures Parse(s, radix) >= 1
  {
    if |s| > 1 {
      ParsePositive(s[..|s| - 1], radix);
      Product(Parse(s[..|s| - 1], radix), radix);
    } else {
      assert s[..0] == [];
    }
  }

  lemma PrintSnoc(q: nat, d: nat, radix: nat)
    requires Radix(radix) && q >= 1 && d < radix
    ensures Print(q * radix + d, radix) == Print(q, radix) + [DigitChar(d)]
  {
    hide DigitChar;
    DivModUnique(q, radix, d);
    assert q * radix >= radix;
  }

  lemma DivModUnique(q: nat, radix: nat, d: nat)
    requires d < radix
    ensures (q * radix + d) / radix == q && (q * radix + d) % radix == d
  {
    var n := q * radix + d;
    var e := n / radix - q;
    assert n == (n / radix) * radix + n % radix;
    assert e * radix == (n / radix) * radix - q * radix == d - n % radix;
    if e >= 1 {
      MulAtLeast(e, radix);
      assert false;
    }
    if e <= -1 {
      MulAtLeast(-e, radix);
      assert false;
    }
  }

  lemma MulAtLeast(e: int, radix: nat)
    requires e >= 1
    ensures e * radix >= radix
    ensures (-e) * radix == -(e * radix)
  {
  }

  lemma {:induction false} PrintParse(s: string, radix: nat)
    requires Radix(radix) && Canonical(s, radix)
    ensures Print(Parse(s, radix), radix) == s
  {
    hide Print;
    var d := DigitValue(s[|s| - 1], radix);
    assert DigitChar(d) == s[|s| - 1];
    if |s| == 1 {
      assert s[..0] == [];
      assert Parse(s, radix) == d;
      PrintDigit(d, radix);
    } else {
      var front := s[..|s| - 1];
      ParsePositive(front, radix);
      PrintParse(front, radix);
      PrintSnoc(Parse(front, radix), d, radix);
      assert s == front + [s[|s| - 1]];
    }
  }

  lemma PrintDigit(d: nat, radix: nat)
    requires Radix(radix) && d < radix
    ensures Print(d, radix) == [DigitChar(d)]
  {
  }

  function Zeros(k: nat): string { seq(k, _ => '0') }

  lemma {:induction false} LeadingZeros(k: nat, s: string, radix: nat)
    requires Radix(radix) && AllDigits(s, radix)
    ensures AllDigits(Zeros(k) + s, radix) && Parse(Zeros(k) + s, radix) == Parse(s, radix)
    decreases k + |s|
  {
    var t := Zeros(k) + s;
    if s != [] {
      LeadingZeros(k, s[..|s| - 1], radix);
      assert t[..|t| - 1] == Zeros(k) + s[..|s| - 1];
    } else if k > 0 {
      LeadingZeros(k - 1, s, radix);
      assert t[..|t| - 1] == Zeros(k - 1) + s;
    }
  }

  /** The longest prefix of digits, which is what parseInt reads. */
  function DigitPrefix(s: string, radix: nat): (p: string)
    ensures AllDigits(p, radix) && p <= s
  {
    if s == [] || !IsDigit(s[0], radix) then [] else
    var rest := DigitPrefix(s[1..], radix);
    [s[0]] + rest
  }

  lemma {:induction false} AllDigitsPrefix(s: string, radix: nat)
    requires AllDigits(s, radix)
    ensures DigitPrefix(s, radix) == s
  {
    if s != [] {
      AllDigitsPrefix(s[1..], radix);
    }
  }

  /** What a digit is worth, in either case. */
  lemma DigitWorth(radix: nat)
    requires radix <= 16
    ensures forall d :: 0 <= d < 10 && d < radix ==> IsDigit("0123456789"[d], radix) && DigitValue("0123456789"[d], radix) == d
    ensures radix == 16 ==> forall d :: 0 <= d < 6 ==>
      IsDigit("abcdef"[d], 16) && DigitValue("abcdef"[d], 16) == 10 + d && IsDigit("ABCDEF"[d], 16) && DigitValue("ABCDEF"[d], 16) == 10 + d
  {
  }

  /** Each further digit multiplies what stands before it by the radix. */
  lemma ParseSnoc(s: string, c: char, radix: nat)
    requires AllDigits(s, radix) && IsDigit(c, radix)
    ensures AllDigits(s + [c], radix) && Parse(s + [c], radix) == Parse(s, radix) * radix + DigitValue(c, radix)
    ensures Parse("", radix) == 0
  {
    assert (s + [c])[..|s|] == s;
  }
}
