/**
 * IPv4 literals of the webhook check (monitoring/webhook-url-validator.ts): every spelling of a 32-bit address
 * is brought to one dotted quad, and the octet tests on the quad are tests on the address.
 * The recogniser of IPv6 literals is a parameter.
 */
module IpLiteral {
  import opened Options
  import opened Numerals
  import opened Text

  const WORD: nat := 0x1_0000_0000

  // ---------------------------------------------------------------- text

  function LowerChar(c: char): char { if 'A' <= c <= 'Z' then 'a' + (c - 'A') else c }

  function Lower(s: string): string { seq(|s|, i requires 0 <= i < |s| => LowerChar(s[i])) }

  function Dotted(a: string, b: string, c: string, d: string): string {
    a + ("." + (b + ("." + (c + ("." + d)))))
  }

  lemma SplitDotted(a: string, b: string, c: string, d: string)
    requires '.' !in a && '.' !in b && '.' !in c && '.' !in d
    ensures Split(Dotted(a, b, c, d), '.') == [a, b, c, d]
  {
    SplitFirst(a, '.', b + ("." + (c + ("." + d))));
    SplitFirst(b, '.', c + ("." + d));
    SplitFirst(c, '.', d);
    SplitWord(d, '.');
  }

  lemma FourPartsAreDotted(s: string)
    requires |Split(s, '.')| == 4
    ensures var p := Split(s, '.'); s == Dotted(p[0], p[1], p[2], p[3])
  {
    var p := Split(s, '.');
    JoinSplit(s, '.');
    assert p[1..][1..] == p[2..] && p[2..][1..] == p[3..];
    assert Join(p[3..], '.') == p[3];
    assert Join(p[2..], '.') == p[2] + ("." + p[3]);
    assert Join(p[1..], '.') == p[1] + ("." + (p[2] + ("." + p[3])));
  }

  /** Letters lose their case, and nothing else changes. */
  lemma LowerIs(s: string, i: nat)
    requires i < |s|
    ensures |Lower(s)| == |s|
    ensures 'A' <= s[i] <= 'Z' ==> Lower(s)[i] as int == s[i] as int + 32
    ensures !('A' <= s[i] <= 'Z') ==> Lower(s)[i] == s[i]
  {
  }

  // ---------------------------------------------------------------- addresses

  /** n >>> 0 */
  function ToUint32(n: int): nat { n % WORD }

  /** n | 0 */
  function ToInt32(n: int): int {
    var u := ToUint32(n);
    if u < 0x8000_0000 then u else u - WORD
  }

  /** Bitwise or, bit by bit. */
  function Or(a: nat, b: nat): nat {
    if a == 0 && b == 0 then 0
    else 2 * Or(a / 2, b / 2) + (if a % 2 == 1 || b % 2 == 1 then 1 else 0)
  }

  /** (hi << 16) | lo: both operators read and write signed 32-bit numbers. */
  function MappedWord(hi: nat, lo: nat): int {
    ToInt32(Or(ToUint32(ToInt32(hi * 0x1_0000)), ToUint32(lo)))
  }

  /** (n >>> shift) & 0xff for the shifts 24, 16, 8 and 0. */
  function Octet(n: int, unit: nat): nat
    requires unit > 0
  {
    ToUint32(n) / unit % 256
  }

  /** uint32ToIpv4. */
  function Quad(n: int): string {
    Dotted(Decimal(Octet(n, 0x100_0000)), Decimal(Octet(n, 0x1_0000)), Decimal(Octet(n, 0x100)), Decimal(Octet(n, 1)))
  }

  function Address(a: nat, b: nat, c: nat, d: nat): nat { a * 0x100_0000 + b * 0x1_0000 + c * 0x100 + d }

  predicate IsOctet(p: string) { Canonical(p, 10) && |p| <= 3 && Parse(p, 10) <= 255 }

  /** isIP(host) === 4. */
  predicate IsV4(host: string) {
    var p := Split(host, '.');
    |p| == 4 && IsOctet(p[0]) && IsOctet(p[1]) && IsOctet(p[2]) && IsOctet(p[3])
  }

  function ParseQuad(host: string): nat
    requires IsV4(host)
  {
    var p := Split(host, '.');
    Address(Parse(p[0], 10), Parse(p[1], 10), Parse(p[2], 10), Parse(p[3], 10))
  }

  // ---------------------------------------------------------------- normalizeIpLiteral

  /** An IPv6 literal, as far as this model knows, contains a colon. */
  ghost predicate Recognises(v6: string -> bool) { forall h :: v6(h) ==> ':' in h }

  predicate Mapped(host: string) { |host| >= 7 && Lower(host[..7]) == "::ffff:" }

  predicate HexGroup(p: string) { 1 <= |p| <= 4 && AllDigits(p, 16) }

  predicate HexMarked(p: string) { |p| > 2 && p[0] == '0' && (p[1] == 'x' || p[1] == 'X') && AllDigits(p[2..], 16) }

  predicate Digits(p: string) { p != "" && AllDigits(p, 10) }

  /** Hexadecimal with 0x, octal with 0, else decimal; none if the part is not a number. */
  function PartValue(p: string): Option<nat> {
    if HexMarked(p) then Some(Parse(p[2..], 16))
    else if |p| > 1 && p[0] == '0' && AllDigits(p[1..], 8) then Some(Parse(p, 8))
    else if Digits(p) then Some(Parse(p, 10))
    else None
  }

  predicate PartFits(p: string) { PartValue(p).Some? && PartValue(p).value <= 255 }

  function NormalizeDotted(host: string): Option<string> {
    var p := Split(host, '.');
    if |p| == 4 && PartFits(p[0]) && PartFits(p[1]) && PartFits(p[2]) && PartFits(p[3])
    then Some(Dotted(Decimal(PartValue(p[0]).value), Decimal(PartValue(p[1]).value),
                     Decimal(PartValue(p[2]).value), Decimal(PartValue(p[3]).value)))
    else None
  }

  predicate MappedHex(host: string) {
    Mapped(host) && var g := Split(host[7..], ':'); |g| == 2 && HexGroup(g[0]) && HexGroup(g[1])
  }

  function Normalize(v6: string -> bool, host: string): Option<string> {
    if Mapped(host) && IsV4(host[7..]) then Some(host[7..])
    else if MappedHex(host) then
      var g := Split(host[7..], ':');
      Some(Quad(MappedWord(Parse(g[0], 16), Parse(g[1], 16))))
    else if IsV4(host) || v6(host) then Some(Lower(host))
    else if Digits(host) && Parse(host, 10) <= 0xffff_ffff then Some(Quad(Parse(host, 10)))
    else if HexMarked(host) && Parse(host[2..], 16) <= 0xffff_ffff then Some(Quad(Parse(host[2..], 16)))
    else NormalizeDotted(host)
  }

  /** The same with the octets pushed one by one. */
  method NormalizeIpLiteral(v6: string -> bool, host: string) returns (literal: Option<string>)
    ensures literal == Normalize(v6, host)
  {
    hide Parse, Quad, ToInt32, IsV4, IsDigit, Lower, Decimal, PartValue;
    if Mapped(host) && IsV4(host[7..]) { return Some(host[7..]); }
    if MappedHex(host) {
      var g := Split(host[7..], ':');
      var hi, lo := Parse(g[0], 16), Parse(g[1], 16);
      return Some(Quad(MappedWord(hi, lo)));
    }
    if IsV4(host) || v6(host) { return Some(Lower(host)); }
    if Digits(host) && Parse(host, 10) <= 0xffff_ffff { return Some(Quad(Parse(host, 10))); }
    if HexMarked(host) && Parse(host[2..], 16) <= 0xffff_ffff { return Some(Quad(Parse(host[2..], 16))); }
    var dotted := Split(host, '.');
    if |dotted| != 4 { return None; }
    var octets: seq<nat> := [];
    for n := 0 to 4
      invariant |octets| == n
      invariant forall i :: 0 <= i < n ==> PartFits(dotted[i]) && octets[i] == PartValue(dotted[i]).value
    {
      var value := PartValue(dotted[n]);
      if value.None? || value.value > 255 { return None; }
      octets := octets + [value.value];
    }
    literal := Some(Dotted(Decimal(octets[0]), Decimal(octets[1]), Decimal(octets[2]), Decimal(octets[3])));
  }

  // ---------------------------------------------------------------- one quad per address

  lemma {:induction false} NoForeignChar(s: string, radix: nat, c: char)
    requires AllDigits(s, radix) && !IsDigit(c, radix)
    ensures c !in s
  {
  }

  lemma OctetText(v: nat)
    requires v <= 255
    ensures IsOctet(Decimal(v)) && Parse(Decimal(v), 10) == v && '.' !in Decimal(v) && ':' !in Decimal(v)
    ensures Lower(Decimal(v)) == Decimal(v)
  {
    ParsePrint(v, 10);
    PrintIsCanonical(v, 10);
    NoForeignChar(Decimal(v), 10, '.');
    NoForeignChar(Decimal(v), 10, ':');
    SmallTextIsShort(v);
    forall i | 0 <= i < |Decimal(v)|
      ensures LowerChar(Decimal(v)[i]) == Decimal(v)[i]
    {
      assert IsDigit(Decimal(v)[i], 10);
    }
  }

  lemma SmallTextIsShort(v: nat)
    requires v <= 255
    ensures |Decimal(v)| <= 3
  {
    if v >= 10 {
      assert Print(v, 10) == Print(v / 10, 10) + [DigitChar(v % 10)];
      if v >= 100 {
        assert Print(v / 10, 10) == Print(v / 10 / 10, 10) + [DigitChar(v / 10 % 10)];
      }
    }
  }

  lemma OctetsOf(n: nat)
    requires n < WORD
    ensures Address(Octet(n, 0x100_0000), Octet(n, 0x1_0000), Octet(n, 0x100), Octet(n, 1)) == n
  {
    hide Octet;
    var c, z := n / 0x100, n % 0x100;
    var b, y := c / 0x100, c % 0x100;
    var a, x := b / 0x100, b % 0x100;
    OctetAt(n, 1, n, 0);
    OctetAt(n, 0x100, c, z);
    OctetAt(n, 0x1_0000, b, y * 0x100 + z);
    OctetAt(n, 0x100_0000, a, x * 0x1_0000 + y * 0x100 + z);
    assert a < 0x100;
  }

  lemma OctetAt(n: nat, unit: nat, quotient: nat, rest: nat)
    requires n < WORD && rest < unit && n == quotient * unit + rest
    ensures Octet(n, unit) == quotient % 0x100
  {
    DivModUnique(quotient, unit, rest);
  }

  lemma AddressOctets(a: nat, b: nat, c: nat, d: nat)
    requires a <= 255 && b <= 255 && c <= 255 && d <= 255
    ensures var n := Address(a, b, c, d);
      n < WORD && Octet(n, 0x100_0000) == a && Octet(n, 0x1_0000) == b && Octet(n, 0x100) == c && Octet(n, 1) == d
  {
    PlaceOf(a, 0, b * 0x1_0000 + c * 0x100 + d, 0x100_0000);
    PlaceOf(b, a, c * 0x100 + d, 0x1_0000);
    PlaceOf(c, a * 0x100 + b, d, 0x100);
    PlaceOf(d, a * 0x1_0000 + b * 0x100 + c, 0, 1);
  }

  lemma PlaceOf(octet: nat, above: nat, below: nat, unit: nat)
    requires octet <= 255 && below < unit
    ensures ((above * 256 + octet) * unit + below) / unit % 256 == octet
  {
    DivModUnique(above * 256 + octet, unit, below);
    DivModUnique(above, 256, octet);
  }

  lemma DottedIsV4(a: nat, b: nat, c: nat, d: nat)
    requires a <= 255 && b <= 255 && c <= 255 && d <= 255
    ensures var q := Dotted(Decimal(a), Decimal(b), Decimal(c), Decimal(d));
      IsV4(q) && Split(q, '.') == [Decimal(a), Decimal(b), Decimal(c), Decimal(d)] && ParseQuad(q) == Address(a, b, c, d)
      && q == Quad(Address(a, b, c, d))
  {
    OctetText(a);
    OctetText(b);
    OctetText(c);
    OctetText(d);
    SplitDotted(Decimal(a), Decimal(b), Decimal(c), Decimal(d));
    AddressOctets(a, b, c, d);
  }

  /** The quad of a 32-bit address is a canonical literal and parses back to the address. */
  lemma QuadRoundTrip(n: nat)
    requires n < WORD
    ensures IsV4(Quad(n)) && ParseQuad(Quad(n)) == n
  {
    OctetsOf(n);
    DottedIsV4(Octet(n, 0x100_0000), Octet(n, 0x1_0000), Octet(n, 0x100), Octet(n, 1));
  }

  /** And every canonical literal is the quad of what it parses to. */
  lemma V4IsQuad(host: string)
    requires IsV4(host)
    ensures ParseQuad(host) < WORD && host == Quad(ParseQuad(host))
  {
    var p := Split(host, '.');
    FourPartsAreDotted(host);
    PrintParse(p[0], 10);
    PrintParse(p[1], 10);
    PrintParse(p[2], 10);
    PrintParse(p[3], 10);
    DottedIsV4(Parse(p[0], 10), Parse(p[1], 10), Parse(p[2], 10), Parse(p[3], 10));
  }

  lemma LowerConcat(a: string, b: string)
    ensures Lower(a + b) == Lower(a) + Lower(b)
  {
  }

  lemma LowerQuad(n: int)
    ensures Lower(Quad(n)) == Quad(n)
  {
    var a, b, c, d := Octet(n, 0x100_0000), Octet(n, 0x1_0000), Octet(n, 0x100), Octet(n, 1);
    OctetText(a);
    OctetText(b);
    OctetText(c);
    OctetText(d);
    hide Decimal, Octet;
    var t := Decimal(c) + ("." + Decimal(d));
    var u := Decimal(b) + ("." + t);
    LowerConcat(Decimal(a), "." + u);
    LowerConcat(".", u);
    LowerConcat(Decimal(b), "." + t);
    LowerConcat(".", t);
    LowerConcat(Decimal(c), "." + Decimal(d));
    LowerConcat(".", Decimal(d));
    assert Lower(".") == ".";
  }

  // ---------------------------------------------------------------- every spelling

  lemma NotAQuad(host: string)
    requires '.' !in host
    ensures !IsV4(host)
  {
    SplitWord(host, '.');
  }

  lemma NotMapped(host: string)
    requires ':' !in host
    ensures !Mapped(host)
  {
    if |host| >= 7 {
      assert Lower(host[..7])[0] == LowerChar(host[0]);
      assert host[0] != ':';
    }
  }

  /** A run of decimal digits, leading zeros and all, is the address of its value, if it has 32 bits. */
  lemma DecimalSpelling(v6: string -> bool, s: string)
    requires Recognises(v6) && Digits(s)
    ensures Normalize(v6, s) == if Parse(s, 10) < WORD then Some(Quad(Parse(s, 10))) else None
  {
    NoForeignChar(s, 10, ':');
    NoForeignChar(s, 10, '.');
    NotMapped(s);
    NotAQuad(s);
    SplitWord(s, '.');
    assert !HexMarked(s) by {
      assert !IsDigit('x', 10) && !IsDigit('X', 10);
    }
  }

  /** Hexadecimal digits behind 0x or 0X likewise. */
  lemma HexSpelling(v6: string -> bool, host: string)
    requires Recognises(v6) && HexMarked(host)
    ensures Normalize(v6, host) == if Parse(host[2..], 16) < WORD then Some(Quad(Parse(host[2..], 16))) else None
  {
    NoForeignChar(host[2..], 16, ':');
    NoForeignChar(host[2..], 16, '.');
    assert host == host[..2] + host[2..];
    NotMapped(host);
    NotAQuad(host);
    SplitWord(host, '.');
    assert !Digits(host) by {
      assert !IsDigit(host[1], 10);
    }
  }

  lemma CanonicalPart(p: string)
    requires IsOctet(p)
    ensures PartFits(p) && PartValue(p).value == Parse(p, 10)
  {
    assert !HexMarked(p) by {
      assert !IsDigit('x', 10) && !IsDigit('X', 10);
    }
  }

  lemma PartHasNoColon(p: string)
    requires PartFits(p)
    ensures ':' !in p && '.' !in p
  {
    if HexMarked(p) {
      NoForeignChar(p[2..], 16, ':');
      NoForeignChar(p[2..], 16, '.');
      assert p == p[..2] + p[2..];
    } else if |p| > 1 && p[0] == '0' && AllDigits(p[1..], 8) {
      NoForeignChar(p[1..], 8, ':');
      NoForeignChar(p[1..], 8, '.');
      assert p == p[..1] + p[1..];
    } else {
      NoForeignChar(p, 10, ':');
      NoForeignChar(p, 10, '.');
    }
  }

  /** Four parts, each hexadecimal, octal or decimal and at most 255, are the address of those octets. */
  lemma DottedSpelling(v6: string -> bool, a: string, b: string, c: string, d: string)
    requires Recognises(v6) && PartFits(a) && PartFits(b) && PartFits(c) && PartFits(d)
    ensures Normalize(v6, Dotted(a, b, c, d)) ==
      Some(Quad(Address(PartValue(a).value, PartValue(b).value, PartValue(c).value, PartValue(d).value)))
  {
    var host := Dotted(a, b, c, d);
    PartHasNoColon(a);
    PartHasNoColon(b);
    PartHasNoColon(c);
    PartHasNoColon(d);
    SplitDotted(a, b, c, d);
    DottedIsV4(PartValue(a).value, PartValue(b).value, PartValue(c).value, PartValue(d).value);
    hide PartValue, PartFits, Quad, ParseQuad;
    assert ':' !in host;
    NotMapped(host);
    if IsV4(host) {
      V4IsQuad(host);
      CanonicalPart(a);
      CanonicalPart(b);
      CanonicalPart(c);
      CanonicalPart(d);
      LowerQuad(ParseQuad(host));
      assert ParseQuad(host) == Address(Parse(a, 10), Parse(b, 10), Parse(c, 10), Parse(d, 10)) by {
        ParseQuadOf(host, a, b, c, d);
      }
    } else {
      NoBareNumber(host);
    }
  }

  // ---------------------------------------------------------------- parts of any radix

  datatype Part = Hex(marker: char, digits: string) | Octal(digits: string) | Plain(digits: string)

  /** 0x or 0X and hexadecimal digits; 0 and octal digits; or decimal digits that are not read as octal. */
  predicate IsPart(p: Part) {
    p.digits != "" &&
    match p
    case Hex(marker, digits) => (marker == 'x' || marker == 'X') && AllDigits(digits, 16)
    case Octal(digits) => AllDigits(digits, 8)
    case Plain(digits) => AllDigits(digits, 10) && (digits[0] != '0' || |digits| == 1 || !AllDigits(digits, 8))
  }

  function PartText(p: Part): string {
    match p
    case Hex(marker, digits) => "0" + [marker] + digits
    case Octal(digits) => "0" + digits
    case Plain(digits) => digits
  }

  function PartNumber(p: Part): nat
    requires IsPart(p)
  {
    match p
    case Hex(_, digits) => Parse(digits, 16)
    case Octal(digits) => Parse(digits, 8)
    case Plain(digits) => Parse(digits, 10)
  }

  lemma NotHexMarked(s: string)
    requires AllDigits(s, 10)
    ensures !HexMarked(s)
  {
    assert !IsDigit('x', 10) && !IsDigit('X', 10);
  }

  lemma {:induction false} OctalIsDecimal(s: string)
    requires AllDigits(s, 8)
    ensures AllDigits(s, 10)
  {
  }

  /** A part is read in its own radix. */
  lemma PartIsRead(p: Part)
    requires IsPart(p)
    ensures PartValue(PartText(p)) == Some(PartNumber(p))
  {
    var t := PartText(p);
    match p
    case Hex(_, digits) =>
      assert t[2..] == digits;
    case Octal(digits) =>
      assert Zeros(1) == "0" && t == Zeros(1) + digits && t[1..] == digits;
      LeadingZeros(1, digits, 8);
      OctalIsDecimal(t);
      NotHexMarked(t);
    case Plain(digits) =>
      NotHexMarked(digits);
  }

  /** Four parts in any mixture of radices, each at most 255, are the quad of their numbers. */
  lemma MixedRadixSpelling(v6: string -> bool, a: Part, b: Part, c: Part, d: Part)
    requires Recognises(v6) && IsPart(a) && IsPart(b) && IsPart(c) && IsPart(d)
    requires PartNumber(a) <= 255 && PartNumber(b) <= 255 && PartNumber(c) <= 255 && PartNumber(d) <= 255
    ensures Normalize(v6, PartText(a) + ("." + (PartText(b) + ("." + (PartText(c) + ("." + PartText(d))))))) ==
      Some(Quad(PartNumber(a) * 0x100_0000 + PartNumber(b) * 0x1_0000 + PartNumber(c) * 0x100 + PartNumber(d)))
  {
    hide Normalize, Quad, PartValue, IsPart;
    PartIsRead(a);
    PartIsRead(b);
    PartIsRead(c);
    PartIsRead(d);
    DottedSpelling(v6, PartText(a), PartText(b), PartText(c), PartText(d));
  }

  /** As in 0177.0x0.0.1, which is the loopback address. */
  lemma LoopbackInDisguise(v6: string -> bool)
    requires Recognises(v6)
    ensures Normalize(v6, "0177" + ("." + ("0x0" + ("." + ("0" + ("." + "1")))))) == Some(Quad(0x7f00_0001))
  {
    var a, b, c, d := Octal("177"), Hex('x', "0"), Plain("0"), Plain("1");
    ParseSmall();
    assert PartText(a) == "0177" && PartText(b) == "0x0";
    hide Normalize, Quad;
    MixedRadixSpelling(v6, a, b, c, d);
  }

  lemma ParseSmall()
    ensures AllDigits("177", 8) && Parse("177", 8) == 127
    ensures AllDigits("0", 16) && Parse("0", 16) == 0 && AllDigits("0", 10) && Parse("0", 10) == 0
    ensures AllDigits("1", 10) && Parse("1", 10) == 1
  {
    ParseSnoc("17", '7', 8);
    ParseSnoc("1", '7', 8);
    ParseSnoc("", '1', 8);
    ParseSnoc("", '0', 16);
    ParseSnoc("", '0', 10);
    ParseSnoc("", '1', 10);
    assert "17" + ['7'] == "177" && "1" + ['7'] == "17" && "" + ['1'] == "1" && "" + ['0'] == "0";
  }

  lemma ParseQuadOf(host: string, a: string, b: string, c: string, d: string)
    requires IsV4(host) && Split(host, '.') == [a, b, c, d]
    ensures ParseQuad(host) == Address(Parse(a, 10), Parse(b, 10), Parse(c, 10), Parse(d, 10))
  {
    hide AllDigits, Parse, Address, Split;
    var p := Split(host, '.');
    assert p[0] == a && p[1] == b && p[2] == c && p[3] == d;
  }

  lemma NoBareNumber(host: string)
    requires |Split(host, '.')| == 4
    ensures !Digits(host) && !HexMarked(host)
  {
    if Digits(host) {
      NoForeignChar(host, 10, '.');
      SplitWord(host, '.');
    }
    if HexMarked(host) {
      NoForeignChar(host[2..], 16, '.');
      assert host == host[..2] + host[2..];
      SplitWord(host, '.');
    }
  }

  lemma MappedHexParts(prefix: string, hi: string, lo: string)
    requires |prefix| == 7 && Lower(prefix) == "::ffff:" && HexGroup(hi) && HexGroup(lo)
    ensures var host := prefix + (hi + (":" + lo));
      MappedHex(host) && Split(host[7..], ':') == [hi, lo] && !IsV4(host[7..])
  {
    hide IsDigit;
    var host := prefix + (hi + (":" + lo));
    var tail := hi + (":" + lo);
    assert host[..7] == prefix && host[7..] == tail;
    NoSeparator(hi);
    NoSeparator(lo);
    SplitFirst(hi, ':', lo);
    SplitWord(lo, ':');
    assert [hi] + [lo] == [hi, lo];
    NotAQuad(tail);
  }

  lemma NoSeparator(p: string)
    requires AllDigits(p, 16)
    ensures ':' !in p && '.' !in p
  {
    NoForeignChar(p, 16, ':');
    NoForeignChar(p, 16, '.');
  }

  /** ::ffff:hhhh:hhhh, in either case, is the address of its two halves (RFC 4291, section 2.5.5.2). */
  lemma MappedHexSpelling(v6: string -> bool, prefix: string, hi: string, lo: string)
    requires |prefix| == 7 && Lower(prefix) == "::ffff:" && HexGroup(hi) && HexGroup(lo)
    ensures Normalize(v6, prefix + (hi + (":" + lo))) == Some(Quad(Parse(hi, 16) * 0x1_0000 + Parse(lo, 16)))
    ensures Parse(hi, 16) * 0x1_0000 + Parse(lo, 16) < WORD
  {
    hide Normalize, MappedHex, Quad, IsV4, ToInt32, ToUint32, Split, Lower;
    var host := prefix + (hi + (":" + lo));
    MappedHexParts(prefix, hi, lo);
    MappedHexValue(v6, host, hi, lo);
    GroupBound(hi);
    GroupBound(lo);
    SignedWord(Parse(hi, 16), Parse(lo, 16));
    SameQuad(MappedWord(Parse(hi, 16), Parse(lo, 16)), Parse(hi, 16) * 0x1_0000 + Parse(lo, 16));
  }

  lemma MappedHexValue(v6: string -> bool, host: string, hi: string, lo: string)
    requires MappedHex(host) && Split(host[7..], ':') == [hi, lo] && !IsV4(host[7..])
    ensures Normalize(v6, host) == Some(Quad(MappedWord(Parse(hi, 16), Parse(lo, 16))))
  {
    hide Parse, Quad, ToInt32, IsV4, HexGroup, AllDigits, Lower, Digits, HexMarked, NormalizeDotted;
  }

  function Shifted(a: nat, k: nat): nat { if k == 0 then a else 2 * Shifted(a, k - 1) }

  lemma {:induction false} OrNothing(b: nat)
    ensures Or(0, b) == b
  {
    if b > 0 {
      OrNothing(b / 2);
    }
  }

  lemma OrStep(a: nat, b: nat)
    ensures Or(2 * a, b) == 2 * Or(a, b / 2) + b % 2
  {
    if a == 0 {
      OrNothing(b);
      OrNothing(b / 2);
    }
  }

  /** A shifted number and one that fits into the bits made free share no bit: they are or-ed by adding them. */
  lemma {:induction false} DisjointOr(a: nat, b: nat, k: nat)
    requires b < Shifted(1, k)
    ensures Or(Shifted(a, k), b) == Shifted(a, k) + b
  {
    hide Or;
    if k == 0 {
      OrCommutes(a, 0);
      OrNothing(a);
    } else {
      DisjointOr(a, b / 2, k - 1);
      OrStep(Shifted(a, k - 1), b);
    }
  }

  lemma {:induction false} OrCommutes(a: nat, b: nat)
    ensures Or(a, b) == Or(b, a)
  {
    if a > 0 || b > 0 {
      OrCommutes(a / 2, b / 2);
    }
  }

  /** JavaScript's shift and or go through signed 32-bit numbers; the unsigned value is the two halves put together. */
  lemma SignedWord(hi: nat, lo: nat)
    requires hi <= 0xffff && lo <= 0xffff
    ensures ToUint32(MappedWord(hi, lo)) == hi * 0x1_0000 + lo
  {
    hide Or;
    SixteenBits(hi);
    SixteenBits(1);
    DisjointOr(hi, lo, 16);
    UnsignedAgain(hi * 0x1_0000);
    UnsignedAgain(hi * 0x1_0000 + lo);
    SmallWord(lo);
  }

  lemma FourBits(a: nat, k: nat)
    ensures Shifted(a, k + 4) == 16 * Shifted(a, k)
  {
    assert Shifted(a, k + 2) == 2 * Shifted(a, k + 1);
    assert Shifted(a, k + 4) == 2 * Shifted(a, k + 3);
  }

  lemma SixteenBits(a: nat)
    ensures Shifted(a, 16) == a * 0x1_0000
  {
    FourBits(a, 0);
    FourBits(a, 4);
    FourBits(a, 8);
    FourBits(a, 12);
  }

  /** A 32-bit word survives being read as signed. */
  lemma UnsignedAgain(n: nat)
    requires n < WORD
    ensures ToUint32(ToInt32(n)) == n
  {
  }

  lemma SameQuad(m: int, n: nat)
    requires n < WORD && ToUint32(m) == n
    ensures Quad(m) == Quad(n)
  {
    hide Decimal, ToUint32;
    assert ToUint32(n) == n by { SmallWord(n); }
  }

  lemma SmallWord(n: nat)
    requires n < WORD
    ensures ToUint32(n) == n
  {
  }

  lemma {:induction false} GroupBound(p: string)
    requires HexGroup(p)
    ensures Parse(p, 16) <= 0xffff
  {
    BoundByLength(p);
    assert Power16(1) == 16 && Power16(2) == 256 && Power16(3) == 4096 && Power16(4) == 65536;
  }

  function Power16(n: nat): nat { if n == 0 then 1 else 16 * Power16(n - 1) }

  lemma {:induction false} BoundByLength(p: string)
    requires AllDigits(p, 16)
    ensures Parse(p, 16) < Power16(|p|)
  {
    if p != "" {
      BoundByLength(p[..|p| - 1]);
    }
  }

  lemma MappedDottedSpelling(v6: string -> bool, prefix: string, n: nat)
    requires |prefix| == 7 && Lower(prefix) == "::ffff:" && n < WORD
    ensures Normalize(v6, prefix + Quad(n)) == Some(Quad(n))
  {
    QuadRoundTrip(n);
    var host := prefix + Quad(n);
    assert host[..7] == prefix && host[7..] == Quad(n);
  }

  /** Every spelling of an address normalises to the quad that parses back to it. */
  lemma EverySpelling(v6: string -> bool, n: nat, zeros: nat, hex: string)
    requires Recognises(v6) && n < WORD && AllDigits(hex, 16) && hex != "" && Parse(hex, 16) == n
    ensures IsV4(Quad(n)) && ParseQuad(Quad(n)) == n
    ensures Normalize(v6, Quad(n)) == Some(Quad(n))
    ensures Normalize(v6, Zeros(zeros) + Decimal(n)) == Some(Quad(n))
    ensures Normalize(v6, "0x" + hex) == Some(Quad(n)) && Normalize(v6, "0X" + hex) == Some(Quad(n))
    ensures Normalize(v6, "::ffff:" + Quad(n)) == Some(Quad(n))
    ensures Normalize(v6, "::ffff:" + (Print(n / 0x1_0000, 16) + (":" + Print(n % 0x1_0000, 16)))) == Some(Quad(n))
  {
    hide Normalize, Quad, IsV4, ParseQuad, Print, Parse;
    QuadRoundTrip(n);
    QuadIsFixed(v6, n);
    PlainDecimal(v6, n, zeros);
    PrefixedHex(v6, n, hex);
    assert Lower("::ffff:") == "::ffff:";
    MappedDottedSpelling(v6, "::ffff:", n);
    MappedHalves(v6, n);
  }

  lemma QuadIsFixed(v6: string -> bool, n: nat)
    requires Recognises(v6) && n < WORD
    ensures Normalize(v6, Quad(n)) == Some(Quad(n))
  {
    var a, b, c, d := Octet(n, 0x100_0000), Octet(n, 0x1_0000), Octet(n, 0x100), Octet(n, 1);
    OctetText(a);
    OctetText(b);
    OctetText(c);
    OctetText(d);
    CanonicalPart(Decimal(a));
    CanonicalPart(Decimal(b));
    CanonicalPart(Decimal(c));
    CanonicalPart(Decimal(d));
    OctetsOf(n);
    hide Decimal, Octet, PartValue, PartFits;
    DottedSpelling(v6, Decimal(a), Decimal(b), Decimal(c), Decimal(d));
  }

  lemma PlainDecimal(v6: string -> bool, n: nat, zeros: nat)
    requires Recognises(v6) && n < WORD
    ensures Normalize(v6, Zeros(zeros) + Decimal(n)) == Some(Quad(n))
  {
    ParsePrint(n, 10);
    PrintIsCanonical(n, 10);
    LeadingZeros(zeros, Decimal(n), 10);
    DecimalSpelling(v6, Zeros(zeros) + Decimal(n));
  }

  lemma PrefixedHex(v6: string -> bool, n: nat, hex: string)
    requires Recognises(v6) && n < WORD && AllDigits(hex, 16) && hex != "" && Parse(hex, 16) == n
    ensures Normalize(v6, "0x" + hex) == Some(Quad(n)) && Normalize(v6, "0X" + hex) == Some(Quad(n))
  {
    hide Normalize;
    assert ("0x" + hex)[2..] == hex && ("0X" + hex)[2..] == hex;
    HexSpelling(v6, "0x" + hex);
    HexSpelling(v6, "0X" + hex);
  }

  lemma MappedHalves(v6: string -> bool, n: nat)
    requires n < WORD
    ensures Normalize(v6, "::ffff:" + (Print(n / 0x1_0000, 16) + (":" + Print(n % 0x1_0000, 16)))) == Some(Quad(n))
  {
    hide Normalize, Quad;
    GroupText(n / 0x1_0000);
    GroupText(n % 0x1_0000);
    assert Lower("::ffff:") == "::ffff:";
    MappedHexSpelling(v6, "::ffff:", Print(n / 0x1_0000, 16), Print(n % 0x1_0000, 16));
  }

  lemma GroupText(v: nat)
    requires v <= 0xffff
    ensures HexGroup(Print(v, 16)) && Parse(Print(v, 16), 16) == v
  {
    ParsePrint(v, 16);
    PrintIsCanonical(v, 16);
    LengthByValue(v, 4);
  }

  lemma {:induction false} LengthByValue(v: nat, digits: nat)
    requires digits >= 1 && v < Power16(digits)
    ensures |Print(v, 16)| <= digits
  {
    if v >= 16 {
      assert digits > 1;
      LengthByValue(v / 16, digits - 1);
    }
  }

  ghost predicate IsQuad(text: string) { exists n: nat :: n < WORD && text == Quad(n) }

  lemma V4IsSomeQuad(host: string)
    requires IsV4(host)
    ensures IsQuad(host) && Lower(host) == host
  {
    hide Quad, ParseQuad, IsV4;
    V4IsQuad(host);
    LowerQuad(ParseQuad(host));
  }

  lemma EveryWordIsAQuad(m: int)
    ensures IsQuad(Quad(m))
  {
    hide Quad;
    SameQuad(m, ToUint32(m));
  }

  lemma NormalizeDottedIsAQuad(host: string)
    requires NormalizeDotted(host).Some?
    ensures IsQuad(NormalizeDotted(host).value)
  {
    hide Quad, PartValue, Address;
    var p := Split(host, '.');
    var a, b, c, d := PartValue(p[0]).value, PartValue(p[1]).value, PartValue(p[2]).value, PartValue(p[3]).value;
    DottedIsV4(a, b, c, d);
    AddressOctets(a, b, c, d);
  }

  /** Nothing else comes out: a normalised host is the quad of some address, or an IPv6 literal in lower case. */
  lemma NormalizedIsAnAddress(v6: string -> bool, host: string)
    requires Normalize(v6, host).Some?
    ensures IsQuad(Normalize(v6, host).value) || (v6(host) && Normalize(v6, host).value == Lower(host))
  {
    hide Quad, IsQuad, IsV4, NormalizeDotted, ToInt32, Parse, Lower, IsDigit;
    if Mapped(host) && IsV4(host[7..]) {
      V4IsSomeQuad(host[7..]);
    } else if MappedHex(host) {
      var g := Split(host[7..], ':');
      EveryWordIsAQuad(MappedWord(Parse(g[0], 16), Parse(g[1], 16)));
    } else if IsV4(host) {
      V4IsSomeQuad(host);
    } else if v6(host) {
    } else if Digits(host) && Parse(host, 10) <= 0xffff_ffff {
      EveryWordIsAQuad(Parse(host, 10));
    } else if HexMarked(host) && Parse(host[2..], 16) <= 0xffff_ffff {
      EveryWordIsAQuad(Parse(host[2..], 16));
    } else {
      NormalizeDottedIsAQuad(host);
    }
  }

  // ---------------------------------------------------------------- private ranges

  /** parseInt(p, 10); none for NaN. */
  function LeadingInt(p: string): Option<nat> {
    var digits := DigitPrefix(p, 10);
    if digits == "" then None else Some(Parse(digits, 10))
  }

  predicate PrivateOctets(a: nat, b: nat) {
    || a == 0 || a == 10 || (a == 100 && 64 <= b <= 127) || a == 127 || (a == 169 && b == 254)
    || (a == 172 && 16 <= b <= 31) || (a == 192 && b == 168) || a >= 224
  }

  predicate IsPrivateIpv4(ip: string) {
    var p := Split(ip, '.');
    var a := LeadingInt(p[0]);
    var b := if |p| > 1 then LeadingInt(p[1]) else None;
    a.None? || b.None? || PrivateOctets(a.value, b.value)
  }

  /** The `size` addresses from a.b.0.0 on. */
  predicate InBlock(n: nat, a: nat, b: nat, size: nat) { Address(a, b, 0, 0) <= n < Address(a, b, 0, 0) + size }

  /** RFC 1918 section 3, RFC 6598 section 7, and the other blocks the check names. */
  predicate InPrivateBlock(n: nat) {
    || InBlock(n, 0, 0, 0x100_0000)       // 0.0.0.0/8
    || InBlock(n, 10, 0, 0x100_0000)      // 10.0.0.0/8
    || InBlock(n, 100, 64, 0x40_0000)     // 100.64.0.0/10
    || InBlock(n, 127, 0, 0x100_0000)     // 127.0.0.0/8
    || InBlock(n, 169, 254, 0x1_0000)     // 169.254.0.0/16
    || InBlock(n, 172, 16, 0x10_0000)     // 172.16.0.0/12
    || InBlock(n, 192, 168, 0x1_0000)     // 192.168.0.0/16
    || InBlock(n, 224, 0, 0x1000_0000)    // 224.0.0.0/4
    || InBlock(n, 240, 0, 0x1000_0000)    // 240.0.0.0/4
  }

  lemma OctetTextReads(v: nat)
    ensures LeadingInt(Decimal(v)) == Some(v)
  {
    ParsePrint(v, 10);
    PrintIsCanonical(v, 10);
    AllDigitsPrefix(Decimal(v), 10);
  }

  /** An aligned block of whole /8 networks, and one inside a single /8. */
  lemma WholeBlock(a: nat, b: nat, c: nat, d: nat, first: nat, count: nat)
    requires b <= 255 && c <= 255 && d <= 255
    ensures InBlock(Address(a, b, c, d), first, 0, count * 0x100_0000) <==> first <= a < first + count
  {
  }

  lemma InnerBlock(a: nat, b: nat, c: nat, d: nat, net: nat, first: nat, count: nat)
    requires b <= 255 && c <= 255 && d <= 255 && first + count <= 256
    ensures InBlock(Address(a, b, c, d), net, first, count * 0x1_0000)
       <==> a == net && first <= b < first + count
  {
  }

  lemma BlocksByOctets(a: nat, b: nat, c: nat, d: nat)
    requires a <= 255 && b <= 255 && c <= 255 && d <= 255
    ensures PrivateOctets(a, b) <==> InPrivateBlock(Address(a, b, c, d))
  {
    hide InBlock, Address;
    WholeBlock(a, b, c, d, 0, 1);
    WholeBlock(a, b, c, d, 10, 1);
    InnerBlock(a, b, c, d, 100, 64, 64);
    WholeBlock(a, b, c, d, 127, 1);
    InnerBlock(a, b, c, d, 169, 254, 1);
    InnerBlock(a, b, c, d, 172, 16, 16);
    InnerBlock(a, b, c, d, 192, 168, 1);
    WholeBlock(a, b, c, d, 224, 16);
    WholeBlock(a, b, c, d, 240, 16);
  }

  /** The octet tests on the quad of an address are membership of the address in the listed blocks. */
  lemma PrivateIffInBlock(n: nat)
    requires n < WORD
    ensures IsPrivateIpv4(Quad(n)) <==> InPrivateBlock(n)
  {
    hide Octet, Decimal, PrivateOctets, InPrivateBlock, LeadingInt, Address;
    var a, b, c, d := Octet(n, 0x100_0000), Octet(n, 0x1_0000), Octet(n, 0x100), Octet(n, 1);
    OctetBounds(n);
    OctetsOf(n);
    OctetTextReads(a);
    OctetTextReads(b);
    DottedIsV4(a, b, c, d);
    BlocksByOctets(a, b, c, d);
  }

  lemma OctetBounds(n: int)
    ensures Octet(n, 0x100_0000) <= 255 && Octet(n, 0x1_0000) <= 255 && Octet(n, 0x100) <= 255 && Octet(n, 1) <= 255
  {
  }
}
