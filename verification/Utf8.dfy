/** The UTF-8 decoder and encoder of glib, on C strings. */
module Utf8 {
  predicate Continuation(c: char) { 0x80 <= c as int < 0xC0 }

  /** g_utf8_skip: the length of the character that starts with byte c. */
  function Skip(c: char): (n: nat)
    ensures 1 <= n <= 4
  {
    var b := c as int;
    if b < 0xC0 then 1 else if b < 0xE0 then 2 else if b < 0xF0 then 3 else 4
  }

  function Low(c: char): int { (c as int) % 64 }

  /** g_utf8_get_char. */
  function CodePoint(s: string): int
    requires s != "" && Skip(s[0]) <= |s|
  {
    var b := s[0] as int;
    match Skip(s[0])
    case 1 => b
    case 2 => (b - 0xC0) * 64 + Low(s[1])
    case 3 => ((b - 0xE0) * 64 + Low(s[1])) * 64 + Low(s[2])
    case _ => (((b - 0xF0) * 64 + Low(s[1])) * 64 + Low(s[2])) * 64 + Low(s[3])
  }

  /** The first character of s is one that g_utf8_validate accepts: not NUL, not
      overlong, not a surrogate and not above U+10FFFF. */
  predicate ValidChar(s: string)
  {
    s != "" && Skip(s[0]) <= |s| && s[0] as int < 0xF8
    && (forall i | 1 <= i < Skip(s[0]) :: Continuation(s[i]))
    && var cp := CodePoint(s);
       match Skip(s[0])
       case 1 => 0 < cp < 0x80
       case 2 => 0x80 <= cp
       case 3 => 0x800 <= cp && !(0xD800 <= cp < 0xE000)
       case _ => 0x10000 <= cp < 0x110000
  }

  /** g_utf8_validate. */
  predicate Valid(s: string)
  {
    s == "" || (ValidChar(s) && Valid(s[Skip(s[0])..]))
  }

  function Byte(n: int): char
    requires 0 <= n < 256
  {
    n as char
  }

  /** g_unichar_to_utf8. */
  function Encode(cp: int): string
    requires 0 <= cp < 0x110000
  {
    if cp < 0x80 then [Byte(cp)]
    else if cp < 0x800 then [Byte(0xC0 + cp / 64), Byte(0x80 + cp % 64)]
    else if cp < 0x10000 then
      [Byte(0xE0 + cp / 4096), Byte(0x80 + cp / 64 % 64), Byte(0x80 + cp % 64)]
    else
      [Byte(0xF0 + cp / 262144), Byte(0x80 + cp / 4096 % 64), Byte(0x80 + cp / 64 % 64), Byte(0x80 + cp % 64)]
  }

  /** Splitting off six bits at a time undoes putting them together. */
  lemma Sextets(a: int, b: int, c: int, d: int)
    requires 0 <= a && 0 <= b < 64 && 0 <= c < 64 && 0 <= d < 64
    ensures var n := ((a * 64 + b) * 64 + c) * 64 + d;
            n / 262144 == a && n / 4096 % 64 == b && n / 64 % 64 == c && n % 64 == d
  {
    var n := ((a * 64 + b) * 64 + c) * 64 + d;
    assert n / 64 == (a * 64 + b) * 64 + c;
    assert n / 4096 == a * 64 + b;
  }

  /** Decoding a valid character and encoding it again gives the same bytes, so
      read_utf8_char copies the character it points at. */
  lemma EncodeDecode(s: string)
    requires ValidChar(s)
    ensures 0 <= CodePoint(s) < 0x110000
    ensures Encode(CodePoint(s)) == s[..Skip(s[0])]
  {
    match Skip(s[0]) {
      case 1 =>
      case 2 => EncodeDecode2(s);
      case 3 => EncodeDecode3(s);
      case _ => EncodeDecode4(s);
    }
  }

  lemma EncodeDecode2(s: string)
    requires ValidChar(s) && Skip(s[0]) == 2
    ensures 0 <= CodePoint(s) < 0x800 && Encode(CodePoint(s)) == s[..2]
  {
    Sextets(0, 0, s[0] as int - 0xC0, Low(s[1]));
    var e := Encode(CodePoint(s));
    assert e[0] as int == s[0] as int && e[1] as int == s[1] as int;
  }

  lemma EncodeDecode3(s: string)
    requires ValidChar(s) && Skip(s[0]) == 3
    ensures 0 <= CodePoint(s) < 0x10000 && Encode(CodePoint(s)) == s[..3]
  {
    var cp := CodePoint(s);
    Sextets(0, s[0] as int - 0xE0, Low(s[1]), Low(s[2]));
    assert cp / 4096 == s[0] as int - 0xE0;
    var e := Encode(cp);
    assert e[0] as int == s[0] as int && e[1] as int == s[1] as int && e[2] as int == s[2] as int;
  }

  lemma EncodeDecode4(s: string)
    requires ValidChar(s) && Skip(s[0]) == 4
    ensures 0 <= CodePoint(s) < 0x110000 && Encode(CodePoint(s)) == s[..4]
  {
    var cp := CodePoint(s);
    Sextets(s[0] as int - 0xF0, Low(s[1]), Low(s[2]), Low(s[3]));
    var e := Encode(cp);
    assert e[0] as int == s[0] as int && e[1] as int == s[1] as int;
    assert e[2] as int == s[2] as int && e[3] as int == s[3] as int;
  }

  /** Every code point but NUL and the surrogates has a valid encoding, and decoding that
      gives the code point. */
  lemma DecodeEncode(cp: int, rest: string)
    requires 0 < cp < 0x110000 && !(0xD800 <= cp < 0xE000)
    ensures var s := Encode(cp) + rest;
            ValidChar(s) && Skip(s[0]) == |Encode(cp)| && CodePoint(s) == cp
    ensures |Encode(cp)| == if cp < 0x80 then 1 else if cp < 0x800 then 2 else if cp < 0x10000 then 3 else 4
  {
    var s := Encode(cp) + rest;
    Sixths(cp);
    assert cp >= 0x80 ==> Continuation(s[1]) && Low(s[1]) == s[1] as int - 0x80;
    assert cp >= 0x800 ==> Continuation(s[2]) && Low(s[2]) == s[2] as int - 0x80;
    assert cp >= 0x10000 ==> Continuation(s[3]) && Low(s[3]) == s[3] as int - 0x80;
  }

  /** A number from its parts of six bits. */
  lemma Sixths(n: int)
    requires 0 <= n
    ensures n == n / 64 * 64 + n % 64
    ensures n == (n / 4096 * 64 + n / 64 % 64) * 64 + n % 64
    ensures n == ((n / 262144 * 64 + n / 4096 % 64) * 64 + n / 64 % 64) * 64 + n % 64
  {
    assert n / 64 / 64 == n / 4096 && n / 4096 / 64 == n / 262144;
  }

  /** The examples of section 7 of RFC 3629. */
  lemma EncodedExamples()
    ensures Encode(0x2262) == [0xE2 as char, 0x89 as char, 0xA2 as char]
    ensures Encode(0x391) == [0xCE as char, 0x91 as char]
    ensures Encode(0x233B4) == [0xF0 as char, 0xA3 as char, 0x8E as char, 0xB4 as char]
  {}

  /** The code points that may stand in a text. */
  predicate Scalar(cp: int) { 0 < cp < 0x110000 && !(0xD800 <= cp < 0xE000) }

  /** A text of such code points. */
  function EncodeAll(cps: seq<int>): string
    requires forall i | 0 <= i < |cps| :: Scalar(cps[i])
  {
    if cps == [] then ""
    else
      assert Scalar(cps[0]);
      Encode(cps[0]) + EncodeAll(cps[1..])
  }

  lemma {:induction false} EncodedIsValid(cps: seq<int>)
    requires forall i | 0 <= i < |cps| :: Scalar(cps[i])
    ensures Valid(EncodeAll(cps))
  {
    hide Encode, ValidChar, CodePoint, Skip;
    if cps == [] {
    } else {
      var e, rest := Encode(cps[0]), EncodeAll(cps[1..]);
      DecodeEncode(cps[0], rest);
      EncodedIsValid(cps[1..]);
      EncodeNotEmpty(cps[0]);
      assert (e + rest)[0] == e[0] && (e + rest)[|e|..] == rest;
    }
  }

  lemma EncodeNotEmpty(cp: int)
    requires 0 <= cp < 0x110000
    ensures Encode(cp) != ""
  {}

  lemma CharIsScalar(s: string)
    requires ValidChar(s)
    ensures Scalar(CodePoint(s))
  {
    if Skip(s[0]) == 2 {
      EncodeDecode2(s);
    }
  }

  lemma {:induction false} ValidIsEncoded(s: string) returns (cps: seq<int>)
    requires Valid(s)
    ensures (forall i | 0 <= i < |cps| :: Scalar(cps[i])) && s == EncodeAll(cps)
  {
    hide Encode, CodePoint;
    if s == "" {
      cps := [];
    } else {
      var k := Skip(s[0]);
      EncodeDecode(s);
      CharIsScalar(s);
      var rest := ValidIsEncoded(s[k..]);
      cps := [CodePoint(s)] + rest;
      assert cps[1..] == rest && s == s[..k] + s[k..];
    }
  }

  /** A text is valid if and only if it is the encoding of a sequence of code points, none of
      them NUL or a surrogate. */
  lemma ValidIff(s: string)
    ensures Valid(s) <==> exists cps :: IsEncoding(cps, s)
  {
    hide Valid, EncodeAll;
    if Valid(s) {
      var cps := ValidIsEncoded(s);
      assert IsEncoding(cps, s);
    }
    forall cps | IsEncoding(cps, s) ensures Valid(s) {
      EncodedIsValid(cps);
    }
  }

  ghost predicate IsEncoding(cps: seq<int>, s: string)
  {
    (forall i | 0 <= i < |cps| :: Scalar(cps[i])) && s == EncodeAll(cps)
  }

  /** A character longer than one byte has no ASCII byte. */
  lemma LongCharIsNotAscii(s: string)
    requires ValidChar(s) && 1 < Skip(s[0])
    ensures forall c | c in s[..Skip(s[0])] :: 0x80 <= c as int
  {}
}
