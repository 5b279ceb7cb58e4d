/** C strings and the libc calls the daemon makes on them.

    A C string is a `string` holding the bytes before the terminating NUL, one
    char per byte.  The functions recurse on suffixes, as a moving `char *` does. */
module CStrings {

  datatype Option<+T> = None | Some(value: T)

  lemma Assoc(a: string, b: string, c: string)
    ensures a + b + c == a + (b + c)
  {}

  /** The byte a C program reads at index i, the terminating NUL included. */
  function At(s: string, i: nat): char
    requires i <= |s|
  {
    if i < |s| then s[i] else '\0'
  }

  /** strstr(s, p), as the text that follows the first occurrence of p. */
  function AfterFirst(s: string, p: string): Option<string>
  {
    if p <= s then Some(s[|p|..])
    else if s == "" then None
    else AfterFirst(s[1..], p)
  }

  /** strstr(s, p), as the index of the first occurrence of p. */
  function Find(s: string, p: string): (r: Option<nat>)
    ensures r.Some? ==> r.value + |p| <= |s|
  {
    if p <= s then Some(0)
    else if s == "" then None
    else match Find(s[1..], p)
         case None => None
         case Some(i) => Some(i + 1)
  }

  lemma {:induction false} FindIsFirst(s: string, p: string)
    ensures match Find(s, p)
            case None => forall i | 0 <= i <= |s| :: !(p <= s[i..])
            case Some(k) => k + |p| <= |s| && p <= s[k..] && forall i | 0 <= i < k :: !(p <= s[i..])
  {
    assert s[0..] == s;
    if p <= s || s == "" {
    } else {
      FindIsFirst(s[1..], p);
      var f := Find(s[1..], p);
      forall i | 0 <= i <= |s| && (f.Some? ==> i <= f.value) ensures !(p <= s[i..]) {
        if i > 0 { assert s[i..] == s[1..][i - 1..]; }
      }
      assert f.Some? ==> s[f.value + 1..] == s[1..][f.value..];
    }
  }

  /** The first occurrence is the only one with none before it. */
  lemma FindIs(s: string, p: string, k: nat)
    requires k <= |s| && p <= s[k..] && forall i | 0 <= i < k :: !(p <= s[i..])
    ensures Find(s, p) == Some(k)
  {
    FindIsFirst(s, p);
  }

  /** What follows the first occurrence. */
  lemma {:induction false} AfterFirstIs(s: string, p: string)
    ensures AfterFirst(s, p) == match Find(s, p) case None => None case Some(k) => Some(s[k + |p|..])
  {
    if p <= s || s == "" {
    } else {
      AfterFirstIs(s[1..], p);
    }
  }

  ghost predicate Avoids(s: string, bad: set<char>)
  {
    forall c | c in s :: c !in bad
  }

  lemma AvoidsConcat(a: string, b: string, bad: set<char>)
    requires Avoids(a, bad) && Avoids(b, bad)
    ensures Avoids(a + b, bad)
  {}

  /** No occurrence of p in s. */
  ghost predicate Lacks(s: string, p: string)
  {
    forall i | 0 <= i <= |s| :: !(p <= s[i..])
  }

  // ---- decimal numbers: printf("%d") and strtol

  predicate IsDigit(c: char) { '0' <= c <= '9' }

  function Digits(n: nat): (s: string)
    ensures s != "" && forall c | c in s :: IsDigit(c)
  {
    var last := [('0' as int + n % 10) as char];
    if n < 10 then last else Digits(n / 10) + last
  }

  function PrintInt(n: int): string
  {
    if n < 0 then "-" + Digits(-n) else Digits(n)
  }

  /** The value of the digits at the head of s, accumulated onto acc. */
  function DigitsValue(s: string, acc: nat): nat
  {
    if s != "" && IsDigit(s[0])
    then DigitsValue(s[1..], acc * 10 + (s[0] as int - '0' as int))
    else acc
  }

  predicate IsCSpace(c: char) { c == ' ' || 9 <= c as int <= 13 }

  /** strtol(s, &end, 10): None when no digit was read, so that end == s. */
  function Strtol(s: string): Option<int>
  {
    if s != "" && IsCSpace(s[0]) then Strtol(s[1..])
    else
      var negative := s != "" && s[0] == '-';
      var body := if s != "" && (s[0] == '-' || s[0] == '+') then s[1..] else s;
      if body == "" || !IsDigit(body[0]) then None
      else
        var value: int := DigitsValue(body, 0);
        Some(if negative then -value else value)
  }

  lemma {:induction false} DigitsValueAppend(s: string, c: char, acc: nat)
    requires IsDigit(c) && forall d | d in s :: IsDigit(d)
    ensures DigitsValue(s + [c], acc) == DigitsValue(s, acc) * 10 + (c as int - '0' as int)
  {
    if s == "" {
      assert (s + [c])[1..] == "";
    } else {
      assert (s + [c])[1..] == s[1..] + [c];
      assert s[0] in s;
      DigitsValueAppend(s[1..], c, acc * 10 + (s[0] as int - '0' as int));
    }
  }

  lemma {:induction false} DigitsRoundTrip(n: nat)
    ensures DigitsValue(Digits(n), 0) == n
  {
    var c := ('0' as int + n % 10) as char;
    if n < 10 {
      assert Digits(n)[1..] == "";
    } else {
      DigitsRoundTrip(n / 10);
      DigitsValueAppend(Digits(n / 10), c, 0);
    }
  }

  /** Numbers are printed without leading zeros. */
  lemma {:induction false} DigitsCanonical(n: nat)
    ensures if n == 0 then Digits(n) == "0" else Digits(n)[0] != '0'
  {
    if n < 10 {
    } else {
      DigitsCanonical(n / 10);
    }
  }

  /** Reading back a printed number gives that number. */
  lemma PrintReadRoundTrip(n: int)
    ensures Strtol(PrintInt(n)) == Some(n)
  {
    if n < 0 {
      DigitsRoundTrip(-n);
      assert PrintInt(n)[1..] == Digits(-n);
    } else {
      DigitsRoundTrip(n);
      assert Digits(n)[0] in Digits(n);
    }
  }

  lemma PrintIntNonEmpty(n: int)
    ensures PrintInt(n) != "" && forall c | c in PrintInt(n) :: IsDigit(c) || c == '-'
  {}

  const BLANKS := {' ', '\t', '\n', '\U{0B}', '\U{0C}', '\r'}

  /** strtol reads a number after white space and a sign, and stops behind its digits. */
  lemma {:induction false} StrtolIs(blanks: string, sign: string, digits: string, rest: string)
    requires forall i | 0 <= i < |blanks| :: blanks[i] in BLANKS
    requires sign == "" || sign == "+" || sign == "-"
    requires (forall i | 0 <= i < |digits| :: '0' <= digits[i] <= '9') && (rest != "" ==> !('0' <= rest[0] <= '9'))
    requires sign == digits == "" ==> rest == "" || rest[0] !in BLANKS + {'+', '-'}
    ensures Strtol(blanks + sign + digits + rest) ==
            if digits == "" then None
            else var value: int := DigitsValue(digits, 0); Some(if sign == "-" then -value else value)
    decreases blanks
  {
    var s := blanks + sign + digits + rest;
    if blanks == "" {
      assert s == sign + (digits + rest);
      SignedIs(sign, digits, rest);
    } else {
      assert s[0] == blanks[0] && s[1..] == blanks[1..] + sign + digits + rest;
      assert s[0] in BLANKS;
      StrtolIs(blanks[1..], sign, digits, rest);
    }
  }

  lemma SignedIs(sign: string, digits: string, rest: string)
    requires sign == "" || sign == "+" || sign == "-"
    requires (forall i | 0 <= i < |digits| :: '0' <= digits[i] <= '9') && (rest != "" ==> !('0' <= rest[0] <= '9'))
    requires sign == digits == "" ==> rest == "" || rest[0] !in BLANKS + {'+', '-'}
    ensures Strtol(sign + (digits + rest)) ==
            if digits == "" then None
            else var value: int := DigitsValue(digits, 0); Some(if sign == "-" then -value else value)
  {
    var x := digits + rest;
    var s := sign + x;
    DigitsValueStops(digits, rest, 0);
    assert digits != "" ==> x[0] == digits[0];
    assert digits == "" ==> x == rest;
    if sign == "" {
      assert s == x;
    } else {
      assert s[0] == sign[0] && s[1..] == x;
    }
  }

  lemma {:induction false} DigitsValueStops(digits: string, rest: string, acc: nat)
    requires (forall i | 0 <= i < |digits| :: '0' <= digits[i] <= '9') && (rest != "" ==> !('0' <= rest[0] <= '9'))
    ensures DigitsValue(digits + rest, acc) == DigitsValue(digits, acc)
  {
    if digits == "" {
      assert digits + rest == rest;
    } else {
      assert (digits + rest)[0] == digits[0] && (digits + rest)[1..] == digits[1..] + rest;
      DigitsValueStops(digits[1..], rest, acc * 10 + (digits[0] as int - '0' as int));
    }
  }

  /** Two texts cut at the first character of bad agree before it. */
  lemma {:induction false} SplitUnique(a: string, b: string, x: string, y: string, bad: set<char>)
    requires Avoids(a, bad) && Avoids(b, bad)
    requires x != "" && x[0] in bad && y != "" && y[0] in bad
    requires a + x == b + y
    ensures a == b && x == y
  {
    assert a != "" ==> a[0] in a;
    assert b != "" ==> b[0] in b;
    assert (a + x)[0] == (b + y)[0];
    if a == "" || b == "" {
      assert "" + x == x && "" + y == y;
    } else {
      assert a[1..] + x == (a + x)[1..] == (b + y)[1..] == b[1..] + y;
      SplitUnique(a[1..], b[1..], x, y, bad);
      assert a == [a[0]] + a[1..] && b == [b[0]] + b[1..];
    }
  }
}
