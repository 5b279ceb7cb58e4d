/** Dot-stuffing in the client library (src/api/c/libopentts.c). */
module ClientText {
  import opened CStrings

  /** The text after its first character: a dot after CRLF is doubled. */
  function StuffRest(s: string): string
  {
    if s == "" then ""
    else if "\r\n." <= s then "\r\n.." + StuffRest(s[3..])
    else [s[0]] + StuffRest(s[1..])
  }

  /** What the client sends for a text: every dot that starts a line is doubled. */
  function Stuff(text: string): string
  {
    if "." <= text then ".." + StuffRest(text[1..]) else StuffRest(text)
  }

  /** escape_dot.  The bytes it writes fit the 2 * strlen(text) it allocates. */
  method EscapeDot(text: string) returns (result: string)
    ensures result == Stuff(text)
    ensures |result| <= |text| * 2
  {
    hide *;
    result := "";
    var i := 0;
    StuffStart(text);
    if |text| >= 1 && text[0] == '.' {
      result, i := "..", 1;
    }
    while i < |text|
      invariant 0 <= i <= |text| && |result| <= 2 * i
      invariant Stuff(text) == result + StuffRest(text[i..])
    {
      StuffStep(result, text, i);
      if CrlfDotAt(text, i) {
        result, i := result + "\r\n..", i + 3;
      } else {
        result, i := result + [text[i]], i + 1;
      }
    }
    StuffEnd(result, text);
  }

  lemma StuffStart(text: string)
    ensures Stuff(text) ==
            if |text| >= 1 && text[0] == '.' then ".." + StuffRest(text[1..]) else "" + StuffRest(text[0..])
  {
    assert text[0..] == text;
  }

  lemma StuffEnd(out: string, text: string)
    ensures out + StuffRest(text[|text|..]) == out
  {}

  /** Three bytes read one by one; a text that ends early stops at its NUL. */
  predicate CrlfDotAt(text: string, i: nat)
    requires i < |text|
    ensures CrlfDotAt(text, i) <==> "\r\n." <= text[i..]
  {
    text[i] == '\r' && At(text, i + 1) == '\n' && At(text, i + 2) == '.'
  }

  lemma StuffStep(out: string, text: string, i: nat)
    requires i < |text|
    ensures var s := text[i..];
            out + StuffRest(s) ==
            if "\r\n." <= s then out + "\r\n.." + StuffRest(text[i + 3..])
            else out + [text[i]] + StuffRest(text[i + 1..])
  {
    var s := text[i..];
    assert s[1..] == text[i + 1..];
    if "\r\n." <= s { assert s[3..] == text[i + 3..]; }
  }

  /** Every dot after CRLF in s is followed by a second dot. */
  ghost predicate DotsDoubled(s: string)
  {
    forall i {:trigger s[i..]} | 0 <= i <= |s| && "\r\n." <= s[i..] :: "\r\n.." <= s[i..]
  }

  lemma {:induction false} StuffRestDoublesDots(s: string)
    ensures DotsDoubled(StuffRest(s))
    ensures s != "" ==> StuffRest(s) != "" && StuffRest(s)[0] == s[0]
    ensures "\n." <= StuffRest(s) ==> "\n." <= s
  {
    if s == "" {
    } else if "\r\n." <= s {
      StuffRestDoublesDots(s[3..]);
      PrefixKeepsDotsDoubled("\r\n..", StuffRest(s[3..]));
    } else {
      var u := StuffRest(s[1..]);
      var t := StuffRest(s);
      StuffRestDoublesDots(s[1..]);
      assert t == [s[0]] + u && t[1..] == u;
      assert !("\r\n." <= t) && t[0..] == t;
      forall i | 0 <= i <= |t| && "\r\n." <= t[i..] ensures "\r\n.." <= t[i..] {
        if i > 0 { assert t[i..] == u[i - 1..]; }
      }
    }
  }

  lemma PrefixKeepsDotsDoubled(p: string, s: string)
    requires (p == "\r\n.." || p == "..") && DotsDoubled(s)
    ensures DotsDoubled(p + s)
  {
    var t := p + s;
    forall i | 0 <= i <= |t| && "\r\n." <= t[i..] ensures "\r\n.." <= t[i..] {
      if i >= |p| { assert t[i..] == s[i - |p|..]; } else { assert t[i..][0] == t[i]; }
    }
  }

  // ---- dot-stuffing, line by line

  /** Lines with CRLF between. */
  function Joined(ls: seq<string>): string
    requires ls != []
  {
    if |ls| == 1 then ls[0] else ls[0] + ("\r\n" + Joined(ls[1..]))
  }

  predicate NoCrlf(l: string)
  {
    forall i | 0 <= i < |l| - 1 :: !(l[i] == '\r' && l[i + 1] == '\n')
  }

  ghost predicate CrlfFree(ls: seq<string>)
  {
    ls != [] && forall i | 0 <= i < |ls| :: NoCrlf(ls[i])
  }

  /** Every text consists of such lines. */
  lemma {:induction false} CrlfLines(s: string) returns (ls: seq<string>)
    ensures CrlfFree(ls) && s == Joined(ls)
    ensures s != "" && ls[0] != "" ==> ls[0][0] == s[0]
  {
    if s == "" {
      ls := [""];
    } else if |s| >= 2 && s[0] == '\r' && s[1] == '\n' {
      var rest := CrlfLines(s[2..]);
      ls := [""] + rest;
      assert ls[1..] == rest && s == "" + ("\r\n" + s[2..]);
    } else {
      var rest := CrlfLines(s[1..]);
      ls := [[s[0]] + rest[0]] + rest[1..];
      assert ls[1..] == rest[1..];
      assert s == [s[0]] + Joined(rest);
      assert rest[0] != "" ==> s[1] == rest[0][0];
    }
  }

  lemma StuffCons(c: char, t: string)
    ensures StuffRest([c] + t) ==
            if c == '\r' && |t| >= 2 && t[0] == '\n' && t[1] == '.' then "\r\n.." + StuffRest(t[2..])
            else [c] + StuffRest(t)
    ensures StuffRest("") == ""
  {
    var s := [c] + t;
    assert s[0..] == s && s[1..] == t && (|t| >= 2 ==> s[3..] == t[2..]);
    assert CrlfDotAt(s, 0) <==> c == '\r' && |t| >= 2 && t[0] == '\n' && t[1] == '.';
  }

  lemma Crlf(x: string)
    ensures "\r\n" + x == ['\r'] + (['\n'] + x) && (['\n'] + x)[1..] == x
  {}

  lemma StuffBreak(x: string)
    ensures StuffRest("\r\n" + x) == "\r\n" + Stuff(x)
  {
    hide StuffRest, Stuff;
    Crlf(x);
    StuffCons('\r', ['\n'] + x);
    StuffCons('\n', x);
    StuffStart(x);
    assert x[0..] == x && "" + StuffRest(x) == StuffRest(x);
    if x != "" && x[0] == '.' {
      assert (['\n'] + x)[2..] == x[1..];
      Assoc("\r\n", "..", StuffRest(x[1..]));
      assert "\r\n" + ".." == "\r\n..";
    } else {
      Crlf(StuffRest(x));
    }
  }

  /** Within a line nothing changes. */
  lemma {:induction false} StuffRestLine(l: string, tail: string)
    requires NoCrlf(l) && (tail != "" ==> tail[0] == '\r')
    ensures StuffRest(l + tail) == l + StuffRest(tail)
  {
    hide StuffRest;
    if l == "" {
      assert "" + tail == tail && "" + StuffRest(tail) == StuffRest(tail);
    } else {
      StuffRestLine(l[1..], tail);
      StuffCons(l[0], l[1..] + tail);
      assert l == [l[0]] + l[1..] && l + tail == [l[0]] + (l[1..] + tail);
      assert l[1..] + tail != "" ==> (l[1..] + tail)[0] == if |l| > 1 then l[1] else '\r';
      Assoc([l[0]], l[1..], StuffRest(tail));
    }
  }

  /** A line that begins with a dot gets a second one. */
  function DotDoubled(l: string): string
  {
    if l != "" && l[0] == '.' then "." + l else l
  }

  function AllDoubled(ls: seq<string>): (r: seq<string>)
    ensures |r| == |ls|
  {
    seq(|ls|, i requires 0 <= i < |ls| => DotDoubled(ls[i]))
  }

  lemma StuffLine(l: string, tail: string)
    requires NoCrlf(l) && (tail != "" ==> tail[0] == '\r')
    ensures Stuff(l + tail) == DotDoubled(l) + StuffRest(tail)
  {
    hide StuffRest, NoCrlf, Stuff;
    StuffRestLine(l, tail);
    StuffStart(l + tail);
    if l != "" && l[0] == '.' {
      NoCrlfBehind(l);
      StuffRestLine(l[1..], tail);
      assert (l + tail)[1..] == l[1..] + tail;
      Assoc("..", l[1..], StuffRest(tail));
      Dots(l);
    } else {
      assert l + tail != "" ==> (l + tail)[0] == if l == "" then '\r' else l[0];
      assert (l + tail)[0..] == l + tail && "" + StuffRest(l + tail) == StuffRest(l + tail);
    }
  }

  lemma Dots(l: string)
    requires l != "" && l[0] == '.'
    ensures ".." + l[1..] == "." + l
  {}

  lemma NoCrlfBehind(l: string)
    requires NoCrlf(l) && l != ""
    ensures NoCrlf(l[1..])
  {}

  /** Dot-stuffing doubles the dot at the start of exactly those lines that begin with one. */
  lemma {:induction false} StuffOnLines(ls: seq<string>)
    requires CrlfFree(ls)
    ensures Stuff(Joined(ls)) == Joined(AllDoubled(ls))
    decreases |ls|
  {
    hide StuffRest, NoCrlf, Stuff, DotDoubled;
    if |ls| == 1 {
      StuffLine(ls[0], "");
      StuffCons('x', "");
      assert ls[0] + "" == ls[0] && DotDoubled(ls[0]) + "" == DotDoubled(ls[0]);
    } else {
      StuffLine(ls[0], "\r\n" + Joined(ls[1..]));
      StuffBreak(Joined(ls[1..]));
      StuffOnLines(ls[1..]);
      assert AllDoubled(ls)[1..] == AllDoubled(ls[1..]);
    }
  }
}
