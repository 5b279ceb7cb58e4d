/** The LF framing between the server and an output module: escape_dot and the
    terminator that output_speak sends (src/server/output.c), and the reader in
    do_message (src/modules/module_utils.c). */
module OutputFraming {
  import opened CStrings

  // ---- lines

  /** The lines of a text; there is always at least one. */
  function Lines(s: string): (ls: seq<string>)
    ensures |ls| >= 1
  {
    if s == "" then [""]
    else if s[0] == '\n' then [""] + Lines(s[1..])
    else var ls := Lines(s[1..]); [[s[0]] + ls[0]] + ls[1..]
  }

  /** Every line followed by its line feed. */
  function Unlines(ls: seq<string>): string
  {
    if ls == [] then "" else ls[0] + "\n" + Unlines(ls[1..])
  }

  lemma UnlinesCons(l: string, ls: seq<string>)
    ensures Unlines([l] + ls) == l + "\n" + Unlines(ls)
  {
    assert ([l] + ls)[1..] == ls;
  }

  lemma {:induction false} UnlinesOfLines(s: string)
    ensures Unlines(Lines(s)) == s + "\n"
  {
    if s == "" {
      UnlinesCons("", []);
      assert [""] + [] == [""];
    } else {
      var ls := Lines(s[1..]);
      UnlinesOfLines(s[1..]);
      assert s == [s[0]] + s[1..];
      if s[0] == '\n' {
        UnlinesCons("", ls);
      } else {
        UnlinesCons([s[0]] + ls[0], ls[1..]);
        Assoc([s[0]] + ls[0], "\n", Unlines(ls[1..]));
        Assoc([s[0]], ls[0], "\n" + Unlines(ls[1..]));
        Assoc(ls[0], "\n", Unlines(ls[1..]));
      }
    }
  }

  /** No line holds a line feed. */
  lemma {:induction false} LinesHoldNoLf(s: string)
    ensures forall i | 0 <= i < |Lines(s)| :: '\n' !in Lines(s)[i]
  {
    if s == "" {
    } else {
      LinesHoldNoLf(s[1..]);
    }
  }

  // ---- escape_dot

  /** The text after its start: a lone dot between line feeds, or after the last, is
      doubled.  A match uses up the line feed that ends it. */
  function EscapeRest(o: string): string
  {
    if "\n.\n" <= o then "\n..\n" + EscapeRest(o[3..])
    else if o == "\n." then "\n.."
    else if o == "" then ""
    else [o[0]] + EscapeRest(o[1..])
  }

  function Escape(text: string): string
  {
    if text == "." then ".."
    else if ".\n" <= text then "..\n" + EscapeRest(text[2..])
    else EscapeRest(text)
  }

  method EscapeDot(text: string) returns (ret: string)
    ensures ret == Escape(text)
  {
    hide EscapeRest, Find;
    var ntext, pos := "", 0;
    EscapeEnds(text);
    if |text| == 1 && text == "." {
      ntext, pos := "..", 1;
    }
    if |text| - pos >= 2 && text[pos] == '.' && text[pos + 1] == '\n' {
      ntext, pos := ntext + "..\n", pos + 2;
    }
    var seq_ := Find(text[pos..], "\n.\n");
    while seq_.Some?
      invariant 0 <= pos <= |text| && (pos == 0 ==> ntext == "")
      invariant seq_ == Find(text[pos..], "\n.\n")
      invariant Escape(text) == ntext + EscapeRest(text[pos..])
      decreases |text| - pos
    {
      EscapeToMatch(ntext, text, pos);
      ntext := ntext + text[pos..pos + seq_.value] + "\n..\n";
      pos := pos + seq_.value + 3;
      seq_ := Find(text[pos..], "\n.\n");
    }
    EscapeTail(text[pos..]);
    if |text| - pos >= 2 && text[|text| - 2] == '\n' && text[|text| - 1] == '.' {
      ntext := ntext + text[pos..] + ".";
      pos := |text|;
      return ntext;
    }
    if pos == 0 {
      ret := text;
    } else {
      ret := ntext + text[pos..];
    }
  }

  lemma EscapeEnds(text: string)
    ensures Escape(text) == if text == "." then ".." + EscapeRest(text[1..])
                            else if |text| >= 2 && text[0] == '.' && text[1] == '\n' then "..\n" + EscapeRest(text[2..])
                            else "" + EscapeRest(text[0..])
    ensures text[0..] == text
  {
    assert text[0..] == text;
  }

  /** Up to the first match everything is copied. */
  lemma EscapeToMatch(out: string, text: string, pos: nat)
    requires pos <= |text|
    ensures var f := Find(text[pos..], "\n.\n");
            f.Some? ==>
              pos + f.value + 3 <= |text|
              && out + EscapeRest(text[pos..]) ==
                 out + text[pos..pos + f.value] + "\n..\n" + EscapeRest(text[pos + f.value + 3..])
  {
    hide EscapeRest, Find;
    var o := text[pos..];
    var f := Find(o, "\n.\n");
    if f.Some? {
      EscapeMatch(o);
      var k := f.value;
      assert o[..k] == text[pos..pos + k] && o[k + 3..] == text[pos + k + 3..];
      Assoc(out, o[..k], "\n..\n" + EscapeRest(o[k + 3..]));
      Assoc(out + o[..k], "\n..\n", EscapeRest(o[k + 3..]));
    }
  }

  lemma {:induction false} EscapeMatch(o: string)
    requires Find(o, "\n.\n").Some?
    ensures var k := Find(o, "\n.\n").value;
            EscapeRest(o) == o[..k] + ("\n..\n" + EscapeRest(o[k + 3..]))
  {
    hide EscapeRest, Find;
    FindNext(o);
    if "\n.\n" <= o {
      EscapeHere(o);
      assert o[0 + 3..] == o[3..];
      assert o[..0] + ("\n..\n" + EscapeRest(o[3..])) == "\n..\n" + EscapeRest(o[3..]);
    } else {
      EscapeHere(o);
      EscapeMatch(o[1..]);
      var k := Find(o[1..], "\n.\n").value;
      assert o[1..][k + 3..] == o[k + 1 + 3..];
      Assoc([o[0]], o[1..][..k], "\n..\n" + EscapeRest(o[k + 4..]));
      assert o[..k + 1] == [o[0]] + o[1..][..k];
    }
  }

  lemma FindNext(o: string)
    requires Find(o, "\n.\n").Some?
    ensures o != ""
    ensures if "\n.\n" <= o then Find(o, "\n.\n") == Some(0)
            else Find(o[1..], "\n.\n").Some? && Find(o, "\n.\n") == Some(Find(o[1..], "\n.\n").value + 1)
    ensures o != "\n."
  {}

  lemma EscapeHere(o: string)
    requires o != "" && o != "\n."
    ensures EscapeRest(o) == if "\n.\n" <= o then "\n..\n" + EscapeRest(o[3..]) else [o[0]] + EscapeRest(o[1..])
  {}

  /** Without a match only a lone dot at the very end is doubled. */
  lemma {:induction false} EscapeTail(o: string)
    requires Find(o, "\n.\n").None?
    ensures EscapeRest(o) == if |o| >= 2 && o[|o| - 2] == '\n' && o[|o| - 1] == '.' then o + "." else o
  {
    if o == "" || o == "\n." {
    } else {
      EscapeTail(o[1..]);
      assert o == [o[0]] + o[1..];
    }
  }

  // ---- escape_dot seen on lines

  /** A line "." is doubled unless the line before it was just doubled. */
  function EscapeLines(ls: seq<string>): seq<string>
  {
    if ls == [] then []
    else if ls[0] != "." then [ls[0]] + EscapeLines(ls[1..])
    else if |ls| == 1 then [".."]
    else ["..", ls[1]] + EscapeLines(ls[2..])
  }

  lemma FirstLineIsDot(s: string)
    ensures Lines(s)[0] == "." <==> (s == "." || ".\n" <= s)
  {
    if s != "" && s[0] == '.' {
      var ls := Lines(s[1..]);
      FirstLineIsEmpty(s[1..]);
      assert Lines(s)[0] == ['.'] + ls[0];
      assert s == "." + s[1..];
      assert ls[0] == "" ==> ['.'] + ls[0] == ".";
    }
  }

  lemma FirstLineIsEmpty(s: string)
    ensures Lines(s)[0] == "" <==> (s == "" || s[0] == '\n')
  {}

  lemma DotLineFirst(s: string)
    requires ".\n" <= s
    ensures Lines(s) == ["."] + Lines(s[2..])
  {
    assert s[1..][1..] == s[2..];
    var ls := Lines(s[2..]);
    assert Lines(s[1..]) == [""] + ls && ([""] + ls)[1..] == ls;
    assert ['.'] + "" == ".";
    assert Lines(s) == [['.'] + ""] + ls;
  }

  lemma LinesOfDot()
    ensures Lines(".") == ["."]
  {
    assert "."[1..] == "" && Lines("") == [""];
    assert ['.'] + "" == ".";
    assert Lines(".") == [['.'] + ""] + [];
  }

  ghost function AfterFirstLine(o: string): string
  {
    Lines(o)[0] + "\n" + Unlines(EscapeLines(Lines(o)[1..]))
  }

  lemma {:induction false} EscapeRestOnLines(o: string)
    ensures EscapeRest(o) + "\n" == AfterFirstLine(o)
  {
    if "\n.\n" <= o {
      MatchedLines(o);
      EscapeRestOnLines(o[3..]);
      Assoc("\n..\n", EscapeRest(o[3..]), "\n");
    } else if o == "\n." {
      LinesOfDot();
      assert o[1..] == ".";
      assert Lines(o) == ["", "."];
      UnlinesCons("..", []);
      assert EscapeLines(["."]) == [".."] + [];
    } else if o == "" {
      assert Lines(o)[1..] == [];
    } else {
      EscapeRestOnLines(o[1..]);
      OtherLines(o);
      Assoc([o[0]], EscapeRest(o[1..]), "\n");
    }
  }

  lemma MatchedLines(o: string)
    requires "\n.\n" <= o
    ensures AfterFirstLine(o) == "\n..\n" + AfterFirstLine(o[3..])
  {
    var t := Lines(o[3..]);
    assert o[1..][2..] == o[3..];
    DotLineFirst(o[1..]);
    var u := ["."] + t;
    assert Lines(o) == [""] + u && ([""] + u)[1..] == u;
    assert u[2..] == t[1..];
    assert EscapeLines(u) == ["..", t[0]] + EscapeLines(t[1..]);
    hide *;
    UnlinesCons("..", [t[0]] + EscapeLines(t[1..]));
    UnlinesCons(t[0], EscapeLines(t[1..]));
    assert [".."] + ([t[0]] + EscapeLines(t[1..])) == ["..", t[0]] + EscapeLines(t[1..]);
  }

  lemma OtherLines(o: string)
    requires o != "" && o != "\n." && !("\n.\n" <= o)
    ensures AfterFirstLine(o) == [o[0]] + AfterFirstLine(o[1..])
  {
    var t := Lines(o[1..]);
    if o[0] == '\n' {
      FirstLineIsDot(o[1..]);
      assert o == "\n" + o[1..];
      assert ([""] + t)[1..] == t;
      UnlinesCons(t[0], EscapeLines(t[1..]));
    } else {
      var first, rest := t[0], Unlines(EscapeLines(t[1..]));
      assert ([[o[0]] + first] + t[1..])[1..] == t[1..];
      assert [o[0]] + first + "\n" + rest == [o[0]] + (first + "\n" + rest);
    }
  }

  /** escape_dot is the line-by-line escaping. */
  lemma EscapeOnLines(x: string)
    ensures Escape(x) + "\n" == Unlines(EscapeLines(Lines(x)))
  {
    FirstLineIsDot(x);
    var ls := Lines(x);
    if x == "." {
      LinesOfDot();
      assert EscapeLines(ls) == [".."] + [];
      UnlinesCons("..", []);
    } else if ".\n" <= x {
      DotFirst(x);
    } else {
      EscapeRestOnLines(x);
      UnlinesCons(ls[0], EscapeLines(ls[1..]));
    }
  }

  lemma DotFirst(x: string)
    requires ".\n" <= x
    ensures Escape(x) + "\n" == Unlines(EscapeLines(Lines(x)))
  {
    hide Lines, EscapeRest, Unlines;
    var ls := Lines(x);
    var t := Lines(x[2..]);
    DotLineFirst(x);
    assert ls[2..] == t[1..];
    EscapeRestOnLines(x[2..]);
    Assoc("..\n", EscapeRest(x[2..]), "\n");
    UnlinesCons("..", [t[0]] + EscapeLines(t[1..]));
    UnlinesCons(t[0], EscapeLines(t[1..]));
    assert EscapeLines(ls) == [".."] + ([t[0]] + EscapeLines(t[1..]));
  }

  // ---- do_message

  /** otts_getline: the next line with its line feed, or what is left at the end of
      the input; None at the end. */
  function GetLine(input: string): Option<(string, string)>
  {
    if input == "" then None
    else match Find(input, "\n")
         case None => Some((input, ""))
         case Some(k) => Some((input[..k + 1], input[k + 1..]))
  }

  datatype Received =
    | Message(text: string, nlines: nat)
    | EndOfInput
    | WriteBeforeStart  // the terminator came first: there is no line feed to cut off

  /** The reading loop of do_message: the message and the input after its terminator. */
  function ReadMessage(input: string, msg: string, nlines: nat): (Received, string)
    decreases |input|
  {
    match GetLine(input)
    case None => (EndOfInput, input)
    case Some((line, rest)) =>
      if line == "..\n" then ReadMessage(rest, msg + ".\n", nlines + 1)
      else if line == ".\n" then
        (if msg == "" then WriteBeforeStart else Message(msg[..|msg| - 1], nlines + 1), rest)
      else ReadMessage(rest, msg + line, nlines + 1)
  }

  datatype MessageType = Text | SoundIcon | Char | Key

  datatype ModuleReply =
    | Speak(text: string)  // handed to the synthesizer
    | ErrorInternal        // 401
    | ErrorManyLines       // 305
    | ErrorCantSpeak       // 301
    | Undefined            // a write outside the message buffer

  /** What do_message makes of the message it has read. */
  function Judge(r: Received, msgtype: MessageType): ModuleReply
  {
    match r
    case EndOfInput => ErrorInternal
    case WriteBeforeStart => Undefined
    case Message(text, nlines) =>
      if !msgtype.Text? && nlines > 2 then ErrorManyLines
      else if msgtype.Char? && text == "space" then Speak(" ")
      else if text == "" then ErrorCantSpeak
      else Speak(text)
  }

  /** The standard input of an output module. */
  class ModuleInput {
    var stdin: string

    constructor (sent: string)
      ensures stdin == sent
    {
      stdin := sent;
    }

    method OttsGetline() returns (line: Option<string>)
      modifies this
      ensures match GetLine(old(stdin))
              case None => line == None && stdin == old(stdin)
              case Some((l, rest)) => line == Some(l) && stdin == rest && |stdin| < |old(stdin)|
    {
      var got := GetLine(stdin);
      if got.None? {
        return None;
      }
      stdin := got.value.1;
      return Some(got.value.0);
    }

    method DoMessage(msgtype: MessageType) returns (reply: ModuleReply)
      modifies this
      ensures var (r, rest) := ReadMessage(old(stdin), "", 0);
              reply == Judge(r, msgtype) && stdin == rest
    {
      hide Find;
      var msg, nlines := "", 0;
      while true
        invariant ReadMessage(stdin, msg, nlines) == ReadMessage(old(stdin), "", 0)
        decreases |stdin|
      {
        var curLine := OttsGetline();
        nlines := nlines + 1;
        if curLine.None? {
          return ErrorInternal;
        }
        var line := curLine.value;
        if line == "..\n" {
          line := ".\n";
        } else if line == ".\n" {
          if msg == "" {
            return Undefined;
          }
          msg := msg[..|msg| - 1];
          break;
        }
        msg := msg + line;
      }
      if !msgtype.Text? && nlines > 2 {
        return ErrorManyLines;
      }
      if msgtype.Char? && msg == "space" {
        msg := " ";
      }
      if msg == "" {
        return ErrorCantSpeak;
      }
      return Speak(msg);
    }
  }

  // ---- what the module reads of an escaped message

  function Undouble(l: string): string { if l == ".." then "." else l }

  function UndoubleAll(ls: seq<string>): seq<string>
  {
    seq(|ls|, i requires 0 <= i < |ls| => Undouble(ls[i]))
  }

  /** What output_speak writes after the SPEAK command for an escaped text. */
  function Sent(escaped: string): string { escaped + "\n.\n" }

  lemma GetLineCons(l: string, x: string)
    requires '\n' !in l
    ensures GetLine(l + ("\n" + x)) == Some((l + "\n", x))
  {
    var s := l + ("\n" + x);
    FindLf(l, x);
    assert s[..|l| + 1] == l + "\n" && s[|l| + 1..] == x;
  }

  lemma {:induction false} FindLf(l: string, x: string)
    requires '\n' !in l
    ensures Find(l + ("\n" + x), "\n") == Some(|l|)
  {
    var s := l + ("\n" + x);
    if l == "" {
      assert s == "\n" + x;
    } else {
      assert s[0] == l[0] && s[1..] == l[1..] + ("\n" + x);
      FindLf(l[1..], x);
    }
  }

  ghost predicate NoLf(ls: seq<string>)
  {
    forall i | 0 <= i < |ls| :: '\n' !in ls[i]
  }

  /** The module's reading of one line that is not a lone dot. */
  lemma ReadOne(l: string, x: string, msg: string, n: nat)
    requires '\n' !in l && l != "."
    ensures ReadMessage(l + "\n" + x, msg, n) == ReadMessage(x, msg + (Undouble(l) + "\n"), n + 1)
  {
    hide Find;
    GetLineCons(l, x);
    Assoc(l, "\n", x);
    SameLine(l, "..");
    SameLine(l, ".");
    assert ".." + "\n" == "..\n" && "." + "\n" == ".\n";
  }

  lemma SameLine(l: string, m: string)
    ensures l + "\n" == m + "\n" ==> l == m
  {
    assert (l + "\n")[..|l|] == l && (m + "\n")[..|m|] == m;
    assert l + "\n" == m + "\n" ==> |l + "\n"| == |m + "\n"|;
  }

  lemma ReadEnd(x: string, msg: string, n: nat)
    requires msg != ""
    ensures ReadMessage(".\n" + x, msg, n) == (Message(msg[..|msg| - 1], n + 1), x)
  {
    hide Find;
    GetLineCons(".", x);
    assert "." + ("\n" + x) == ".\n" + x && "." + "\n" == ".\n";
  }

  /** Lines without a lone dot are all read, each undoubled, up to the terminator. */
  lemma {:induction false} ReadLines(ls: seq<string>, x: string, msg: string, n: nat)
    requires NoLf(ls) && forall i | 0 <= i < |ls| :: ls[i] != "."
    requires msg != "" || ls != []
    ensures var all := msg + Unlines(UndoubleAll(ls));
            all != "" && ReadMessage(Unlines(ls) + (".\n" + x), msg, n) == (Message(all[..|all| - 1], n + |ls| + 1), x)
  {
    hide ReadMessage;
    var us := UndoubleAll(ls);
    if ls == [] {
      assert msg + "" == msg && "" + (".\n" + x) == ".\n" + x;
      ReadEnd(x, msg, n);
    } else {
      var rest := Unlines(ls[1..]) + (".\n" + x);
      Assoc(ls[0] + "\n", Unlines(ls[1..]), ".\n" + x);
      ReadOne(ls[0], rest, msg, n);
      assert us == [us[0]] + UndoubleAll(ls[1..]);
      UnlinesCons(us[0], UndoubleAll(ls[1..]));
      Assoc(msg, us[0] + "\n", Unlines(UndoubleAll(ls[1..])));
      ReadLines(ls[1..], x, msg + (us[0] + "\n"), n + 1);
    }
  }

  /** A lone dot stops the reading there, with input left over. */
  lemma {:induction false} ReadStopsAtDot(ls: seq<string>, j: nat, x: string, msg: string, n: nat)
    requires NoLf(ls) && j < |ls| && ls[j] == "." && (msg != "" || ls[0] != ".")
    ensures |ReadMessage(Unlines(ls) + x, msg, n).1| >= |x|
    decreases |ls|
  {
    hide ReadMessage;
    Assoc(ls[0] + "\n", Unlines(ls[1..]), x);
    if ls[0] == "." {
      assert "." + "\n" == ".\n";
      ReadEnd(Unlines(ls[1..]) + x, msg, n);
    } else {
      ReadOne(ls[0], Unlines(ls[1..]) + x, msg, n);
      ReadStopsAtDot(ls[1..], j - 1, x, msg + (Undouble(ls[0]) + "\n"), n + 1);
    }
  }

  // ---- exactly which texts survive

  ghost predicate NoAdjacentDots(ls: seq<string>)
  {
    forall i | 0 < i < |ls| :: !(ls[i - 1] == "." && ls[i] == ".")
  }

  ghost predicate NoDoubleDot(ls: seq<string>)
  {
    forall i | 0 <= i < |ls| :: ls[i] != ".."
  }

  /** The texts that the framing carries: no line is ".." and no two neighbouring
      lines are ".". */
  ghost predicate Framable(x: string)
  {
    NoDoubleDot(Lines(x)) && NoAdjacentDots(Lines(x))
  }

  lemma {:induction false} EscapeLinesShape(ls: seq<string>)
    requires NoAdjacentDots(ls)
    ensures |EscapeLines(ls)| == |ls|
    ensures forall i | 0 <= i < |ls| :: EscapeLines(ls)[i] == if ls[i] == "." then ".." else ls[i]
  {
    if ls == [] || |ls| == 1 {
    } else if ls[0] != "." {
      TailNoAdjacent(ls, 1);
      EscapeLinesShape(ls[1..]);
    } else {
      TailNoAdjacent(ls, 2);
      EscapeLinesShape(ls[2..]);
    }
  }

  lemma TailNoAdjacent(ls: seq<string>, k: nat)
    requires NoAdjacentDots(ls) && k <= |ls|
    ensures NoAdjacentDots(ls[k..])
  {}

  lemma {:induction false} AdjacentDotsStay(ls: seq<string>) returns (j: nat)
    requires !NoAdjacentDots(ls)
    ensures 0 < j < |EscapeLines(ls)| && EscapeLines(ls)[j] == "."
    ensures NoLf(ls) ==> NoLf(EscapeLines(ls))
    ensures EscapeLines(ls)[0] != "."
  {
    EscapeLinesNoLf(ls);
    if ls[0] != "." {
      assert !NoAdjacentDots(ls[1..]) by { AdjacentBelow(ls, 1); }
      var k := AdjacentDotsStay(ls[1..]);
      j := k + 1;
    } else if ls[1] == "." {
      j := 1;
    } else {
      assert !NoAdjacentDots(ls[2..]) by { AdjacentBelow(ls, 2); }
      var k := AdjacentDotsStay(ls[2..]);
      j := k + 2;
    }
  }

  lemma AdjacentBelow(ls: seq<string>, k: nat)
    requires !NoAdjacentDots(ls) && k <= 2 && k <= |ls|
    requires ls[0] != "." || (k == 2 && ls[1] != ".")
    requires k == 2 ==> ls[1] != "."
    ensures !NoAdjacentDots(ls[k..])
  {
    var i :| 0 < i < |ls| && ls[i - 1] == "." && ls[i] == ".";
    assert ls[k..][i - k - 1] == "." && ls[k..][i - k] == ".";
  }

  lemma {:induction false} EscapeLinesNoLf(ls: seq<string>)
    ensures NoLf(ls) ==> NoLf(EscapeLines(ls))
  {
    if !NoLf(ls) || ls == [] {
    } else {
      EscapeLinesNoLf(ls[1..]);
      if |ls| > 1 { EscapeLinesNoLf(ls[2..]); }
    }
  }

  lemma {:induction false} UnlinesLength(a: seq<string>, b: seq<string>)
    requires |a| == |b| && forall i | 0 <= i < |a| :: |a[i]| <= |b[i]|
    ensures |Unlines(a)| <= |Unlines(b)|
    ensures (exists i :: 0 <= i < |a| && |a[i]| < |b[i]|) ==> |Unlines(a)| < |Unlines(b)|
  {
    if a == [] {
    } else {
      UnlinesLength(a[1..], b[1..]);
      if i :| 0 <= i < |a| && |a[i]| < |b[i]| {
        assert i > 0 ==> |a[1..][i - 1]| < |b[1..][i - 1]|;
      }
    }
  }

  lemma LinesAreNoLf(x: string)
    ensures NoLf(Lines(x)) && NoLf(EscapeLines(Lines(x)))
  {
    LinesHoldNoLf(x);
    EscapeLinesNoLf(Lines(x));
  }

  /** Escaping and undoubling gives the lines back, or fewer bytes when one is "..". */
  lemma EscapeUndoubled(ls: seq<string>)
    requires NoAdjacentDots(ls) && ls != []
    ensures var es := EscapeLines(ls);
            es != [] && |es| == |ls| && forall i | 0 <= i < |es| :: es[i] != "."
    ensures NoDoubleDot(ls) ==> UndoubleAll(EscapeLines(ls)) == ls
    ensures !NoDoubleDot(ls) ==> |Unlines(UndoubleAll(EscapeLines(ls)))| < |Unlines(ls)|
  {
    hide EscapeLines, Unlines;
    EscapeLinesShape(ls);
    var us := UndoubleAll(EscapeLines(ls));
    if !NoDoubleDot(ls) {
      UnlinesLength(us, ls);
      var i :| 0 <= i < |ls| && ls[i] == "..";
      assert |us[i]| < |ls[i]|;
    }
  }

  /** The framing carries x, and the module stops exactly at the real terminator, if
      and only if x has no line ".." and no two neighbouring lines ".". */
  lemma FramingCarries(x: string, rest: string)
    ensures ReadMessage(Sent(Escape(x)) + rest, "", 0) == (Message(x, |Lines(x)| + 1), rest) <==> Framable(x)
    ensures var (r, left) := ReadMessage(Sent(Escape(x)) + rest, "", 0);
            r.Message? && r.text == x && left == rest <==> Framable(x)
  {
    hide ReadMessage, Escape, Lines, EscapeLines, Unlines, UndoubleAll, NoAdjacentDots, NoDoubleDot, NoLf;
    var ls := Lines(x);
    var es := EscapeLines(ls);
    assert Escape(x) + "\n.\n" + rest == Escape(x) + "\n" + (".\n" + rest);
    EscapeOnLines(x);
    LinesAreNoLf(x);
    if NoAdjacentDots(ls) {
      EscapeUndoubled(ls);
      ReadLines(es, rest, "", 0);
      var all := Unlines(UndoubleAll(es));
      assert "" + all == all;
      UnlinesOfLines(x);
      assert (x + "\n")[..|x|] == x;
      assert all[..|all| - 1] == x ==> |all| == |x + "\n"|;
    } else {
      var j := AdjacentDotsStay(ls);
      ReadStopsAtDot(es, j, ".\n" + rest, "", 0);
    }
  }

  // ---- what the module answers

  lemma {:induction false} OneLineIff(x: string)
    ensures |Lines(x)| == 1 <==> '\n' !in x
  {
    if x == "" {
    } else {
      OneLineIff(x[1..]);
      assert x == [x[0]] + x[1..];
    }
  }

  /** A message that the framing carries is spoken as it is, unless it is empty, or of several
      lines though not a text; the name of the blank is spoken as a blank. */
  lemma MessageJudged(x: string, rest: string, msgtype: MessageType)
    requires Framable(x)
    ensures Judge(ReadMessage(Sent(Escape(x)) + rest, "", 0).0, msgtype) ==
            if msgtype != Text && '\n' in x then ErrorManyLines
            else if msgtype == Char && x == "space" then Speak(" ")
            else if x == "" then ErrorCantSpeak
            else Speak(x)
  {
    hide ReadMessage, Escape, Lines, Framable;
    FramingCarries(x, rest);
    OneLineIff(x);
  }

  /** Input that ends before a terminator is an error, and all of it is read. */
  lemma {:induction false} InputEnds(ls: seq<string>, last: string, msg: string, n: nat)
    requires NoLf(ls) && '\n' !in last && forall i | 0 <= i < |ls| :: ls[i] != "."
    ensures ReadMessage(Unlines(ls) + last, msg, n) == (EndOfInput, "")
    ensures forall msgtype :: Judge(EndOfInput, msgtype) == ErrorInternal
    decreases ls
  {
    hide ReadMessage;
    if ls == [] {
      assert "" + last == last;
      LastLineRead(last, msg, n);
    } else {
      var rest := Unlines(ls[1..]) + last;
      Assoc(ls[0] + "\n", Unlines(ls[1..]), last);
      ReadOne(ls[0], rest, msg, n);
      InputEnds(ls[1..], last, msg + (Undouble(ls[0]) + "\n"), n + 1);
    }
  }

  lemma {:induction false} NoLfFound(l: string)
    requires '\n' !in l
    ensures Find(l, "\n") == None
  {
    if l == "" {
    } else {
      assert l[0] in l;
      NoLfFound(l[1..]);
    }
  }

  lemma LastLineRead(last: string, msg: string, n: nat)
    requires '\n' !in last
    ensures ReadMessage(last, msg, n) == (EndOfInput, "")
  {
    hide Find;
    NoLfFound(last);
    assert last != "..\n" && last != ".\n" by { assert "..\n"[2] == '\n' && ".\n"[1] == '\n'; }
    assert GetLine("") == None;
    if last != "" {
      assert ReadMessage("", msg + last, n + 1) == (EndOfInput, "");
    }
  }

  /** A terminator that comes first makes the module write outside its buffer. */
  lemma TerminatorFirst(rest: string, msgtype: MessageType)
    ensures ReadMessage(".\n" + rest, "", 0) == (WriteBeforeStart, rest)
    ensures Judge(WriteBeforeStart, msgtype) == Undefined
  {
    assert ".\n" + rest == "." + ("\n" + rest) && "." + "\n" == ".\n";
    GetLineCons(".", rest);
  }
}
