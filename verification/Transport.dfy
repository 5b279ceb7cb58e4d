/** The way of a TEXT-mode message from spd_say to a synthesizer that strips markup:
    dot-stuffing, CRLF lines, un-stuffing, index marks, LF framing and the module's
    reader undo each other. */
module Transport {
  import opened CStrings
  import Utf8
  import ClientText
  import SsipData
  import opened IndexMarking
  import OutputFraming
  import ModuleText

  // ---- stuffing and the encoding check

  /** Where the stuffed text has no CR, it is the text. */
  lemma {:induction false} StuffRestKeeps(s: string, j: nat)
    requires var r := ClientText.StuffRest(s);
             j <= |r| && forall i | 0 <= i < j :: r[i] != '\r'
    ensures j <= |s| && s[..j] == ClientText.StuffRest(s)[..j]
  {
    if j == 0 {
    } else {
      var r := ClientText.StuffRest(s);
      var u := ClientText.StuffRest(s[1..]);
      var head := r[0];
      assert "\r\n." <= s ==> head == '\r';
      assert r == [s[0]] + u && forall i | 0 <= i < j - 1 :: u[i] == r[i + 1];
      StuffRestKeeps(s[1..], j - 1);
      assert s == [s[0]] + s[1..];
    }
  }

  lemma {:induction false} StuffRestCopies(p: string, x: string)
    requires '\r' !in p
    ensures ClientText.StuffRest(p + x) == p + ClientText.StuffRest(x)
  {
    if p == "" {
      assert p + x == x;
    } else {
      assert (p + x)[0] == p[0] && (p + x)[1..] == p[1..] + x;
      StuffRestCopies(p[1..], x);
      assert p == [p[0]] + p[1..];
    }
  }

  lemma ValidCharLocal(s: string, t: string)
    requires s != "" && t != "" && s[0] == t[0]
    requires Utf8.Skip(s[0]) <= |s| && Utf8.Skip(s[0]) <= |t| && s[..Utf8.Skip(s[0])] == t[..Utf8.Skip(s[0])]
    ensures Utf8.ValidChar(s) <==> Utf8.ValidChar(t)
  {
    var k := Utf8.Skip(s[0]);
    assert forall i | 0 <= i < k :: s[i] == s[..k][i] && t[i] == t[..k][i];
  }

  lemma AsciiStep(c: char, x: string)
    requires 0 < c as int < 0x80
    ensures Utf8.Valid([c] + x) <==> Utf8.Valid(x)
  {
    assert ([c] + x)[1..] == x;
  }

  /** One character: it is valid in the stuffed text iff it is in the text, and then
      both go on behind it. */
  lemma StuffedChar(s: string)
    requires s != "" && !("\r\n." <= s)
    ensures var r := ClientText.StuffRest(s);
            r != "" && (Utf8.ValidChar(r) <==> Utf8.ValidChar(s))
            && (Utf8.ValidChar(s) ==>
                  r[0] == s[0] && r[Utf8.Skip(s[0])..] == ClientText.StuffRest(s[Utf8.Skip(s[0])..]))
  {
    var r := ClientText.StuffRest(s);
    var k := Utf8.Skip(s[0]);
    assert r[0] == s[0];
    if k == 1 {
      assert s[..1] == [s[0]] && r[..1] == [r[0]];
      ValidCharLocal(s, r);
    } else {
      if Utf8.ValidChar(s) {
        Utf8.LongCharIsNotAscii(s);
        assert s == s[..k] + s[k..];
        StuffRestCopies(s[..k], s[k..]);
        assert r[..k] == s[..k];
        ValidCharLocal(s, r);
      } else if Utf8.ValidChar(r) {
        StuffRestKeeps(s, k);
        ValidCharLocal(s, r);
      }
    }
  }

  lemma {:induction false} StuffRestValid(s: string)
    ensures Utf8.Valid(ClientText.StuffRest(s)) <==> Utf8.Valid(s)
    decreases |s|
  {
    hide Utf8.ValidChar;
    var r := ClientText.StuffRest(s);
    if s == "" {
    } else if "\r\n." <= s {
      var x := s[3..];
      StuffRestValid(x);
      var y := ClientText.StuffRest(x);
      assert s == "\r" + ("\n" + ("." + x)) && r == "\r" + ("\n" + ("." + ("." + y)));
      AsciiStep('.', x); AsciiStep('\n', "." + x); AsciiStep('\r', "\n" + ("." + x));
      AsciiStep('.', y); AsciiStep('.', "." + y);
      AsciiStep('\n', "." + ("." + y)); AsciiStep('\r', "\n" + ("." + ("." + y)));
    } else {
      StuffedChar(s);
      ValidSkip(s);
      if Utf8.ValidChar(s) {
        StuffRestValid(s[Utf8.Skip(s[0])..]);
      }
    }
  }

  lemma ValidSkip(s: string)
    ensures Utf8.ValidChar(s) ==> s != "" && Utf8.Skip(s[0]) <= |s|
  {}

  /** The server's encoding check passes on the stuffed text iff it would on the text. */
  lemma StuffValid(text: string)
    ensures Utf8.Valid(ClientText.Stuff(text)) <==> Utf8.Valid(text)
  {
    hide Utf8.ValidChar, Utf8.Valid, ClientText.StuffRest;
    if "." <= text {
      var x, y := text[1..], ClientText.StuffRest(text[1..]);
      StuffRestValid(x);
      assert text == "." + x && ClientText.Stuff(text) == "." + ("." + y);
      AsciiStep('.', x); AsciiStep('.', y); AsciiStep('.', "." + y);
    } else {
      StuffRestValid(text);
    }
  }

  /** What the server queues for any C string: an empty text arrives as a lone CRLF,
      every other text as it is, unless it is not valid UTF-8. */
  function Received(text: string): SsipData.Reply
  {
    if !Utf8.Valid(text) then SsipData.InvalidEncoding
    else SsipData.Queued(if text == "" then "\r\n" else text)
  }

  lemma ServerReceives(text: string, rest: string)
    requires '\0' !in text
    ensures SsipData.Receive(ClientText.Stuff(text) + (SsipData.TERMINATOR + rest), "") == (Received(text), rest)
  {
    hide SsipData.Receive, ClientText.Stuff, SsipData.Unstuff, Utf8.Valid;
    var s := ClientText.Stuff(text);
    SsipData.StuffIsTransparent(text);
    SsipData.ReceiveTransparent(s, rest, "");
    var all := "" + (s + "\r\n");
    assert all == s + "\r\n";
    StuffValid(text);
    SsipData.UnstuffStuff(text);
    StuffEmpty(text);
    if text == "" {
      LoneCrlf();
      assert all == "\r\n" && all[..2] == "\r\n";
    } else {
      assert all[..|all| - 2] == s;
    }
  }

  lemma StuffEmpty(text: string)
    ensures ClientText.Stuff(text) == "" <==> text == ""
  {
    if text != "" && text[0] != '.' { ClientText.StuffRestDoublesDots(text); }
  }

  lemma LoneCrlf()
    ensures Utf8.Valid("\r\n") && Utf8.Valid("") && SsipData.Unstuff("\r\n") == "\r\n"
  {
    assert "\r\n"[1..] == "\n" && "\n"[1..] == "";
    AsciiStep('\n', "");
    AsciiStep('\r', "\n");
    assert "\n" + "" == "\n" && "\r" + "\n" == "\r\n";
    assert SsipData.UnstuffRest("\n") == "\n" && SsipData.UnstuffRest("\r\n") == "\r\n";
  }

  // ---- marked text has no lone dots

  /** No dot stands right before a line feed. */
  ghost predicate NoDotBeforeLf(s: string)
  {
    forall i | 0 < i < |s| :: !(s[i - 1] == '.' && s[i] == '\n')
  }

  lemma NoDotConcat(a: string, b: string)
    requires NoDotBeforeLf(a) && NoDotBeforeLf(b)
    requires a != "" && b != "" ==> !(a[|a| - 1] == '.' && b[0] == '\n')
    ensures NoDotBeforeLf(a + b)
  {}

  lemma {:induction false} MarkedHead(s: string, n: nat, isSpace: SpaceTest)
    requires MarkText(s, n, isSpace) != "" && MarkText(s, n, isSpace)[0] == '\n'
    ensures s != "" && s[0] == '\n'
  {}

  lemma {:induction false} MarkTextNoDotBeforeLf(s: string, n: nat, isSpace: SpaceTest)
    requires isSpace('\n' as int)
    ensures NoDotBeforeLf(MarkText(s, n, isSpace))
  {
    hide MarkTag;
    if s == "" {
    } else {
      var e := EscapeChar(s[0]);
      if EndsHere(s, isSpace) {
        var rest := MarkText(s[1..], n + 1, isSpace);
        MarkTextNoDotBeforeLf(s[1..], n + 1, isSpace);
        TagNoLf(n);
        NoDotConcat(MarkTag(n), rest);
        NoDotConcat(e, MarkTag(n) + rest);
      } else {
        var rest := MarkText(s[1..], n, isSpace);
        MarkTextNoDotBeforeLf(s[1..], n, isSpace);
        if s[0] == '.' && rest != "" && rest[0] == '\n' {
          MarkedHead(s[1..], n, isSpace);
          LfIsBreak(s[1..], isSpace);
        }
        NoDotConcat(e, rest);
      }
    }
  }

  lemma LfIsBreak(s: string, isSpace: SpaceTest)
    requires s != "" && s[0] == '\n' && isSpace('\n' as int)
    ensures BreakAt(s, isSpace)
  {}

  lemma TagNoLf(n: nat)
    ensures MarkTag(n) != "" && MarkTag(n)[0] == '<' && MarkTag(n)[|MarkTag(n)| - 1] == '>'
    ensures NoDotBeforeLf(MarkTag(n))
  {
    hide MarkTag, MarkInner, HeadHere;
    MarkTagShape(n);
    NoDotConcat(MarkInner(n), ">");
    NoDotConcat("<", MarkInner(n) + ">");
  }

  /** A text with no dot before a line feed or at its end has no line "." or "..". */
  lemma {:induction false} LinesDoNotEndInDot(s: string)
    requires NoDotBeforeLf(s) && (s == "" || s[|s| - 1] != '.')
    ensures forall i | 0 <= i < |OutputFraming.Lines(s)| ::
              OutputFraming.Lines(s)[i] != "." && OutputFraming.Lines(s)[i] != ".."
    ensures s != "" && s[0] == '.' ==> OutputFraming.Lines(s)[0] != "" && OutputFraming.Lines(s)[0] != "."
  {
    if s == "" {
    } else {
      var t := s[1..];
      assert forall i | 0 < i < |t| :: t[i - 1] == s[i] && t[i] == s[i + 1];
      LinesDoNotEndInDot(t);
      var ls := OutputFraming.Lines(t);
      if s[0] == '.' {
        OutputFraming.FirstLineIsEmpty(t);
        assert t != "" && t[0] == s[1];
        assert t[0] != '\n' && ls[0] != "" && ls[0] != ".";
      }
      if s[0] != '\n' {
        FirstLineGrows(s[0], ls[0]);
        assert OutputFraming.Lines(s) == [[s[0]] + ls[0]] + ls[1..];
      }
    }
  }

  lemma FirstLineGrows(c: char, l: string)
    requires c == '.' ==> l != "" && l != "."
    ensures [c] + l != "." && [c] + l != ".." && [c] + l != ""
  {
    assert ([c] + l)[0] == c && ([c] + l)[1..] == l;
    assert ".."[1..] == "." && "."[1..] == "";
  }

  ghost predicate NoDotLine(ls: seq<string>)
  {
    forall i | 0 <= i < |ls| :: ls[i] != "." && ls[i] != ".."
  }

  lemma NoDotLineFramable(x: string)
    requires NoDotLine(OutputFraming.Lines(x))
    ensures OutputFraming.Framable(x)
  {
    hide OutputFraming.Lines;
  }

  lemma MarkedHasNoDotLines(text: string, isSpace: SpaceTest)
    requires isSpace('\n' as int)
    ensures NoDotLine(OutputFraming.Lines(InsertMarks(text, TextMode, isSpace)))
  {
    hide MarkText, OutputFraming.Lines;
    var body := MarkText(text, 0, isSpace);
    MarkTextNoDotBeforeLf(text, 0, isSpace);
    NoDotConcat("<speak>", body);
    NoDotConcat("<speak>" + body, "</speak>");
    LinesDoNotEndInDot("<speak>" + body + "</speak>");
  }

  /** In TEXT mode, every marked message is one that the framing carries. */
  lemma MarkedIsFramable(text: string, isSpace: SpaceTest)
    requires isSpace('\n' as int)
    ensures OutputFraming.Framable(InsertMarks(text, TextMode, isSpace))
  {
    hide InsertMarks, NoDotLine, OutputFraming.Lines, OutputFraming.Framable;
    MarkedHasNoDotLines(text, isSpace);
    NoDotLineFramable(InsertMarks(text, TextMode, isSpace));
  }

  // ---- stripping the marked text

  lemma {:induction false} StripMarkedBody(s: string, n: nat, tail: string, isSpace: SpaceTest)
    ensures ModuleText.StripSsml(MarkText(s, n, isSpace) + tail, false) == s + ModuleText.StripSsml(tail, false)
  {
    hide ModuleText.StripSsml, MarkTag, MarkInner, EndsHere, HeadHere;
    if s == "" {
      assert "" + tail == tail && "" + ModuleText.StripSsml(tail, false) == ModuleText.StripSsml(tail, false);
    } else {
      var e := EscapeChar(s[0]);
      var m := if EndsHere(s, isSpace) then n + 1 else n;
      var rest := MarkText(s[1..], m, isSpace);
      var end := if EndsHere(s, isSpace) then MarkTag(n) + rest else rest;
      Assoc(e, end, tail);
      StripEscaped(s[0], end + tail);
      if EndsHere(s, isSpace) {
        MarkTagShape(n);
        Assoc(MarkTag(n), rest, tail);
        ModuleText.StripTag(MarkInner(n), rest + tail);
      }
      StripMarkedBody(s[1..], m, tail, isSpace);
      Assoc([s[0]], s[1..], ModuleText.StripSsml(tail, false));
      assert s == [s[0]] + s[1..];
    }
  }

  lemma StripEscaped(c: char, x: string)
    ensures ModuleText.StripSsml(EscapeChar(c) + x, false) == [c] + ModuleText.StripSsml(x, false)
  {
    hide ModuleText.StripSsml;
    var e := EscapeChar(c);
    var s := e + x;
    ModuleText.TurnUnfolds(s, false);
    assert e <= s && s[|e|..] == x && s[0] == e[0];
    assert c in {'<', '>', '&'} ==> s[1] == e[1] && e[1] == EscapeChar(c)[1];
    assert c in {'<', '>', '&'} || s[0] != '&';
  }

  /** Stripping the marked message gives the message. */
  lemma StripMarked(text: string, isSpace: SpaceTest)
    ensures ModuleText.StripSsml(InsertMarks(text, TextMode, isSpace), false) == text
  {
    hide ModuleText.StripSsml, MarkText;
    var body := MarkText(text, 0, isSpace);
    Assoc("<speak>", body, "</speak>");
    assert "<" + ("speak" + ">") == "<speak>" && "<" + ("/speak" + ">") + "" == "</speak>";
    ModuleText.StripTag("speak", body + "</speak>");
    StripMarkedBody(text, 0, "</speak>", isSpace);
    ModuleText.StripTag("/speak", "");
    ModuleText.StripEnds("", false);
    assert ""[0..] == "" && text + "" == text;
  }

  // ---- from end to end

  /** What the synthesizer speaks when a client says text: None when the server
      refuses the encoding. */
  function Spoken(text: string): Option<string>
  {
    if !Utf8.Valid(text) then None else Some(if text == "" then "\r\n" else text)
  }

  /** End to end, by running every step: for every C string that a client passes to
      spd_say in TEXT mode, the module's text is the client's text, and the server
      rejects it exactly when it is not valid UTF-8.  The one exception is the empty
      text, which arrives as a lone CRLF. */
  method Say(text: string, isSpace: SpaceTest) returns (spoken: Option<string>)
    requires '\0' !in text && isSpace('\n' as int)
    ensures spoken == Spoken(text)
    ensures spoken == Some(text) <==> Utf8.Valid(text) && text != ""
  {
    hide ClientText.Stuff, Utf8.Valid, SsipData.Receive, InsertMarks, OutputFraming.Escape, OutputFraming.ReadMessage,
         ModuleText.StripSsml, OutputFraming.Framable;
    var escaped := ClientText.EscapeDot(text);
    var socket := new SsipData.Socket(escaped + (SsipData.TERMINATOR + ""));
    socket.Speak();
    ServerReceives(text, "");
    var reply := socket.ServeData();
    if reply == SsipData.InvalidEncoding {
      return None;
    }
    var buf := reply.text;
    LoneCrlf();
    var marked := InsertIndexMarks(buf, TextMode, isSpace);
    MarkedIsFramable(buf, isSpace);
    StripMarked(buf, isSpace);
    StripOfEmpty();
    var sent := OutputFraming.EscapeDot(marked);
    OutputFraming.FramingCarries(marked, "");
    var input := new OutputFraming.ModuleInput(OutputFraming.Sent(sent) + "");
    var answer := input.DoMessage(OutputFraming.Text);
    var plain := ModuleText.ModuleStripSsml(answer.text);
    return Some(plain);
  }

  lemma StripOfEmpty()
    ensures ModuleText.StripSsml("", false) == ""
  {}
}
