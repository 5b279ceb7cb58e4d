/** The way of an SSML text from the client to the module: exactly which texts the framing
    between server and module carries once they are marked. */
module SsmlFraming {
  import opened CStrings
  import Utf8
  import ClientText
  import SsipData
  import opened IndexMarking
  import opened OutputFraming
  import SsmlMarking
  import Transport

  /** Whether a tag is open behind the character c. */
  predicate TagBehind(c: char, insideTag: bool)
  {
    c == '<' || (insideTag && c != '>')
  }

  /** For each line of s, whether a tag is open where it begins. */
  function InTag(s: string, insideTag: bool): (bs: seq<bool>)
    ensures |bs| == |Lines(s)|
  {
    if s == "" then [insideTag]
    else
      var bs := InTag(s[1..], TagBehind(s[0], insideTag));
      [insideTag] + if s[0] == '\n' then bs else bs[1..]
  }

  /** The SSML texts that arrive: no line ".." is the last one or begins inside a tag, and
      no two neighbouring lines "." begin inside a tag. */
  ghost predicate Carried(s: string)
  {
    var ls, tags := Lines(s), InTag(s, false);
    (forall i | 0 <= i < |ls| :: !(ls[i] == ".." && (tags[i] || i == |ls| - 1)))
    && forall i | 0 < i < |ls| :: !(ls[i - 1] == "." && ls[i] == "." && tags[i - 1])
  }

  // ---- the lines of a marked text

  lemma {:induction false} LinesBehind(p: string, x: string)
    requires '\n' !in p
    ensures Lines(p + x) == [p + Lines(x)[0]] + Lines(x)[1..]
  {
    var ls := Lines(x);
    if p == "" {
      assert p + x == x && p + ls[0] == ls[0];
    } else {
      assert (p + x)[0] == p[0] && (p + x)[1..] == p[1..] + x;
      LinesBehind(p[1..], x);
      Assoc([p[0]], p[1..], ls[0]);
      assert [p[0]] + p[1..] == p;
      var l := p[1..] + ls[0];
      assert ([l] + ls[1..])[1..] == ls[1..];
    }
  }

  lemma TagHoldsNoLf(n: nat)
    ensures '\n' !in MarkTag(n) && |MarkTag(n)| > 1
  {
    hide MarkTag, MarkInner, HeadHere;
    MarkTagShape(n);
    assert "<" + (MarkInner(n) + ">") == MarkTag(n);
  }

  /** What marking makes of the first character: it stays, and a mark may follow. */
  lemma MarkedStep(s: string, n: nat, insideTag: bool, isSpace: SpaceTest)
    requires s != ""
    ensures var tag := TagBehind(s[0], insideTag);
            MarkSsml(s, n, insideTag, isSpace) ==
            if !insideTag && EndsHere(s, isSpace) then [s[0]] + (MarkTag(n) + MarkSsml(s[1..], n + 1, tag, isSpace))
            else [s[0]] + MarkSsml(s[1..], n, tag, isSpace)
  {
    hide MarkTag, BreakAt;
  }

  lemma {:induction false} MarkedBegins(s: string, n: nat, insideTag: bool, isSpace: SpaceTest)
    ensures MarkSsml(s, n, insideTag, isSpace) == "" <==> s == ""
    ensures s != "" ==> MarkSsml(s, n, insideTag, isSpace)[0] == s[0]
  {
    hide MarkTag, EndsHere;
  }

  /** No mark stands between a full stop and another one, and one stands between a full
      stop and a line feed. */
  lemma DotBreaks(s: string, isSpace: SpaceTest)
    requires isSpace('\n' as int) && !isSpace('.' as int)
    ensures s != "" && s[0] == '\n' ==> BreakAt(s, isSpace)
    ensures s != "" && s[0] == '.' ==> !BreakAt(s, isSpace)
    ensures s == "" ==> !BreakAt(s, isSpace)
  {}

  /** Which lines of the marked text are lone dots, and which are two dots. */
  ghost predicate DotLines(ls: seq<string>, tags: seq<bool>, marked: seq<string>)
  {
    |ls| == |tags| == |marked|
    && forall i | 0 <= i < |ls| ::
         (marked[i] == "." <==> ls[i] == "." && (tags[i] || i == |ls| - 1))
         && (marked[i] == ".." <==> ls[i] == ".." && (tags[i] || i == |ls| - 1))
  }

  /** The first line, from what is known of the text behind its first character. */
  lemma FirstLineMarked(s: string, n: nat, insideTag: bool, isSpace: SpaceTest)
    requires isSpace('\n' as int) && !isSpace('.' as int) && s != "" && s[0] != '\n'
    requires var m := if !insideTag && EndsHere(s, isSpace) then n + 1 else n;
             var tag := TagBehind(s[0], insideTag);
             DotLines(Lines(s[1..]), InTag(s[1..], tag), Lines(MarkSsml(s[1..], m, tag, isSpace)))
    ensures var ls, ks := Lines(s), Lines(MarkSsml(s, n, insideTag, isSpace));
            (ks[0] == "." <==> ls[0] == "." && (insideTag || |ls| == 1))
            && (ks[0] == ".." <==> ls[0] == ".." && (insideTag || |ls| == 1))
  {
    hide MarkTag, MarkSsml, Lines, InTag, BreakAt;
    var t, tag := s[1..], TagBehind(s[0], insideTag);
    var marks := !insideTag && EndsHere(s, isSpace);
    var rest := MarkSsml(t, if marks then n + 1 else n, tag, isSpace);
    var ls, ks := Lines(t), Lines(rest);
    MarkedStep(s, n, insideTag, isSpace);
    FirstLineIsEmpty(t);
    FirstLineIsEmpty(rest);
    MarkedBegins(t, if marks then n + 1 else n, tag, isSpace);
    DotBreaks(t, isSpace);
    assert [s[0]] + t == s;
    LineGrows(s[0], t);
    InTagFirst(t, tag);
    if marks {
      TagHoldsNoLf(n);
      LinesBehind(MarkTag(n), rest);
      LineGrows(s[0], MarkTag(n) + rest);
      assert |[s[0]] + (MarkTag(n) + ks[0])| > 2;
    } else {
      LineGrows(s[0], rest);
    }
    DotGrows(s[0], ls[0]);
    DotGrows(s[0], ks[0]);
    SingleLine(t);
    FirstLineIsDot(t);
  }

  lemma InTagFirst(s: string, insideTag: bool)
    ensures InTag(s, insideTag)[0] == insideTag
  {}

  lemma LineGrows(c: char, t: string)
    requires c != '\n'
    ensures Lines([c] + t) == [[c] + Lines(t)[0]] + Lines(t)[1..]
  {
    assert ([c] + t)[1..] == t;
  }

  lemma DotGrows(c: char, l: string)
    ensures [c] + l == "." <==> c == '.' && l == ""
    ensures [c] + l == ".." <==> c == '.' && l == "."
  {
    assert ([c] + l)[0] == c && ([c] + l)[1..] == l;
    assert ".."[1..] == "." && "."[1..] == "";
  }

  /** A text whose first line is empty or a lone dot has no more lines only if that is all. */
  lemma SingleLine(t: string)
    ensures Lines(t)[0] == "" ==> (|Lines(t)| == 1 <==> t == "")
  {
    FirstLineIsEmpty(t);
  }

  lemma {:induction false} MarkedLines(s: string, n: nat, insideTag: bool, isSpace: SpaceTest)
    requires isSpace('\n' as int) && !isSpace('.' as int)
    ensures DotLines(Lines(s), InTag(s, insideTag), Lines(MarkSsml(s, n, insideTag, isSpace)))
  {
    hide MarkTag, EndsHere, DotLines;
    if s == "" {
      NoLines(insideTag);
    } else {
      hide MarkSsml, Lines, InTag;
      var t, tag := s[1..], TagBehind(s[0], insideTag);
      var marks := !insideTag && EndsHere(s, isSpace);
      var m := if marks then n + 1 else n;
      var rest := MarkSsml(t, m, tag, isSpace);
      MarkedLines(t, m, tag, isSpace);
      MarkedStep(s, n, insideTag, isSpace);
      InTagStep(s, insideTag);
      if s[0] == '\n' {
        LfIsNoEnd(s, isSpace);
        LfLine(s);
        LfLine([s[0]] + rest);
        assert ([s[0]] + rest)[1..] == rest;
        ShiftedLines(Lines(t), InTag(t, tag), Lines(rest), insideTag);
      } else {
        FirstLineMarked(s, n, insideTag, isSpace);
        assert [s[0]] + t == s;
        LineGrows(s[0], t);
        if marks {
          TagHoldsNoLf(n);
          LinesBehind(MarkTag(n), rest);
          LineGrows(s[0], MarkTag(n) + rest);
        } else {
          LineGrows(s[0], rest);
        }
        GrownLines(Lines(t), InTag(t, tag), Lines(rest), Lines(s)[0], insideTag,
                   Lines(MarkSsml(s, n, insideTag, isSpace))[0]);
      }
    }
  }

  lemma NoLines(insideTag: bool)
    ensures DotLines([""], [insideTag], [""])
  {}

  lemma InTagStep(s: string, insideTag: bool)
    requires s != ""
    ensures var bs := InTag(s[1..], TagBehind(s[0], insideTag));
            InTag(s, insideTag) == [insideTag] + if s[0] == '\n' then bs else bs[1..]
  {}

  lemma LfLine(s: string)
    requires s != "" && s[0] == '\n'
    ensures Lines(s) == [""] + Lines(s[1..])
  {}

  lemma GrownLines(ls: seq<string>, tags: seq<bool>, marked: seq<string>, l: string, insideTag: bool, k: string)
    requires DotLines(ls, tags, marked) && |ls| >= 1
    requires k == "." <==> l == "." && (insideTag || |ls| == 1)
    requires k == ".." <==> l == ".." && (insideTag || |ls| == 1)
    ensures DotLines([l] + ls[1..], [insideTag] + tags[1..], [k] + marked[1..])
  {}

  lemma LfIsNoEnd(s: string, isSpace: SpaceTest)
    requires s != "" && s[0] == '\n'
    ensures !EndsHere(s, isSpace)
  {}

  lemma ShiftedLines(ls: seq<string>, tags: seq<bool>, marked: seq<string>, insideTag: bool)
    requires DotLines(ls, tags, marked)
    ensures DotLines([""] + ls, [insideTag] + tags, [""] + marked)
  {}

  /** A line "." neither opens nor closes a tag. */
  lemma {:induction false} DotLineKeepsTag(s: string, insideTag: bool, i: nat)
    requires 0 < i < |Lines(s)| && Lines(s)[i - 1] == "."
    ensures InTag(s, insideTag)[i] == InTag(s, insideTag)[i - 1]
    decreases |s|
  {
    if s == "" {
    } else {
      var t, tag := s[1..], TagBehind(s[0], insideTag);
      InTagStep(s, insideTag);
      if s[0] == '\n' {
        LfLine(s);
        DotLineKeepsTag(t, tag, i - 1);
      } else {
        assert [s[0]] + t == s;
        LineGrows(s[0], t);
        if i == 1 {
          FirstLineIsEmpty(t);
          DotGrows(s[0], Lines(t)[0]);
          SingleLine(t);
          InTagStep(t, tag);
          LfLine(t);
          InTagFirst(t[1..], TagBehind(t[0], tag));
        } else {
          DotLineKeepsTag(t, tag, i);
        }
      }
    }
  }

  /** Exactly which SSML texts can be framed when they are marked. */
  lemma MarkedSsmlFramableIff(s: string, isSpace: SpaceTest)
    requires isSpace('\n' as int) && !isSpace('.' as int)
    ensures Framable(InsertMarks(s, SsmlMode, isSpace)) <==> Carried(s)
  {
    hide MarkSsml, Lines, InTag;
    var m := MarkSsml(s, 0, false, isSpace);
    assert InsertMarks(s, SsmlMode, isSpace) == m by { assert "" + m + "" == m; }
    MarkedLines(s, 0, false, isSpace);
    var ls, tags, ks := Lines(s), InTag(s, false), Lines(m);
    forall i | 0 < i < |ls| && ls[i - 1] == "."
      ensures tags[i] == tags[i - 1]
    {
      DotLineKeepsTag(s, false, i);
    }
  }

  /** The module recovers the marked SSML text, and stops exactly at the real terminator, if
      and only if the text is one of those. */
  lemma SsmlArrivesIff(s: string, isSpace: SpaceTest, rest: string)
    requires isSpace('\n' as int) && !isSpace('.' as int)
    ensures var marked := InsertMarks(s, SsmlMode, isSpace);
            ReadMessage(Sent(Escape(marked)) + rest, "", 0) == (Message(marked, |Lines(marked)| + 1), rest)
            <==> Carried(s)
  {
    hide *;
    FramingCarries(InsertMarks(s, SsmlMode, isSpace), rest);
    MarkedSsmlFramableIff(s, isSpace);
  }

  // ---- texts that do not arrive

  lemma DotsEscaped()
    ensures Escape("x\n..") == "x\n.."
  {
    assert "x\n.."[1..] == "\n.." && "\n.."[1..] == ".." && ".."[1..] == "." && "."[1..] == "";
    assert EscapeRest("") == "" && EscapeRest(".") == ['.'] + "" == ".";
    assert EscapeRest("..") == ['.'] + "." == "..";
    assert EscapeRest("\n..") == ['\n'] + ".." == "\n..";
    assert EscapeRest("x\n..") == ['x'] + "\n.." == "x\n..";
  }

  lemma DotsUnmarked(isSpace: SpaceTest)
    requires !isSpace('.' as int)
    ensures InsertMarks("x\n..", SsmlMode, isSpace) == "x\n.."
  {
    hide MarkTag;
    assert "x\n.."[1..] == "\n.." && "\n.."[1..] == ".." && ".."[1..] == "." && "."[1..] == "";
    assert MarkSsml("", 0, false, isSpace) == "" && MarkSsml(".", 0, false, isSpace) == ".";
    assert MarkSsml("..", 0, false, isSpace) == ".." && MarkSsml("\n..", 0, false, isSpace) == "\n..";
  }

  lemma DotsRead(rest: string)
    ensures ReadMessage("x\n..\n" + (".\n" + rest), "", 0) == (Message("x\n.", 3), rest)
  {
    hide ReadMessage;
    var tail := "..\n" + (".\n" + rest);
    assert "x\n..\n" + (".\n" + rest) == "x" + "\n" + tail && tail == ".." + "\n" + (".\n" + rest);
    ReadOne("x", tail, "", 0);
    ReadOne("..", ".\n" + rest, "x\n", 1);
    ReadEnd(rest, "x\n.\n", 2);
    assert "" + ("x" + "\n") == "x\n" && "x\n" + ("." + "\n") == "x\n.\n" && "x\n.\n"[..3] == "x\n.";
  }

  /** The last line "..", which gets no mark, loses a dot. */
  lemma LastDotIsLost(isSpace: SpaceTest, rest: string)
    requires isSpace('\n' as int) && !isSpace('.' as int)
    ensures var s := "x\n..";
            InsertMarks(s, SsmlMode, isSpace) == s && !Carried(s)
            && ReadMessage(Sent(Escape(s)) + rest, "", 0) == (Message("x\n.", 3), rest)
  {
    hide ReadMessage, Escape, InsertMarks, Carried, Lines;
    DotsUnmarked(isSpace);
    DotsEscaped();
    DotsRead(rest);
    SsmlArrivesIff("x\n..", isSpace, rest);
    assert Sent("x\n..") + rest == "x\n..\n" + (".\n" + rest);
  }

  lemma TagIsCopied(isSpace: SpaceTest)
    ensures InsertMarks("<a\n.\n.\n>", SsmlMode, isSpace) == "<a\n.\n.\n>"
  {
    hide MarkTag, BreakAt;
    var s := "<a\n.\n.\n>";
    var tag := "a\n.\n.\n";
    assert s[1..] == tag + (">" + "");
    SsmlMarking.InsideTagIsVerbatim(tag, "", 0, isSpace);
    assert MarkSsml("", 0, false, isSpace) == "";
    assert MarkSsml(s, 0, false, isSpace) == "<" + (tag + ">");
  }

  lemma TagEscaped()
    ensures Escape("<a\n.\n.\n>") == "<a\n..\n.\n>"
  {
    var s := "<a\n.\n.\n>";
    assert s[1..] == "a\n.\n.\n>" && s[1..][1..] == "\n.\n.\n>" && "\n.\n.\n>"[3..] == ".\n>";
    assert ".\n>"[1..] == "\n>" && "\n>"[1..] == ">" && ">"[1..] == "";
    assert EscapeRest("") == "" && EscapeRest(">") == ">" && EscapeRest("\n>") == "\n>";
    assert EscapeRest(".\n>") == ".\n>" && EscapeRest("\n.\n.\n>") == "\n..\n" + ".\n>";
  }

  lemma TagRead(tail: string)
    ensures ReadMessage("<a\n" + ("..\n" + (".\n" + tail)), "", 0) == (Message("<a\n.", 3), tail)
  {
    hide ReadMessage;
    var second := "..\n" + (".\n" + tail);
    assert "<a\n" + second == "<a" + "\n" + second && second == ".." + "\n" + (".\n" + tail);
    ReadOne("<a", second, "", 0);
    ReadOne("..", ".\n" + tail, "<a\n", 1);
    ReadEnd(tail, "<a\n.\n", 2);
    assert "" + ("<a" + "\n") == "<a\n" && "<a\n" + ("." + "\n") == "<a\n.\n" && "<a\n.\n"[..4] == "<a\n.";
  }

  /** Of two lines "." in a tag the second is taken for the end: the module reads what is
      behind it as its next input. */
  lemma TagIsCutShort(isSpace: SpaceTest, rest: string)
    requires isSpace('\n' as int) && !isSpace('.' as int)
    ensures var s := "<a\n.\n.\n>";
            InsertMarks(s, SsmlMode, isSpace) == s && !Carried(s)
            && ReadMessage(Sent(Escape(s)) + rest, "", 0) == (Message("<a\n.", 3), ">\n.\n" + rest)
  {
    hide ReadMessage, Escape, InsertMarks, Carried, Lines;
    TagIsCopied(isSpace);
    TagEscaped();
    SsmlArrivesIff("<a\n.\n.\n>", isSpace, rest);
    TagRead(">\n.\n" + rest);
    assert Sent("<a\n..\n.\n>") + rest == "<a\n" + ("..\n" + (".\n" + (">\n.\n" + rest)));
  }

  // ---- from end to end

  /** What comes of an SSML text that a client sends: the server may refuse its encoding;
      otherwise the module answers, and something may be left of its input. */
  datatype Outcome = Refused | Answered(reply: ModuleReply, left: string)

  /** By running every step: an SSML text that a client passes to spd_say is refused exactly
      if it is not valid UTF-8; otherwise it, or a lone CRLF for the empty text, reaches the
      module marked and whole, with nothing left over, exactly if it is one that is carried. */
  method SaySsml(text: string, isSpace: SpaceTest) returns (outcome: Outcome)
    requires '\0' !in text && isSpace('\n' as int) && !isSpace('.' as int)
    ensures match Transport.Spoken(text)
            case None => outcome.Refused?
            case Some(buf) =>
              outcome.Answered?
              && (outcome == Answered(Speak(InsertMarks(buf, SsmlMode, isSpace)), "") <==> Carried(buf))
  {
    hide ClientText.Stuff, Utf8.Valid, SsipData.Receive, InsertMarks, Escape, ReadMessage, Carried, Framable;
    var escaped := ClientText.EscapeDot(text);
    var socket := new SsipData.Socket(escaped + (SsipData.TERMINATOR + ""));
    socket.Speak();
    Transport.ServerReceives(text, "");
    var received := socket.ServeData();
    if received == SsipData.InvalidEncoding {
      return Refused;
    }
    var buf := received.text;
    Transport.LoneCrlf();
    var marked := InsertIndexMarks(buf, SsmlMode, isSpace);
    MarkedNotEmpty(buf, isSpace);
    MarkedSsmlFramableIff(buf, isSpace);
    MarkedIsSpoken(marked);
    var sent := EscapeDot(marked);
    var input := new ModuleInput(Sent(sent) + "");
    var reply := input.DoMessage(OutputFraming.Text);
    return Answered(reply, input.stdin);
  }

  lemma MarkedNotEmpty(s: string, isSpace: SpaceTest)
    requires s != ""
    ensures InsertMarks(s, SsmlMode, isSpace) != ""
  {
    hide MarkSsml;
    MarkedBegins(s, 0, false, isSpace);
  }

  /** The module speaks x, with nothing left over, exactly if the framing carries x. */
  lemma MarkedIsSpoken(x: string)
    requires x != ""
    ensures var (r, left) := ReadMessage(Sent(Escape(x)) + "", "", 0);
            Judge(r, OutputFraming.Text) == Speak(x) && left == "" <==> Framable(x)
  {
    hide ReadMessage, Escape, Framable;
    FramingCarries(x, "");
  }
}
