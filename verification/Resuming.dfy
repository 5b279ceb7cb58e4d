/** Resuming a message at an index mark, or without one (reload_message in
    src/server/speaking.c), and what is heard of it then: the results for TEXT mode. */
module Resuming {
  import opened CStrings
  import Utf8
  import opened IndexMarking
  import OutputFraming
  import ModuleText
  import Transport

  /** The buffer of a message that was sent to its module: insert_index_marks and
      escape_dot have replaced the text. */
  function Buffered(text: string, mode: DataMode, isSpace: SpaceTest): string
  {
    OutputFraming.Escape(InsertMarks(text, mode, isSpace))
  }

  /** What reload_message queues, for the mark that was reported with the context of the
      client added: the whole buffer when no mark was reported, and nothing when there is
      no such mark. */
  function Reloaded(buf: string, mark: Option<int>, mode: DataMode): Option<string>
  {
    match mark
    case None => Some(buf)
    case Some(im) =>
      if im < 0 then Some(Stripped(buf, mode))
      else match FindIndexMark(buf, im)
           case None => None
           case Some(after) => Some(Stripped(after, mode))
  }

  /** What the module makes of a text that the server speaks: it is marked and escaped on
      its way, carried by the framing, and stripped. */
  function Heard(text: string, mode: DataMode, isSpace: SpaceTest): string
  {
    ModuleText.StripSsml(InsertMarks(text, mode, isSpace), false)
  }

  // ---- escape_dot leaves marked text as it is

  lemma {:induction false} NothingDoubled(ls: seq<string>)
    requires Transport.NoDotLine(ls)
    ensures OutputFraming.EscapeLines(ls) == ls
  {
    if ls == [] {
    } else {
      NothingDoubled(ls[1..]);
    }
  }

  lemma BufferedIsMarked(text: string, isSpace: SpaceTest)
    requires isSpace('\n' as int)
    ensures Buffered(text, TextMode, isSpace) == InsertMarks(text, TextMode, isSpace)
  {
    hide InsertMarks, OutputFraming.Escape, OutputFraming.Lines, Transport.NoDotLine,
         OutputFraming.EscapeLines, OutputFraming.Unlines;
    var marked := InsertMarks(text, TextMode, isSpace);
    Transport.MarkedHasNoDotLines(text, isSpace);
    NothingDoubled(OutputFraming.Lines(marked));
    OutputFraming.EscapeOnLines(marked);
    OutputFraming.UnlinesOfLines(marked);
    assert (marked + "\n")[..|marked|] == marked;
    var e := OutputFraming.Escape(marked);
    assert (e + "\n")[..|e|] == e && |e + "\n"| == |marked + "\n"|;
  }

  // ---- what is heard

  /** The module's markup stripper gives back the text that the server recovered. */
  lemma {:induction false} StripEscapedText(s: string)
    ensures ModuleText.StripSsml(EscapeText(s), false) == s
  {
    hide ModuleText.StripSsml;
    if s == "" {
      ModuleText.StripEnds("", false);
      assert ""[0..] == "";
    } else {
      Transport.StripEscaped(s[0], EscapeText(s[1..]));
      StripEscapedText(s[1..]);
      assert s == [s[0]] + s[1..];
    }
  }

  lemma {:induction false} EscapedLonger(s: string)
    ensures |s| <= |EscapeText(s)|
    ensures EscapeText(s) == s <==> Avoids(s, {'<', '>', '&'})
  {
    if s == "" {
    } else {
      EscapedLonger(s[1..]);
      assert s == [s[0]] + s[1..];
      var e := EscapeChar(s[0]);
      if s[0] in {'<', '>', '&'} {
        assert s[0] in s && |e| > 1;
      } else {
        assert e == [s[0]] && (e + EscapeText(s[1..]))[1..] == EscapeText(s[1..]);
        assert forall c :: c in s <==> c == s[0] || c in s[1..];
      }
    }
  }

  lemma HeardAsQueued(text: string, isSpace: SpaceTest)
    ensures Heard(text, TextMode, isSpace) == text
  {
    hide ModuleText.StripSsml, InsertMarks;
    Transport.StripMarked(text, isSpace);
  }

  /** Where a message is resumed after the sentence end at p, what is recovered is the
      escaped text behind it, and stripping that gives the text.  But it is escaped a second
      time on its way: what is heard is the escaped form, which is the text itself if and
      only if that has no markup characters. */
  lemma ResumeIsHeardIff(s: string, p: nat, isSpace: SpaceTest)
    requires isSpace('\n' as int) && p < |s| && EndsHere(s[p..], isSpace)
    ensures var rest, k := s[p + 1..], EndsBefore(s, p, isSpace);
            var r := Reloaded(Buffered(s, TextMode, isSpace), Some(k), TextMode);
            r == Some(EscapeText(rest)) && ModuleText.StripSsml(r.value, false) == rest
            && Heard(r.value, TextMode, isSpace) == EscapeText(rest)
            && (Heard(r.value, TextMode, isSpace) == rest <==> Avoids(rest, {'<', '>', '&'}))
  {
    hide *;
    BufferedIsMarked(s, isSpace);
    ReloadedAt(Buffered(s, TextMode, isSpace), EndsBefore(s, p, isSpace), TextMode);
    ResumePoint(s, p, isSpace);
    StripEscapedText(s[p + 1..]);
    HeardAsQueued(EscapeText(s[p + 1..]), isSpace);
    EscapedLonger(s[p + 1..]);
  }

  lemma ReloadedAt(buf: string, im: nat, mode: DataMode)
    ensures Reloaded(buf, Some(im), mode) == match FindIndexMark(buf, im)
                                             case None => None
                                             case Some(after) => Some(Stripped(after, mode))
  {
    hide FindIndexMark, Stripped;
  }

  /** For example, the module speaks an entity where the text has a bracket. */
  lemma ResumeSpeaksEntity(isSpace: SpaceTest)
    requires isSpace(' ' as int) && isSpace('\n' as int)
    ensures var r := Reloaded(Buffered("A. <b", TextMode, isSpace), Some(0), TextMode);
            r.Some? && Heard(r.value, TextMode, isSpace) == " &lt;b"
  {
    hide Reloaded, Heard, Buffered;
    var s := "A. <b";
    assert s[1..][1..] == " <b" && s[2..] == " <b" && " <b"[1..] == "<b" && "<b"[1..] == "b" && "b"[1..] == "";
    assert EndsHere(s[1..], isSpace) by {
      assert Utf8.ValidChar(" <b") && Utf8.CodePoint(" <b") == ' ' as int;
    }
    assert EndsBefore(s, 1, isSpace) == 0 by { assert EndsBefore(s[1..], 0, isSpace) == 0; }
    assert EscapeText(" <b") == " &lt;b" by {
      assert EscapeText("") == "" && EscapeText("b") == "b" && EscapeText("<b") == "&lt;b";
    }
    ResumeIsHeardIff(s, 1, isSpace);
  }

  /** When the context of the client leads back before the first mark, the text is queued
      again with the opening tag, which is then read out. */
  lemma ResumeFromStart(s: string, im: int, isSpace: SpaceTest)
    requires isSpace('\n' as int) && im < 0
    ensures var r := Reloaded(Buffered(s, TextMode, isSpace), Some(im), TextMode);
            r == Some("<speak>" + EscapeText(s)) && Heard(r.value, TextMode, isSpace) == "<speak>" + EscapeText(s) != s
  {
    hide MarkText, EscapeText, Heard, Buffered, Find, StripMarks;
    BufferedIsMarked(s, isSpace);
    var body, close := MarkText(s, 0, isSpace), "</speak>";
    Assoc("<speak>", body, close);
    OpeningTagStays(body + close);
    StripMarkedText(s, 0, close, isSpace);
    ClosingTagStays();
    Assoc("<speak>", EscapeText(s), close);
    var t := "<speak>" + EscapeText(s);
    OpeningTagPassed(s, close);
    assert (t + close)[..|t|] == t;
    HeardAsQueued(t, isSpace);
    EscapedLonger(s);
  }

  /** When no mark was reported, the whole buffer is queued again: the speak tags, the
      entities and the marks are read out. */
  lemma ResumeUnreported(s: string, isSpace: SpaceTest)
    requires isSpace('\n' as int)
    ensures var r := Reloaded(Buffered(s, TextMode, isSpace), None, TextMode);
            r == Some(InsertMarks(s, TextMode, isSpace)) && Heard(r.value, TextMode, isSpace) == r.value != s
  {
    hide MarkText, Heard, Buffered;
    BufferedIsMarked(s, isSpace);
    var marked := InsertMarks(s, TextMode, isSpace);
    HeardAsQueued(marked, isSpace);
    MarkedLonger(s, 0, isSpace);
  }

  /** Every number below the count belongs to a sentence end. */
  lemma {:induction false} EndOfNumber(t: string, k: nat, isSpace: SpaceTest) returns (q: nat)
    requires k < EndsBefore(t, |t|, isSpace)
    ensures q < |t| && EndsHere(t[q..], isSpace) && EndsBefore(t, q, isSpace) == k
  {
    hide EndsHere;
    if EndsHere(t, isSpace) && k == 0 {
      assert t[0..] == t;
      return 0;
    }
    q := EndOfNumber(t[1..], if EndsHere(t, isSpace) then k - 1 else k, isSpace);
    assert t[1..][q..] == t[q + 1..];
    q := q + 1;
  }

  /** What number k recovers of t, whatever of t was heard: nothing if fewer sentences end
      in it, and otherwise what follows that sentence end. */
  ghost predicate RecoversFrom(t: string, k: nat, r: Option<string>, isSpace: SpaceTest)
  {
    (r == None <==> EndsBefore(t, |t|, isSpace) <= k)
    && (r.Some? ==> exists q :: 0 <= q < |t| && EndsHere(t[q..], isSpace) && EndsBefore(t, q, isSpace) == k
                                && r.value == EscapeText(t[q + 1..]))
  }

  /** The message that is queued again keeps the number of its old mark.  When it is paused
      once more before a new one was reported, the old number is looked up in the new marking:
      the message is dropped for good, or that many sentences and one more are passed over. */
  lemma PausedAgain(s: string, p: nat, isSpace: SpaceTest)
    requires isSpace('\n' as int) && p < |s| && EndsHere(s[p..], isSpace)
    ensures var k := Some(EndsBefore(s, p, isSpace));
            var t := EscapeText(s[p + 1..]);
            Reloaded(Buffered(s, TextMode, isSpace), k, TextMode) == Some(t)
            && RecoversFrom(t, k.value, Reloaded(Buffered(t, TextMode, isSpace), k, TextMode), isSpace)
  {
    hide *;
    ResumeIsHeardIff(s, p, isSpace);
    OldNumber(EscapeText(s[p + 1..]), EndsBefore(s, p, isSpace), isSpace);
  }

  lemma OldNumber(t: string, k: nat, isSpace: SpaceTest)
    requires isSpace('\n' as int)
    ensures RecoversFrom(t, k, Reloaded(Buffered(t, TextMode, isSpace), Some(k), TextMode), isSpace)
  {
    hide EndsHere, EndsBefore, Reloaded, Buffered, EscapeText;
    if EndsBefore(t, |t|, isSpace) <= k {
      NothingReloaded(t, k, isSpace);
    } else {
      var q := EndOfNumber(t, k, isSpace);
      ResumeIsHeardIff(t, q, isSpace);
    }
  }

  /** For example, of "A. B. C" the middle is never heard, and of "A. B" not even the end. */
  lemma SentencesLost(isSpace: SpaceTest)
    requires isSpace(' ' as int) && isSpace('\n' as int)
    ensures Reloaded(Buffered("A. B. C", TextMode, isSpace), Some(0), TextMode) == Some(" B. C")
            && Reloaded(Buffered(" B. C", TextMode, isSpace), Some(0), TextMode) == Some(" C")
    ensures Reloaded(Buffered("A. B", TextMode, isSpace), Some(0), TextMode) == Some(" B")
            && Reloaded(Buffered(" B", TextMode, isSpace), Some(0), TextMode) == None
  {
    hide Reloaded, Buffered, EscapeText, EndsBefore;
    assert "A" + "." + " B. C" == "A. B. C" && " B" + "." + " C" == " B. C" && "A" + "." + " B" == "A. B";
    EndsAt("A", " B. C", isSpace);
    EndsAt(" B", " C", isSpace);
    EndsAt("A", " B", isSpace);
    PlainEscaped(" B. C");
    PlainEscaped(" C");
    PlainEscaped(" B");
    NoEnds(isSpace);
    NothingReloaded(" B", 0, isSpace);
  }

  lemma NoEnds(isSpace: SpaceTest)
    ensures EndsBefore(" B", |" B"|, isSpace) == 0
  {
    assert " B"[1..] == "B" && "B"[1..] == "";
    assert EndsBefore("", 0, isSpace) == 0 && EndsBefore("B", 1, isSpace) == 0;
  }

  lemma PlainEscaped(s: string)
    requires Avoids(s, {'<', '>', '&'})
    ensures EscapeText(s) == s
  {
    EscapedLonger(s);
  }

  /** A full stop before a blank, the first one of the text. */
  lemma EndsAt(a: string, b: string, isSpace: SpaceTest)
    requires isSpace(' ' as int) && isSpace('\n' as int) && 1 <= |a| <= 2 && b != "" && b[0] == ' '
    requires forall i | 0 <= i < |a| :: !IsSentenceEnd(a[i])
    ensures Reloaded(Buffered(a + "." + b, TextMode, isSpace), Some(0), TextMode) == Some(EscapeText(b))
  {
    hide Reloaded, Buffered, EscapeText;
    var s := a + "." + b;
    assert s[|a|..][1..] == b && s[|a| + 1..] == b;
    assert EndsHere(s[|a|..], isSpace) by {
      assert Utf8.ValidChar(b) && Utf8.CodePoint(b) == ' ' as int;
    }
    assert EndsBefore(s, |a|, isSpace) == 0 by {
      assert EndsBefore(s[|a|..], 0, isSpace) == 0;
      assert s[1..][|a| - 1..] == s[|a|..];
      assert EndsBefore(s[|a| - 1..], 1, isSpace) == 0;
      assert s[0..] == s;
    }
    ResumeIsHeardIff(s, |a|, isSpace);
  }

  lemma {:induction false} MarkedLonger(s: string, n: nat, isSpace: SpaceTest)
    ensures |s| <= |MarkText(s, n, isSpace)|
  {
    hide MarkTag, EndsHere;
    if s == "" {
    } else {
      MarkedLonger(s[1..], n, isSpace);
      MarkedLonger(s[1..], n + 1, isSpace);
    }
  }

  lemma OpeningTagStays(x: string)
    ensures StripMarks("<speak>" + x) == "<speak>" + StripMarks(x)
  {
    hide StripMarks, AfterGt;
    var t := "<speak>" + x;
    assert t[1] == 's' && MARK_HEAD[1] == 'm';
    StripStep(t);
    assert t[1..] == "speak>" + x && t[0] == '<';
    StripCopies("speak>", x);
    Assoc("<", "speak>", StripMarks(x));
    assert "<" + "speak>" == "<speak>";
  }

  lemma OpeningTagPassed(s: string, close: string)
    requires close == "</speak>"
    ensures Find("<speak>" + EscapeText(s) + close, close) == Some(7 + |EscapeText(s)|)
  {
    hide EscapeText, Find, Avoids;
    var p := "speak>" + EscapeText(s);
    EscapedAvoids(s);
    SpeakAvoids();
    AvoidsConcat("speak>", EscapeText(s), {'<'});
    FindSkips(p, close);
    var t := "<speak>" + EscapeText(s) + close;
    assert t[1..] == p + close && t[1] == 's' && close[1] == '/';
    FindNext(t, close);
  }

  lemma SpeakAvoids()
    ensures Avoids("speak>", {'<'})
  {}

  lemma EscapedAvoids(s: string)
    ensures Avoids(EscapeText(s), {'<'})
  {
    hide EscapeText;
    EscapeTextPlain(s);
  }

  lemma FindNext(t: string, p: string)
    requires t != "" && !(p <= t)
    ensures Find(t, p) == match Find(t[1..], p) case None => None case Some(i) => Some(i + 1)
  {}

  /** No message is queued again for a mark that was never given out. */
  lemma NothingReloaded(s: string, im: int, isSpace: SpaceTest)
    requires isSpace('\n' as int) && EndsBefore(s, |s|, isSpace) <= im
    ensures Reloaded(Buffered(s, TextMode, isSpace), Some(im), TextMode) == None
  {
    hide InsertMarks, FindIndexMark, Stripped, Buffered;
    BufferedIsMarked(s, isSpace);
    NoFurtherMarks(s, im, isSpace);
  }
}
