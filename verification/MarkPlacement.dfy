/** Where index marks stand (src/server/index_marking.c), character by character: what
    insert_index_marks makes of every place of a text, in both modes. */
module MarkPlacement {
  import opened CStrings
  import Utf8
  import opened IndexMarking
  import SsmlFraming

  /** A tag is open before position p: a '<' stands before it with no '>' since. */
  ghost predicate TagOpen(s: string, p: nat)
    requires p <= |s|
  {
    exists j :: 0 <= j < p && s[j] == '<' && forall k | j < k < p :: s[k] != '>'
  }

  /** The text from position p on begins with white space, a tag or an entity. */
  predicate Breaks(s: string, p: nat, isSpace: SpaceTest)
  {
    p < |s| && (s[p] == '<' || s[p] == '&' || (Utf8.ValidChar(s[p..]) && isSpace(Utf8.CodePoint(s[p..]))))
  }

  /** The character at p is marked: it is a full stop, a question mark or an exclamation
      mark before such a break, in SSML mode outside of tags. */
  ghost predicate Due(s: string, p: nat, mode: DataMode, isSpace: SpaceTest)
  {
    p < |s| && (s[p] == '.' || s[p] == '?' || s[p] == '!') && Breaks(s, p + 1, isSpace)
    && (mode.SsmlMode? ==> !TagOpen(s, p))
  }

  ghost function DueBefore(s: string, p: nat, mode: DataMode, isSpace: SpaceTest): nat
  {
    if p == 0 then 0 else DueBefore(s, p - 1, mode, isSpace) + if Due(s, p - 1, mode, isSpace) then 1 else 0
  }

  /** What is written for one character. */
  function Written(c: char, mode: DataMode): string
  {
    if mode.SsmlMode? then [c]
    else if c == '<' then "&lt;"
    else if c == '>' then "&gt;"
    else if c == '&' then "&amp;"
    else [c]
  }

  /** What is written for the first p bytes: the marks are numbered from 0. */
  ghost function Output(s: string, p: nat, mode: DataMode, isSpace: SpaceTest): string
    requires p <= |s|
  {
    if p == 0 then ""
    else
      Output(s, p - 1, mode, isSpace) + Written(s[p - 1], mode)
      + if Due(s, p - 1, mode, isSpace)
        then "<mark name=\"__spd_" + PrintInt(DueBefore(s, p - 1, mode, isSpace)) + "\"/>" else ""
  }

  lemma TagOpenStep(s: string, p: nat)
    requires p < |s|
    ensures TagOpen(s, p + 1) <==> SsmlFraming.TagBehind(s[p], TagOpen(s, p))
    ensures !TagOpen(s, 0)
  {
    if TagOpen(s, p) && s[p] != '>' {
      var j :| 0 <= j < p && s[j] == '<' && forall k | j < k < p :: s[k] != '>';
      assert forall k | j < k < p + 1 :: s[k] != '>';
    }
  }

  lemma DueIsEnd(s: string, p: nat, mode: DataMode, isSpace: SpaceTest)
    requires p < |s|
    ensures Due(s, p, mode, isSpace) <==> EndsHere(s[p..], isSpace) && (mode.SsmlMode? ==> !TagOpen(s, p))
    ensures mode.TextMode? ==> Written(s[p], mode) == EscapeChar(s[p])
  {
    assert s[p..][1..] == s[p + 1..];
  }

  lemma MarkIs(n: nat)
    ensures "<mark name=\"__spd_" + PrintInt(n) + "\"/>" == MarkTag(n)
  {
    Assoc(MARK_HEAD, Digits(n), MARK_TAIL);
  }

  ghost predicate Tag(s: string, p: nat, mode: DataMode)
    requires p <= |s|
  {
    mode.SsmlMode? && TagOpen(s, p)
  }

  /** One byte of the marking. */
  lemma BodyStep(s: string, p: nat, mode: DataMode, n: nat, isSpace: SpaceTest)
    requires p < |s|
    ensures var due := Due(s, p, mode, isSpace);
            MarkBody(s[p..], mode, n, Tag(s, p, mode), isSpace) ==
            Written(s[p], mode) + ((if due then MarkTag(n) else "")
              + MarkBody(s[p + 1..], mode, if due then n + 1 else n, Tag(s, p + 1, mode), isSpace))
  {
    hide MarkTag, EndsHere, MarkSsml, TagOpen, Due, EscapeChar;
    var t := s[p..];
    assert t[0] == s[p] && t[1..] == s[p + 1..];
    DueIsEnd(s, p, mode, isSpace);
    if mode.SsmlMode? {
      TagOpenStep(s, p);
      SsmlFraming.MarkedStep(t, n, TagOpen(s, p), isSpace);
    }
    var rest := MarkBody(s[p + 1..], mode, if Due(s, p, mode, isSpace) then n + 1 else n, Tag(s, p + 1, mode), isSpace);
    assert "" + rest == rest;
  }

  lemma {:induction false} OutputSoFar(s: string, p: nat, mode: DataMode, isSpace: SpaceTest)
    requires p <= |s|
    ensures Output(s, p, mode, isSpace)
              + MarkBody(s[p..], mode, DueBefore(s, p, mode, isSpace), Tag(s, p, mode), isSpace)
            == MarkBody(s, mode, 0, false, isSpace)
  {
    hide MarkTag, MarkBody, TagOpen, Due, Written, PrintInt;
    if p == 0 {
      assert s[0..] == s && "" + MarkBody(s, mode, 0, false, isSpace) == MarkBody(s, mode, 0, false, isSpace);
      NoTagAtStart(s);
    } else {
      var n, due := DueBefore(s, p - 1, mode, isSpace), Due(s, p - 1, mode, isSpace);
      OutputSoFar(s, p - 1, mode, isSpace);
      BodyStep(s, p - 1, mode, n, isSpace);
      MarkIs(n);
      var before, w, m := Output(s, p - 1, mode, isSpace), Written(s[p - 1], mode), if due then MarkTag(n) else "";
      var rest := MarkBody(s[p..], mode, if due then n + 1 else n, Tag(s, p, mode), isSpace);
      Assoc(before, w, m);
      Assoc(before, w + m, rest);
      Assoc(w, m, rest);
    }
  }

  lemma NoTagAtStart(s: string)
    ensures !TagOpen(s, 0)
  {}

  /** The whole marked text, in both modes: each character as it is written, with a mark
      behind it exactly where one is due, and nothing else. */
  lemma MarksStandWhereDue(s: string, isSpace: SpaceTest)
    ensures InsertMarks(s, TextMode, isSpace) == "<speak>" + Output(s, |s|, TextMode, isSpace) + "</speak>"
    ensures InsertMarks(s, SsmlMode, isSpace) == Output(s, |s|, SsmlMode, isSpace)
  {
    hide Output, MarkBody;
    BodyIsOutput(s, TextMode, isSpace);
    BodyIsOutput(s, SsmlMode, isSpace);
    var ssml := Output(s, |s|, SsmlMode, isSpace);
    assert "" + ssml == ssml && ssml + "" == ssml;
  }

  lemma BodyIsOutput(s: string, mode: DataMode, isSpace: SpaceTest)
    ensures MarkBody(s, mode, 0, false, isSpace) == Output(s, |s|, mode, isSpace)
  {
    hide Output, TagOpen, DueBefore;
    OutputSoFar(s, |s|, mode, isSpace);
    NothingLeft(s, mode, DueBefore(s, |s|, mode, isSpace), Tag(s, |s|, mode), isSpace);
    var out := Output(s, |s|, mode, isSpace);
    assert out + "" == out;
  }

  lemma NothingLeft(s: string, mode: DataMode, n: nat, tag: bool, isSpace: SpaceTest)
    ensures MarkBody(s[|s|..], mode, n, tag, isSpace) == ""
  {}

  /** For any character c of a text a + [c] + b, outside of tags in SSML mode: a mark follows
      what is written for it if and only if it is one of the three and b begins with white
      space, a tag or an entity. */
  lemma MarkFollowsIff(a: string, c: char, b: string, mode: DataMode, isSpace: SpaceTest)
    requires mode.SsmlMode? ==> !TagOpen(a, |a|)
    ensures var s := a + [c] + b;
            var n := DueBefore(s, |a|, mode, isSpace);
            var due := (c == '.' || c == '?' || c == '!') && b != ""
                       && (b[0] == '<' || b[0] == '&' || (Utf8.ValidChar(b) && isSpace(Utf8.CodePoint(b))));
            MarkBody(s, mode, 0, false, isSpace) ==
            Output(s, |a|, mode, isSpace) + Written(c, mode)
            + (if due then "<mark name=\"__spd_" + PrintInt(n) + "\"/>" else "")
            + MarkBody(b, mode, if due then n + 1 else n, mode.SsmlMode? && c == '<', isSpace)
  {
    hide MarkBody, TagOpen, Output, Written, PrintInt, DueBefore;
    var s := a + [c] + b;
    var p := |a|;
    assert s[p] == c && s[p + 1..] == b;
    SameTag(a, [c] + b);
    assert a + ([c] + b) == s;
    TagOpenStep(s, p);
    OutputSoFar(s, p + 1, mode, isSpace);
    OutputNext(s, p, mode, isSpace);
  }

  lemma SameTag(a: string, x: string)
    ensures TagOpen(a + x, |a|) <==> TagOpen(a, |a|)
  {
    if j :| 0 <= j < |a| && a[j] == '<' && forall k | j < k < |a| :: a[k] != '>' {
      assert (a + x)[j] == '<' && forall k | j < k < |a| :: (a + x)[k] == a[k];
    }
    if j :| 0 <= j < |a| && (a + x)[j] == '<' && forall k | j < k < |a| :: (a + x)[k] != '>' {
      assert a[j] == '<' && forall k | j < k < |a| :: (a + x)[k] == a[k];
    }
  }

  lemma OutputNext(s: string, p: nat, mode: DataMode, isSpace: SpaceTest)
    requires p < |s|
    ensures Output(s, p + 1, mode, isSpace) ==
            Output(s, p, mode, isSpace) + Written(s[p], mode)
            + if Due(s, p, mode, isSpace)
              then "<mark name=\"__spd_" + PrintInt(DueBefore(s, p, mode, isSpace)) + "\"/>" else ""
    ensures DueBefore(s, p + 1, mode, isSpace) ==
            DueBefore(s, p, mode, isSpace) + if Due(s, p, mode, isSpace) then 1 else 0
  {
    hide Due, Written, PrintInt;
  }
}
