/** Resuming a message at an index mark in SSML mode (reload_message in
    src/server/speaking.c): what the search for the mark finds, what is queued again, and
    what is heard then. */
module SsmlResuming {
  import opened CStrings
  import opened IndexMarking
  import opened OutputFraming
  import SsmlMarking
  import SsmlFraming
  import ModuleText
  import Resuming

  /** Whether a tag is open at position p. */
  predicate TagAt(s: string, p: nat, insideTag: bool)
    requires p <= |s|
  {
    if p == 0 then insideTag else TagAt(s[1..], p - 1, SsmlFraming.TagBehind(s[0], insideTag))
  }

  predicate GetsMark(s: string, insideTag: bool, isSpace: SpaceTest)
  {
    !insideTag && EndsHere(s, isSpace)
  }

  /** The number of sentence ends with a mark among the first p bytes. */
  function MarksBefore(s: string, p: nat, insideTag: bool, isSpace: SpaceTest): nat
    requires p <= |s|
  {
    if p == 0 then 0
    else (if GetsMark(s, insideTag, isSpace) then 1 else 0)
         + MarksBefore(s[1..], p - 1, SsmlFraming.TagBehind(s[0], insideTag), isSpace)
  }

  /** A marked sentence end stands at p. */
  predicate MarkedEnd(s: string, p: nat, insideTag: bool, isSpace: SpaceTest)
  {
    p < |s| && GetsMark(s[p..], TagAt(s, p, insideTag), isSpace)
  }

  /** The client's own text holds, before position p, a mark with the number k. */
  ghost predicate OwnMark(s: string, p: nat, k: nat)
    requires p <= |s|
  {
    exists i :: 0 <= i < p && MarkTag(k) <= s[i..]
  }

  lemma TagShape(k: nat)
    ensures MarkTag(k) == "<" + (MarkInner(k) + ">") && Avoids(MarkInner(k), {'>'})
    ensures forall i | 0 <= i < |MarkTag(k)| :: !IsSentenceEnd(MarkTag(k)[i])
  {
    hide Digits;
    MarkTagShape(k);
    var d := Digits(k);
    assert forall i | 0 <= i < |d| :: d[i] in d;
  }

  /** The search passes one byte of a marked text and its mark, unless the client has put
      the mark there. */
  lemma SearchStep(s: string, n: nat, insideTag: bool, k: nat, isSpace: SpaceTest)
    requires s != "" && !(MarkTag(k) <= s)
    ensures var tag := SsmlFraming.TagBehind(s[0], insideTag);
            var marks := GetsMark(s, insideTag, isSpace);
            AfterFirst(MarkSsml(s, n, insideTag, isSpace), MarkTag(k)) ==
            if marks && k == n then Some(MarkSsml(s[1..], n + 1, tag, isSpace))
            else AfterFirst(MarkSsml(s[1..], if marks then n + 1 else n, tag, isSpace), MarkTag(k))
  {
    hide MarkSsml, MarkTag, AfterFirst, BreakAt;
    var tag, marks := SsmlFraming.TagBehind(s[0], insideTag), GetsMark(s, insideTag, isSpace);
    var rest := MarkSsml(s[1..], if marks then n + 1 else n, tag, isSpace);
    SsmlFraming.MarkedStep(s, n, insideTag, isSpace);
    TagShape(k);
    SsmlMarking.PrefixKept(MarkTag(k), s, n, insideTag, isSpace);
    var m := MarkSsml(s, n, insideTag, isSpace);
    SearchPasses(m, k);
    if marks {
      assert m[1..] == MarkTag(n) + rest;
      SearchAtTag(n, rest, k);
    } else {
      assert m[1..] == rest;
    }
  }

  /** Where the client has put a mark with this number, that one is found. */
  lemma SearchOwn(s: string, n: nat, insideTag: bool, k: nat, isSpace: SpaceTest)
    requires MarkTag(k) <= s
    ensures AfterFirst(MarkSsml(s, n, insideTag, isSpace), MarkTag(k)) ==
            Some(MarkSsml(s[|MarkTag(k)|..], n, false, isSpace))
  {
    hide MarkSsml, MarkTag, AfterFirst, MarkInner, BreakAt;
    TagShape(k);
    var inner, x := MarkInner(k), s[|MarkTag(k)|..];
    assert s == MarkTag(k) + x && s[0] == '<' && s[1..] == inner + (">" + x);
    SsmlFraming.MarkedStep(s, n, insideTag, isSpace);
    SsmlMarking.InsideTagIsVerbatim(inner, x, n, isSpace);
    var m := MarkSsml(x, n, false, isSpace);
    assert ['<'] + (inner + (">" + m)) == "<" + (inner + ">") + m;
    SearchFound(MarkTag(k), m);
  }

  /** Behind the client's mark the text goes on outside tags, with the numbers so far. */
  lemma {:induction false} BehindTag(inner: string, x: string, p: nat, isSpace: SpaceTest)
    requires Avoids(inner, {'>'}) && |inner| + 1 <= p <= |inner| + 1 + |x|
    ensures var s := inner + (">" + x);
            TagAt(s, p, true) == TagAt(x, p - |inner| - 1, false)
            && MarksBefore(s, p, true, isSpace) == MarksBefore(x, p - |inner| - 1, false, isSpace)
    decreases |inner|
  {
    hide BreakAt;
    var s := inner + (">" + x);
    if inner == "" {
      assert s[0] == '>' && s[1..] == x;
    } else {
      assert inner[0] in inner && s[0] == inner[0] && s[1..] == inner[1..] + (">" + x);
      BehindTag(inner[1..], x, p - 1, isSpace);
    }
  }

  lemma BehindOwn(s: string, p: nat, insideTag: bool, k: nat, isSpace: SpaceTest)
    requires MarkTag(k) <= s && |MarkTag(k)| <= p <= |s|
    ensures var l := |MarkTag(k)|;
            TagAt(s, p, insideTag) == TagAt(s[l..], p - l, false)
            && MarksBefore(s, p, insideTag, isSpace) == MarksBefore(s[l..], p - l, false, isSpace)
  {
    hide MarkTag, MarkInner, BreakAt;
    TagShape(k);
    var inner, x := MarkInner(k), s[|MarkTag(k)|..];
    assert s == MarkTag(k) + x && s[0] == '<' && s[1..] == inner + (">" + x);
    BehindTag(inner, x, p - 1, isSpace);
  }

  /** The marked text behind position p is the end of the marked text. */
  lemma {:induction false} RestIsShorter(s: string, n: nat, insideTag: bool, p: nat, isSpace: SpaceTest)
    requires p <= |s|
    ensures p + |MarkSsml(s[p..], n + MarksBefore(s, p, insideTag, isSpace), TagAt(s, p, insideTag), isSpace)|
            <= |MarkSsml(s, n, insideTag, isSpace)|
    decreases p
  {
    hide MarkSsml, MarkTag, EndsHere;
    if p == 0 {
      assert s[0..] == s;
    } else {
      SsmlFraming.MarkedStep(s, n, insideTag, isSpace);
      assert s[1..][p - 1..] == s[p..];
      RestIsShorter(s[1..], if GetsMark(s, insideTag, isSpace) then n + 1 else n,
                    SsmlFraming.TagBehind(s[0], insideTag), p - 1, isSpace);
    }
  }

  lemma OwnMarkStep(s: string, p: nat, k: nat)
    requires 0 < p <= |s|
    ensures OwnMark(s, p, k) <==> MarkTag(k) <= s || OwnMark(s[1..], p - 1, k)
  {
    hide MarkTag;
    assert s[0..] == s;
    if i :| 0 <= i < p && MarkTag(k) <= s[i..] {
      assert i > 0 ==> s[1..][i - 1..] == s[i..];
    }
    if j :| 0 <= j < p - 1 && MarkTag(k) <= s[1..][j..] {
      assert s[1..][j..] == s[j + 1..];
    }
  }

  /** The mark of the sentence end at p is found, unless the client's text holds the same
      mark before: then more of the text is found. */
  lemma {:induction false} FindMarked(s: string, n: nat, insideTag: bool, p: nat, isSpace: SpaceTest)
    requires MarkedEnd(s, p, insideTag, isSpace)
    ensures var k := n + MarksBefore(s, p, insideTag, isSpace);
            var found, rest := AfterFirst(MarkSsml(s, n, insideTag, isSpace), MarkTag(k)),
                               MarkSsml(s[p + 1..], k + 1, false, isSpace);
            if OwnMark(s, p, k) then found.Some? && |found.value| > |rest| else found == Some(rest)
    decreases p
  {
    hide MarkSsml, MarkTag, AfterFirst, EndsHere, OwnMark;
    var k := n + MarksBefore(s, p, insideTag, isSpace);
    TagShape(k);
    EndIsNoTag(s[p..], isSpace);
    if p == 0 {
      assert s[0..] == s && !OwnMark(s, 0, k) by { hide *; NoOwnMark(s, k); }
      assert !(MarkTag(k) <= s);
      SearchStep(s, n, insideTag, k, isSpace);
    } else {
      OwnMarkStep(s, p, k);
      if MarkTag(k) <= s {
        OwnFound(s, n, insideTag, p, k, isSpace);
      } else {
        SearchStep(s, n, insideTag, k, isSpace);
        assert s[1..][p - 1..] == s[p..] && s[1..][p..] == s[p + 1..];
        FindMarked(s[1..], if GetsMark(s, insideTag, isSpace) then n + 1 else n,
                   SsmlFraming.TagBehind(s[0], insideTag), p - 1, isSpace);
      }
    }
  }

  lemma NoOwnMark(s: string, k: nat)
    ensures !OwnMark(s, 0, k)
  {}

  /** A sentence end starts no mark and opens no tag. */
  lemma EndIsNoTag(s: string, isSpace: SpaceTest)
    requires EndsHere(s, isSpace)
    ensures IsSentenceEnd(s[0]) && !SsmlFraming.TagBehind(s[0], false)
  {}

  lemma TagBeforeEnd(s: string, p: nat, k: nat)
    requires p < |s| && IsSentenceEnd(s[p]) && MarkTag(k) <= s
    ensures |MarkTag(k)| <= p
  {
    hide MarkTag, IsSentenceEnd;
    TagShape(k);
  }

  lemma OwnFound(s: string, n: nat, insideTag: bool, p: nat, k: nat, isSpace: SpaceTest)
    requires MarkedEnd(s, p, insideTag, isSpace) && k == n + MarksBefore(s, p, insideTag, isSpace)
    requires MarkTag(k) <= s
    ensures var found := AfterFirst(MarkSsml(s, n, insideTag, isSpace), MarkTag(k));
            found.Some? && |found.value| > |MarkSsml(s[p + 1..], k + 1, false, isSpace)|
  {
    hide MarkSsml, MarkTag, AfterFirst, EndsHere;
    EndIsNoTag(s[p..], isSpace);
    TagBeforeEnd(s, p, k);
    var l := |MarkTag(k)|;
    BehindOwn(s, p, insideTag, k, isSpace);
    SearchOwn(s, n, insideTag, k, isSpace);
    assert s[l..][p - l..] == s[p..];
    RestIsShorter(s[l..], n, false, p - l, isSpace);
    SsmlFraming.MarkedStep(s[p..], k, false, isSpace);
    assert s[p..][1..] == s[p + 1..];
  }

  /** Where a message is resumed in SSML mode.  For every sentence end that got a mark, the
      search finds what is behind it if and only if the client's text does not hold the same
      mark before; and stripping leaves the text behind it, after a new opening tag, if and
      only if that holds no mark head. */
  lemma SsmlResumePoint(s: string, p: nat, isSpace: SpaceTest)
    requires MarkedEnd(s, p, false, isSpace)
    ensures var k, rest := MarksBefore(s, p, false, isSpace), s[p + 1..];
            var found := FindIndexMark(InsertMarks(s, SsmlMode, isSpace), k);
            found.Some?
            && (found == Some(MarkSsml(rest, k + 1, false, isSpace)) <==> !OwnMark(s, p, k))
            && (!OwnMark(s, p, k) ==>
                  Stripped(found.value, SsmlMode) == "<speak>" + StripMarks(rest)
                  && (Stripped(found.value, SsmlMode) == "<speak>" + rest <==> Lacks(rest, MARK_HEAD)))
  {
    hide MarkSsml, AfterFirst, EndsHere, StripMarks, OwnMark, Lacks, MarkTag;
    var k, rest := MarksBefore(s, p, false, isSpace), s[p + 1..];
    var m := MarkSsml(s, 0, false, isSpace);
    assert "" + m + "" == m;
    FindMarked(s, 0, false, p, isSpace);
    SsmlMarking.StripAfterMarking(rest, k + 1, false, isSpace);
    SsmlMarking.StripIsIdentity(rest);
    SsmlMarking.SameSuffix("<speak>", StripMarks(rest), rest);
  }

  /** A number that was not given out is found exactly if the client's text holds it. */
  lemma {:induction false} NotInMarked(s: string, n: nat, insideTag: bool, k: nat, isSpace: SpaceTest)
    requires k < n || n + MarksBefore(s, |s|, insideTag, isSpace) <= k
    ensures AfterFirst(MarkSsml(s, n, insideTag, isSpace), MarkTag(k)) == None <==> !OwnMark(s, |s|, k)
    decreases s
  {
    hide MarkTag, AfterFirst, EndsHere, OwnMark;
    if s == "" {
      EmptySearch(k);
      NoOwnMark(s, k);
    } else {
      hide MarkSsml;
      OwnMarkStep(s, |s|, k);
      if MarkTag(k) <= s {
        SearchOwn(s, n, insideTag, k, isSpace);
      } else {
        SearchStep(s, n, insideTag, k, isSpace);
        NotInMarked(s[1..], if GetsMark(s, insideTag, isSpace) then n + 1 else n,
                    SsmlFraming.TagBehind(s[0], insideTag), k, isSpace);
      }
    }
  }

  // ---- the buffer that escape_dot leaves

  lemma {:induction false} EscapeCopies(p: string, x: string)
    requires '\n' !in p
    ensures EscapeRest(p + x) == p + EscapeRest(x)
  {
    hide EscapeRest;
    if p == "" {
      assert p + x == x && p + EscapeRest(x) == EscapeRest(x);
    } else {
      assert (p + x)[0] == p[0] && (p + x)[1..] == p[1..] + x;
      EscapeHere(p + x);
      EscapeCopies(p[1..], x);
      assert p == [p[0]] + p[1..];
      Assoc([p[0]], p[1..], EscapeRest(x));
    }
  }

  lemma EscapeFirst(o: string)
    ensures o != "" ==> EscapeRest(o) != "" && EscapeRest(o)[0] == o[0]
    ensures EscapeRest("") == ""
  {}

  lemma {:induction false} PrefixOfEscaped(h: string, o: string)
    requires '\n' !in h
    ensures h <= EscapeRest(o) <==> h <= o
  {
    hide EscapeRest;
    EscapeFirst(o);
    assert h != "" ==> h[0] in h;
    if h == "" || o == "" || h[0] != o[0] {
    } else {
      EscapeHere(o);
      PrefixOfEscaped(h[1..], o[1..]);
      assert o == [o[0]] + o[1..];
      SsmlMarking.PrefixTail(h, o[0], EscapeRest(o[1..]));
      SsmlMarking.PrefixTail(h, o[0], o[1..]);
    }
  }

  function Escaped(found: Option<string>): Option<string>
  {
    match found
    case None => None
    case Some(x) => Some(EscapeRest(x))
  }

  /** Searching the escaped text finds the escaped rest. */
  lemma {:induction false} SearchEscaped(o: string, k: nat)
    ensures AfterFirst(EscapeRest(o), MarkTag(k)) == Escaped(AfterFirst(o, MarkTag(k)))
    decreases |o|
  {
    hide AfterFirst, MarkTag, EscapeRest, MarkInner;
    var tag := MarkTag(k);
    SsmlFraming.TagHoldsNoLf(k);
    TagShape(k);
    if o == "" {
      EscapeShort();
      EmptySearch(k);
    } else if o == "\n." {
      EscapeShort();
      assert "\n." + "" == "\n." && "\n.." + "" == "\n..";
      SearchSkips("\n.", "", k);
      SearchSkips("\n..", "", k);
      EmptySearch(k);
    } else if "\n.\n" <= o {
      EscapeHere(o);
      assert o == "\n.\n" + o[3..];
      SearchSkips("\n.\n", o[3..], k);
      SearchSkips("\n..\n", EscapeRest(o[3..]), k);
      SearchEscaped(o[3..], k);
    } else if tag <= o {
      assert o == tag + o[|tag|..];
      EscapeCopies(tag, o[|tag|..]);
      SearchFound(tag, EscapeRest(o[|tag|..]));
      SearchFound(tag, o[|tag|..]);
    } else {
      EscapeHere(o);
      PrefixOfEscaped(tag, o);
      SearchPasses(o, k);
      SearchPasses(EscapeRest(o), k);
      SearchEscaped(o[1..], k);
    }
  }

  lemma EscapeShort()
    ensures EscapeRest("") == "" && EscapeRest("\n.") == "\n.."
  {}

  lemma SearchBuffer(m: string, k: nat)
    ensures AfterFirst(Escape(m), MarkTag(k)) == Escaped(AfterFirst(m, MarkTag(k)))
  {
    hide AfterFirst, MarkTag, EscapeRest;
    EscapeEnds(m);
    if m == "." {
      EscapeShort();
      assert "." + "" == "." && ".." + "" == "..";
      SearchSkips(".", "", k);
      SearchSkips("..", "", k);
      EmptySearch(k);
    } else if ".\n" <= m {
      assert m == ".\n" + m[2..];
      SearchSkips(".\n", m[2..], k);
      SearchSkips("..\n", EscapeRest(m[2..]), k);
      SearchEscaped(m[2..], k);
    } else {
      SearchEscaped(m, k);
    }
  }

  /** The text with a second dot on each line "." inside a tag, but not on two neighbouring
      ones, and on the last line: the other lines "." get marks. */
  function Doubled(s: string, insideTag: bool): string
  {
    if "\n.\n" <= s && insideTag then "\n..\n" + Doubled(s[3..], insideTag)
    else if s == "\n." then "\n.."
    else if s == "" then ""
    else [s[0]] + Doubled(s[1..], SsmlFraming.TagBehind(s[0], insideTag))
  }

  /** A line "." to double begins behind the line feed at i. */
  predicate DotAt(s: string, i: nat, insideTag: bool)
    requires i <= |s|
  {
    ("\n.\n" <= s[i..] && TagAt(s, i, insideTag)) || s[i..] == "\n."
  }

  lemma {:induction false} DoubledLonger(s: string, insideTag: bool)
    ensures |Doubled(s, insideTag)| >= |s|
    decreases |s|
  {
    if "\n.\n" <= s && insideTag {
      DoubledLonger(s[3..], insideTag);
    } else if s == "\n." || s == "" {
    } else {
      DoubledLonger(s[1..], SsmlFraming.TagBehind(s[0], insideTag));
    }
  }

  lemma {:induction false} UndoubledIff(s: string, insideTag: bool)
    ensures Doubled(s, insideTag) == s <==> forall i | 0 <= i <= |s| :: !DotAt(s, i, insideTag)
    decreases |s|
  {
    hide DotAt;
    DotAtShift(s, insideTag);
    if "\n.\n" <= s && insideTag {
      DoubledLonger(s[3..], insideTag);
      assert DotAt(s, 0, insideTag);
    } else if s == "\n." {
      assert DotAt(s, 0, insideTag);
    } else if s == "" {
    } else {
      var t, tag := s[1..], SsmlFraming.TagBehind(s[0], insideTag);
      UndoubledIff(t, tag);
      assert s == [s[0]] + t && ([s[0]] + Doubled(t, tag))[1..] == Doubled(t, tag);
      assert forall i | 0 < i <= |s| :: DotAt(s, i, insideTag) <==> DotAt(t, i - 1, tag);
      assert forall i | 0 <= i <= |t| :: DotAt(t, i, tag) <==> DotAt(s, i + 1, insideTag);
    }
  }

  lemma DotAtShift(s: string, insideTag: bool)
    ensures DotAt(s, 0, insideTag) <==> ("\n.\n" <= s && insideTag) || s == "\n."
    ensures forall i | 0 < i <= |s| ::
              DotAt(s, i, insideTag) <==> DotAt(s[1..], i - 1, SsmlFraming.TagBehind(s[0], insideTag))
  {
    assert s[0..] == s;
    assert forall i | 0 < i <= |s| :: s[1..][i - 1..] == s[i..];
  }

  lemma DotThen(u: string)
    ensures ".\n" <= "." + u <==> u != "" && u[0] == '\n'
    ensures "." + u == "." <==> u == ""
  {
    assert ("." + u)[1..] == u;
  }

  /** A line "." stands at the head of the marked text only inside a tag. */
  lemma DotLineMarked(t: string, n: nat, insideTag: bool, isSpace: SpaceTest)
    requires isSpace('\n' as int) && !isSpace('.' as int)
    ensures var m := MarkSsml(t, n, insideTag, isSpace);
            (".\n" <= m <==> ".\n" <= t && insideTag) && (m == "." <==> t == ".")
            && (".\n" <= t && insideTag ==> m[2..] == MarkSsml(t[2..], n, insideTag, isSpace))
  {
    hide MarkSsml, MarkTag, BreakAt;
    SsmlFraming.MarkedBegins(t, n, insideTag, isSpace);
    if t != "" && t[0] == '.' {
      var u := t[1..];
      var m := MarkSsml(t, n, insideTag, isSpace);
      SsmlFraming.MarkedStep(t, n, insideTag, isSpace);
      SsmlFraming.DotBreaks(u, isSpace);
      SsmlFraming.MarkedBegins(u, n, insideTag, isSpace);
      assert t == "." + u;
      DotThen(u);
      if GetsMark(t, insideTag, isSpace) {
        TagShape(n);
        assert m[1] == '<';
      } else {
        assert m == "." + MarkSsml(u, n, insideTag, isSpace);
        DotThen(MarkSsml(u, n, insideTag, isSpace));
        if u != "" {
          SsmlFraming.MarkedStep(u, n, insideTag, isSpace);
          assert u[1..] == t[2..];
        }
      }
    }
  }

  /** Of the lines "." in a marked text, escape_dot doubles these. */
  lemma MatchIsInTag(s: string, n: nat, insideTag: bool, isSpace: SpaceTest)
    requires isSpace('\n' as int) && !isSpace('.' as int)
    ensures var m := MarkSsml(s, n, insideTag, isSpace);
            ("\n.\n" <= m <==> "\n.\n" <= s && insideTag) && (m == "\n." <==> s == "\n.")
            && ("\n.\n" <= s && insideTag ==> m[3..] == MarkSsml(s[3..], n, insideTag, isSpace))
  {
    hide MarkSsml, MarkTag;
    var m := MarkSsml(s, n, insideTag, isSpace);
    SsmlFraming.MarkedBegins(s, n, insideTag, isSpace);
    if s != "" && s[0] == '\n' {
      SsmlFraming.MarkedStep(s, n, insideTag, isSpace);
      DotLineMarked(s[1..], n, insideTag, isSpace);
      BehindLf(s);
      BehindLf(m);
      assert m[1..] == MarkSsml(s[1..], n, insideTag, isSpace);
      if "\n.\n" <= s && insideTag {
        assert s[1..][2..] == s[3..] && m[1..][2..] == m[3..];
      }
    }
  }

  lemma BehindLf(s: string)
    requires s != "" && s[0] == '\n'
    ensures "\n.\n" <= s <==> ".\n" <= s[1..]
    ensures s == "\n." <==> s[1..] == "."
  {
    assert s == "\n" + s[1..] && "\n.\n"[1..] == ".\n" && "\n."[1..] == ".";
    assert "\n.\n" <= s ==> s[1..][..2] == s[..3][1..];
    assert ".\n" <= s[1..] ==> s[..3] == "\n" + s[1..][..2];
  }

  lemma HeadHasNoLf()
    ensures '\n' !in MARK_HEAD
  {}

  /** Escaping and stripping the marked text doubles these and removes the marks. */
  lemma {:induction false} StripEscapedMarks(s: string, n: nat, insideTag: bool, isSpace: SpaceTest)
    requires isSpace('\n' as int) && !isSpace('.' as int) && Lacks(s, MARK_HEAD)
    ensures StripMarks(EscapeRest(MarkSsml(s, n, insideTag, isSpace))) == Doubled(s, insideTag)
    decreases |s|
  {
    hide MarkSsml, MarkTag, EscapeRest, StripMarks, EndsHere, HeadHere, Lacks;
    var m := MarkSsml(s, n, insideTag, isSpace);
    MatchIsInTag(s, n, insideTag, isSpace);
    SsmlFraming.MarkedBegins(s, n, insideTag, isSpace);
    EscapeShort();
    if "\n.\n" <= s && insideTag {
      EscapeHere(m);
      LacksBehind(s, 3);
      StripEscapedMarks(s[3..], n, insideTag, isSpace);
      StripCopies("\n..\n", EscapeRest(m[3..]));
    } else if s == "\n." {
      assert "\n.." + "" == "\n..";
      StripCopies("\n..", "");
      StripUnfold("");
    } else if s == "" {
      StripUnfold("");
    } else {
      EscapeHere(m);
      LacksBehind(s, 1);
      SsmlMarking.MarkHeadHere(s, n, insideTag, isSpace);
      HeadHasNoLf();
      PrefixOfEscaped(MARK_HEAD, m);
      HeadIs(m);
      HeadIs(EscapeRest(m));
      StripStep(EscapeRest(m));
      SsmlFraming.MarkedStep(s, n, insideTag, isSpace);
      var tag := SsmlFraming.TagBehind(s[0], insideTag);
      if GetsMark(s, insideTag, isSpace) {
        var rest := MarkSsml(s[1..], n + 1, tag, isSpace);
        assert m[1..] == MarkTag(n) + rest;
        SsmlFraming.TagHoldsNoLf(n);
        EscapeCopies(MarkTag(n), rest);
        StripTag(n, EscapeRest(rest));
        StripEscapedMarks(s[1..], n + 1, tag, isSpace);
      } else {
        StripEscapedMarks(s[1..], n, tag, isSpace);
      }
    }
  }

  lemma HeadIs(m: string)
    ensures HeadHere(m) <==> MARK_HEAD <= m
  {}

  lemma LacksBehind(s: string, l: nat)
    requires l <= |s| && Lacks(s, MARK_HEAD)
    ensures Lacks(s[l..], MARK_HEAD) && !HeadHere(s)
  {
    assert s[0..] == s;
    assert forall i | 0 <= i <= |s| - l :: s[l..][i..] == s[l + i..];
  }

  // ---- what is heard

  lemma {:induction false} PlainIsCopied(p: string, x: string, n: nat, insideTag: bool, isSpace: SpaceTest)
    requires forall i | 0 <= i < |p| :: p[i] != '<' && p[i] != '>' && !IsSentenceEnd(p[i])
    ensures MarkSsml(p + x, n, insideTag, isSpace) == p + MarkSsml(x, n, insideTag, isSpace)
  {
    hide MarkSsml, MarkTag, BreakAt;
    if p == "" {
      assert p + x == x && p + MarkSsml(x, n, insideTag, isSpace) == MarkSsml(x, n, insideTag, isSpace);
    } else {
      assert (p + x)[0] == p[0] && (p + x)[1..] == p[1..] + x;
      SsmlMarking.SsmlCopies(p + x, n, insideTag, isSpace);
      PlainIsCopied(p[1..], x, n, insideTag, isSpace);
      Assoc([p[0]], p[1..], MarkSsml(x, n, insideTag, isSpace));
      assert [p[0]] + p[1..] == p;
    }
  }

  predicate IsEntity(e: string) { e == "&lt;" || e == "&gt;" || e == "&amp;" }

  /** A turn of the stripper passes an entity, or a byte with its effect on the tag. */
  lemma TurnShape(s: string, omit: bool)
    requires s != ""
    ensures var (_, tag, l) := ModuleText.Turn(s, omit);
            1 <= l <= |s|
            && if l > 1 then IsEntity(s[..l]) && tag == omit else tag == SsmlFraming.TagBehind(s[0], omit)
  {}

  lemma EntitiesDecide(s: string, m: string, omit: bool)
    requires s != "" && m != "" && s[0] == m[0]
    requires ("&lt;" <= s <==> "&lt;" <= m) && ("&gt;" <= s <==> "&gt;" <= m) && ("&amp;" <= s <==> "&amp;" <= m)
    ensures ModuleText.Turn(s, omit) == ModuleText.Turn(m, omit)
  {}

  /** Stripping passes the same entity or byte of the marked text. */
  lemma SameTurn(s: string, n: nat, insideTag: bool, isSpace: SpaceTest)
    requires s != "" && !GetsMark(s, insideTag, isSpace)
    ensures var (o, tag, l) := ModuleText.Turn(s, insideTag);
            var m := MarkSsml(s, n, insideTag, isSpace);
            l <= |s| && l <= |m| && m != "" && ModuleText.Turn(m, insideTag) == (o, tag, l)
            && m[l..] == MarkSsml(s[l..], n, tag, isSpace)
  {
    hide *;
    var (o, tag, l) := ModuleText.Turn(s, insideTag);
    var m := MarkSsml(s, n, insideTag, isSpace);
    EntitiesAreNoEnds();
    SsmlMarking.PrefixKept("&lt;", s, n, insideTag, isSpace);
    SsmlMarking.PrefixKept("&gt;", s, n, insideTag, isSpace);
    SsmlMarking.PrefixKept("&amp;", s, n, insideTag, isSpace);
    UnmarkedStep(s, n, insideTag, isSpace);
    EntitiesDecide(s, m, insideTag);
    TurnShape(s, insideTag);
    if l > 1 {
      EntityCopied(s, l, n, insideTag, isSpace);
    }
  }

  lemma EntitiesAreNoEnds()
    ensures forall i | 0 <= i < 4 :: !IsSentenceEnd("&lt;"[i]) && !IsSentenceEnd("&gt;"[i])
    ensures forall i | 0 <= i < 5 :: !IsSentenceEnd("&amp;"[i])
    ensures |"&lt;"| == |"&gt;"| == 4 && |"&amp;"| == 5
  {}

  lemma UnmarkedStep(s: string, n: nat, insideTag: bool, isSpace: SpaceTest)
    requires s != "" && !GetsMark(s, insideTag, isSpace)
    ensures var m := MarkSsml(s, n, insideTag, isSpace);
            m != "" && m[0] == s[0]
            && m[1..] == MarkSsml(s[1..], n, SsmlFraming.TagBehind(s[0], insideTag), isSpace)
  {
    hide MarkSsml, MarkTag, BreakAt;
    SsmlFraming.MarkedStep(s, n, insideTag, isSpace);
  }

  lemma EntityCopied(s: string, l: nat, n: nat, insideTag: bool, isSpace: SpaceTest)
    requires l <= |s| && IsEntity(s[..l])
    ensures var m := MarkSsml(s, n, insideTag, isSpace);
            l <= |m| && m[l..] == MarkSsml(s[l..], n, insideTag, isSpace)
  {
    hide MarkSsml, IsEntity;
    EntityIsPlain(s[..l]);
    assert s == s[..l] + s[l..];
    PlainIsCopied(s[..l], s[l..], n, insideTag, isSpace);
  }

  lemma EntityIsPlain(e: string)
    requires IsEntity(e)
    ensures forall i | 0 <= i < |e| :: e[i] != '<' && e[i] != '>' && !IsSentenceEnd(e[i])
  {}

  lemma MarkUnheard(s: string, n: nat, isSpace: SpaceTest)
    requires GetsMark(s, false, isSpace)
    ensures ModuleText.StripSsml(s, false) == [s[0]] + ModuleText.StripSsml(s[1..], false)
    ensures ModuleText.StripSsml(MarkSsml(s, n, false, isSpace), false) ==
            [s[0]] + ModuleText.StripSsml(MarkSsml(s[1..], n + 1, false, isSpace), false)
  {
    hide MarkSsml, ModuleText.StripSsml, BreakAt, MarkTag, MarkInner, HeadHere;
    EndIsNoTag(s, isSpace);
    var rest := MarkSsml(s[1..], n + 1, false, isSpace);
    SsmlFraming.MarkedStep(s, n, false, isSpace);
    assert [s[0]] + s[1..] == s;
    EndIsHeard(s[0], s[1..]);
    EndIsHeard(s[0], MarkTag(n) + rest);
    MarkTagShape(n);
    ModuleText.StripTag(MarkInner(n), rest);
  }

  /** The module's markup stripper drops the server's marks with the client's tags. */
  lemma {:induction false} MarksUnheard(s: string, n: nat, insideTag: bool, isSpace: SpaceTest)
    ensures ModuleText.StripSsml(MarkSsml(s, n, insideTag, isSpace), insideTag) == ModuleText.StripSsml(s, insideTag)
    decreases |s|
  {
    hide MarkSsml, ModuleText.StripSsml, EndsHere, MarkTag, ModuleText.Turn, MarkInner, HeadHere;
    if s == "" {
      SsmlFraming.MarkedBegins(s, n, insideTag, isSpace);
    } else if GetsMark(s, insideTag, isSpace) {
      MarkUnheard(s, n, isSpace);
      MarksUnheard(s[1..], n + 1, false, isSpace);
    } else {
      SameTurn(s, n, insideTag, isSpace);
      ModuleText.TurnUnfolds(s, insideTag);
      ModuleText.TurnUnfolds(MarkSsml(s, n, insideTag, isSpace), insideTag);
      var (_, tag, l) := ModuleText.Turn(s, insideTag);
      TurnShape(s, insideTag);
      MarksUnheard(s[l..], n, tag, isSpace);
    }
  }

  lemma EndIsHeard(c: char, x: string)
    requires IsSentenceEnd(c)
    ensures ModuleText.StripSsml([c] + x, false) == [c] + ModuleText.StripSsml(x, false)
  {
    hide ModuleText.StripSsml;
    var s := [c] + x;
    ModuleText.TurnUnfolds(s, false);
    assert s[0] == c && s[1..] == x;
  }

  lemma {:induction false} PlainKeepsTag(s: string, p: nat, l: nat, insideTag: bool)
    requires l <= p <= |s| && forall i | 0 <= i < l :: s[i] != '<' && s[i] != '>'
    ensures TagAt(s, p, insideTag) == TagAt(s[l..], p - l, insideTag)
    decreases l
  {
    if l == 0 {
      assert s[0..] == s;
    } else {
      PlainKeepsTag(s[1..], p - 1, l - 1, insideTag);
      assert s[1..][l - 1..] == s[l..];
    }
  }

  lemma TagAtStart(s: string, insideTag: bool)
    ensures TagAt(s, 0, insideTag) == insideTag
  {}

  /** An entity at the head of the text ends before a sentence end. */
  lemma EntityFits(s: string, p: nat, e: string)
    requires p < |s| && IsSentenceEnd(s[p]) && IsEntity(e)
    ensures e <= s <==> e <= s[..p + 1]
    ensures e <= s ==> |e| <= p
  {
    EntityIsPlain(e);
    hide IsEntity;
    assert e <= s ==> e == s[..|e|] && s[..p + 1][..|e|] == s[..|e|];
    assert e <= s[..p + 1] ==> e == s[..p + 1][..|e|] && s[..p + 1][..|e|] == s[..|e|];
  }

  /** The stripper makes the same turn of the text up to a sentence end. */
  lemma SameTurnBefore(s: string, p: nat, omit: bool)
    requires 0 < p < |s| && IsSentenceEnd(s[p])
    ensures ModuleText.Turn(s[..p + 1], omit) == ModuleText.Turn(s, omit)
  {
    hide ModuleText.Turn, IsSentenceEnd;
    EntityFits(s, p, "&lt;");
    EntityFits(s, p, "&gt;");
    EntityFits(s, p, "&amp;");
    EntitiesDecide(s, s[..p + 1], omit);
  }

  lemma EntityEnds(s: string, p: nat, l: nat, insideTag: bool)
    requires p < |s| && IsSentenceEnd(s[p]) && l <= |s| && IsEntity(s[..l])
    ensures l <= p && TagAt(s, p, insideTag) == TagAt(s[l..], p - l, insideTag)
  {
    hide TagAt, IsEntity, IsSentenceEnd;
    var e := s[..l];
    EntityFits(s, p, e);
    EntityIsPlain(e);
    assert forall i | 0 <= i < l :: s[i] == e[i];
    PlainKeepsTag(s, p, l, insideTag);
  }

  /** The stripper passes an entity or a byte, the tag being open as the marking has it. */
  lemma TurnKeepsTag(s: string, p: nat, insideTag: bool)
    requires 0 < p < |s| && IsSentenceEnd(s[p])
    ensures var (o, tag, l) := ModuleText.Turn(s, insideTag);
            l <= p && TagAt(s, p, insideTag) == TagAt(s[l..], p - l, tag)
            && ModuleText.Turn(s[..p + 1], insideTag) == (o, tag, l)
  {
    hide TagAt, ModuleText.Turn, IsEntity, IsSentenceEnd;
    var (o, tag, l) := ModuleText.Turn(s, insideTag);
    SameTurnBefore(s, p, insideTag);
    TurnShape(s, insideTag);
    if l > 1 {
      EntityEnds(s, p, l, insideTag);
    } else {
      TagAtNext(s, p, insideTag);
    }
  }

  lemma TagAtNext(s: string, p: nat, insideTag: bool)
    requires 0 < p <= |s|
    ensures TagAt(s, p, insideTag) == TagAt(s[1..], p - 1, SsmlFraming.TagBehind(s[0], insideTag))
  {}

  /** What is heard of a text is what is heard up to a sentence end outside tags, followed by
      what is heard of the rest. */
  lemma {:induction false} HeardSplits(s: string, p: nat, insideTag: bool)
    requires p < |s| && IsSentenceEnd(s[p]) && !TagAt(s, p, insideTag)
    ensures ModuleText.StripSsml(s, insideTag) ==
            ModuleText.StripSsml(s[..p + 1], insideTag) + ModuleText.StripSsml(s[p + 1..], false)
    decreases |s|
  {
    hide ModuleText.StripSsml, ModuleText.Turn, TagAt;
    if p == 0 {
      TagAtStart(s, insideTag);
      EndIsHeard(s[0], s[1..]);
      EndIsHeard(s[0], "");
      assert [s[0]] + s[1..] == s && [s[0]] + "" == s[..1];
      ModuleText.StripEnds("", false);
      assert ""[0..] == "" && [s[0]] + "" == [s[0]];
    } else {
      var (o, tag, l) := ModuleText.Turn(s, insideTag);
      var head := s[..p + 1];
      TurnKeepsTag(s, p, insideTag);
      TurnShape(s, insideTag);
      ModuleText.TurnUnfolds(s, insideTag);
      ModuleText.TurnUnfolds(head, insideTag);
      HeardSplits(s[l..], p - l, tag);
      assert s[l..][..p - l + 1] == head[l..] && s[l..][p - l + 1..] == s[p + 1..];
      Assoc(o, ModuleText.StripSsml(head[l..], tag), ModuleText.StripSsml(s[p + 1..], false));
    }
  }

  /** What is queued when the message is resumed behind the sentence end at p, and what is
      heard then.  If there is no mark head in the client's text behind p, that text is queued
      after an opening tag, with each line "." doubled that got no mark.  If there is no such
      line, what was heard up to p and what is heard then make up what the whole would be. */
  lemma ResumeSsmlIsHeard(s: string, p: nat, isSpace: SpaceTest)
    requires isSpace('\n' as int) && !isSpace('.' as int) && MarkedEnd(s, p, false, isSpace)
    requires !OwnMark(s, p, MarksBefore(s, p, false, isSpace)) && Lacks(s[p + 1..], MARK_HEAD)
    ensures var k, rest := MarksBefore(s, p, false, isSpace), s[p + 1..];
            var r := Resuming.Reloaded(Resuming.Buffered(s, SsmlMode, isSpace), Some(k), SsmlMode);
            r == Some("<speak>" + Doubled(rest, false))
            && (r == Some("<speak>" + rest) <==> forall i | 0 <= i <= |rest| :: !DotAt(rest, i, false))
            && (r == Some("<speak>" + rest) ==>
                  Resuming.Heard(s, SsmlMode, isSpace) ==
                  ModuleText.StripSsml(s[..p + 1], false) + Resuming.Heard(r.value, SsmlMode, isSpace))
  {
    hide MarkSsml, AfterFirst, EndsHere, StripMarks, OwnMark, Lacks, MarkTag, DotAt, ModuleText.StripSsml, TagAt,
         Escape, EscapeRest, MarksBefore, Resuming.Reloaded, Doubled;
    var k, rest := MarksBefore(s, p, false, isSpace), s[p + 1..];
    var m := MarkSsml(s, 0, false, isSpace);
    assert "" + m + "" == m;
    FindMarked(s, 0, false, p, isSpace);
    SearchBuffer(m, k);
    Resuming.ReloadedAt(Resuming.Buffered(s, SsmlMode, isSpace), k, SsmlMode);
    StripEscapedMarks(rest, k + 1, false, isSpace);
    UndoubledIff(rest, false);
    SsmlMarking.SameSuffix("<speak>", Doubled(rest, false), rest);
    HeardAgain(s, isSpace);
    HeardAgain("<speak>" + rest, isSpace);
    assert "<" + ("speak" + ">") == "<speak>";
    ModuleText.StripTag("speak", rest);
    EndIsNoTag(s[p..], isSpace);
    HeardSplits(s, p, false);
  }

  /** Of an SSML text is heard what the stripper leaves of it. */
  lemma HeardAgain(s: string, isSpace: SpaceTest)
    ensures Resuming.Heard(s, SsmlMode, isSpace) == ModuleText.StripSsml(s, false)
  {
    hide MarkSsml, ModuleText.StripSsml;
    var m := MarkSsml(s, 0, false, isSpace);
    assert "" + m + "" == m;
    MarksUnheard(s, 0, false, isSpace);
  }
}
