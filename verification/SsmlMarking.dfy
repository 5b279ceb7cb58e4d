/** Index marks in SSML mode: what inserting and stripping them leaves of a text. */
module SsmlMarking {
  import opened CStrings
  import opened IndexMarking

  /** Up to the end of a tag the marking copies its input. */
  lemma {:induction false} InsideTagIsVerbatim(tag: string, x: string, n: nat, isSpace: SpaceTest)
    requires Avoids(tag, {'>'})
    ensures MarkSsml(tag + (">" + x), n, true, isSpace) == tag + (">" + MarkSsml(x, n, false, isSpace))
  {
    hide EndsHere, MarkTag;
    var s := tag + (">" + x);
    if tag == "" {
      assert s == ">" + x && s[1..] == x;
    } else {
      assert tag[0] in tag && s[0] == tag[0] && s[1..] == tag[1..] + (">" + x);
      InsideTagIsVerbatim(tag[1..], x, n, isSpace);
      assert tag == [tag[0]] + tag[1..];
    }
  }

  /** A text without sentence ends starts the marked text iff it starts the text. */
  lemma {:induction false} PrefixKept(h: string, s: string, n: nat, insideTag: bool, isSpace: SpaceTest)
    requires forall i | 0 <= i < |h| :: !IsSentenceEnd(h[i])
    ensures h <= MarkSsml(s, n, insideTag, isSpace) <==> h <= s
  {
    hide EndsHere, MarkTag;
    if h == "" || s == "" || h[0] != s[0] {
    } else {
      var tag := if s[0] == '<' then true else if s[0] == '>' then false else insideTag;
      SsmlCopies(s, n, insideTag, isSpace);
      var m := MarkSsml(s[1..], n, tag, isSpace);
      PrefixKept(h[1..], s[1..], n, tag, isSpace);
      PrefixTail(h, s[0], m);
      assert s == [s[0]] + s[1..];
      PrefixTail(h, s[0], s[1..]);
    }
  }

  lemma PrefixTail(h: string, c: char, x: string)
    requires h != "" && h[0] == c
    ensures h <= [c] + x <==> h[1..] <= x
  {
    assert h == [c] + h[1..];
    assert ([c] + x)[1..] == x;
    if h <= [c] + x { assert h[1..] == ([c] + x)[1..|h|]; assert x[..|h| - 1] == h[1..]; }
  }

  lemma SsmlCopies(s: string, n: nat, insideTag: bool, isSpace: SpaceTest)
    requires s != "" && !IsSentenceEnd(s[0])
    ensures var tag := if s[0] == '<' then true else if s[0] == '>' then false else insideTag;
            MarkSsml(s, n, insideTag, isSpace) == [s[0]] + MarkSsml(s[1..], n, tag, isSpace)
  {
    hide MarkTag;
  }

  lemma {:induction false} AfterGtOfMarked(u: string, n: nat, isSpace: SpaceTest)
    ensures AfterGt(MarkSsml(u, n, true, isSpace)) == MarkSsml(AfterGt(u), n, false, isSpace)
  {
    hide EndsHere, MarkTag;
    if u == "" {
    } else {
      var m := MarkSsml(u, n, true, isSpace);
      if u[0] == '>' {
        assert m[1..] == MarkSsml(u[1..], n, false, isSpace);
      } else {
        AfterGtOfMarked(u[1..], n, isSpace);
        assert m[1..] == MarkSsml(u[1..], n, true, isSpace);
      }
    }
  }

  lemma MarkHeadHere(s: string, n: nat, insideTag: bool, isSpace: SpaceTest)
    ensures HeadHere(MarkSsml(s, n, insideTag, isSpace)) <==> HeadHere(s)
  {
    hide MarkSsml;
    PrefixKept(MARK_HEAD, s, n, insideTag, isSpace);
  }

  lemma HeadIsBracket(s: string)
    requires HeadHere(s)
    ensures s != "" && s[0] == '<'
  {}

  /** Marking first does not change what stripping leaves, whatever the text. */
  lemma {:induction false} StripAfterMarking(s: string, n: nat, insideTag: bool, isSpace: SpaceTest)
    ensures StripMarks(MarkSsml(s, n, insideTag, isSpace)) == StripMarks(s)
    decreases |s|
  {
    hide StripMarks, AfterGt, EndsHere, MarkTag, HeadHere;
    if s == "" {
    } else {
      var m := MarkSsml(s, n, insideTag, isSpace);
      StripStep(m);
      StripStep(s);
      MarkHeadHere(s, n, insideTag, isSpace);
      if HeadHere(s) {
        HeadIsBracket(s);
        assert m[1..] == MarkSsml(s[1..], n, true, isSpace);
        AfterGtOfMarked(s[1..], n, isSpace);
        StripAfterMarking(AfterGt(s[1..]), n, false, isSpace);
      } else if s[0] != '<' && s[0] != '>' && !insideTag && EndsHere(s, isSpace) {
        var rest := MarkSsml(s[1..], n + 1, false, isSpace);
        assert m[1..] == MarkTag(n) + rest;
        StripTag(n, rest);
        StripAfterMarking(s[1..], n + 1, false, isSpace);
      } else {
        var tag := if s[0] == '<' then true else if s[0] == '>' then false else insideTag;
        assert m[1..] == MarkSsml(s[1..], n, tag, isSpace);
        StripAfterMarking(s[1..], n, tag, isSpace);
      }
    }
  }

  lemma {:induction false} StripIsShorter(s: string)
    ensures |StripMarks(s)| <= |s|
    decreases |s|
  {
    hide AfterGt, Find;
    StripUnfold(s);
    var f := Find(s, MARK_HEAD);
    if f.None? {
    } else {
      StripIsShorter(AfterGt(s[f.value + 1..]));
    }
  }

  /** Stripping changes nothing exactly when the text holds no mark head. */
  lemma StripIsIdentity(s: string)
    ensures StripMarks(s) == s <==> Lacks(s, MARK_HEAD)
  {
    hide *;
    StripUnfold(s);
    LacksIffNotFound(s, MARK_HEAD);
    var f := Find(s, MARK_HEAD);
    if f.Some? {
      StripIsShorter(AfterGt(s[f.value + 1..]));
    }
  }

  lemma LacksIffNotFound(s: string, p: string)
    ensures Lacks(s, p) <==> Find(s, p) == None
  {
    FindIsFirst(s, p);
  }

  /** SSML mode: marking and stripping an SSML text gives it back after the speak tag
      that the stripping adds, exactly when the text holds no mark head of its own. */
  lemma SsmlRoundTrip(s: string, isSpace: SpaceTest)
    ensures Stripped(InsertMarks(s, SsmlMode, isSpace), SsmlMode) == "<speak>" + s <==> Lacks(s, MARK_HEAD)
  {
    hide StripMarks, MarkSsml, Lacks;
    var m := MarkSsml(s, 0, false, isSpace);
    assert "" + m + "" == m;
    StripAfterMarking(s, 0, false, isSpace);
    StripIsIdentity(s);
    SameSuffix("<speak>", StripMarks(s), s);
  }

  lemma SameSuffix(p: string, a: string, b: string)
    ensures p + a == p + b <==> a == b
  {
    assert (p + a)[|p|..] == a && (p + b)[|p|..] == b;
  }
}
