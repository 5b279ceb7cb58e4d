/** Index marks (src/server/index_marking.c): numbered marks after sentence ends,
    the search for one, and their removal. */
module IndexMarking {
  import opened CStrings
  import Utf8

  const MARK_HEAD := "<mark name=\"__spd_"
  const MARK_TAIL := "\"/>"

  function MarkTag(n: nat): string
  {
    MARK_HEAD + (Digits(n) + MARK_TAIL)
  }

  /** g_unichar_isspace, which the model leaves open. */
  type SpaceTest = int -> bool

  /** What must follow a sentence end for it to get a mark. */
  predicate BreakAt(s: string, isSpace: SpaceTest)
  {
    s != "" && (s[0] == '<' || s[0] == '&' || (Utf8.ValidChar(s) && isSpace(Utf8.CodePoint(s))))
  }

  predicate IsSentenceEnd(c: char) { c == '.' || c == '?' || c == '!' }

  /** The text starts with a sentence end that gets a mark. */
  predicate EndsHere(s: string, isSpace: SpaceTest)
  {
    s != "" && IsSentenceEnd(s[0]) && BreakAt(s[1..], isSpace)
  }

  function EscapeChar(c: char): string
  {
    match c
    case '<' => "&lt;"
    case '>' => "&gt;"
    case '&' => "&amp;"
    case _ => [c]
  }

  function EscapeText(s: string): string
  {
    if s == "" then "" else EscapeChar(s[0]) + EscapeText(s[1..])
  }

  /** TEXT mode, from a point where n marks have been given out. */
  function MarkText(s: string, n: nat, isSpace: SpaceTest): string
  {
    if s == "" then ""
    else if EndsHere(s, isSpace) then EscapeChar(s[0]) + (MarkTag(n) + MarkText(s[1..], n + 1, isSpace))
    else EscapeChar(s[0]) + MarkText(s[1..], n, isSpace)
  }

  /** SSML mode, from a point inside or outside a tag. */
  function MarkSsml(s: string, n: nat, insideTag: bool, isSpace: SpaceTest): string
  {
    if s == "" then ""
    else if s[0] == '<' then "<" + MarkSsml(s[1..], n, true, isSpace)
    else if s[0] == '>' then ">" + MarkSsml(s[1..], n, false, isSpace)
    else if !insideTag && EndsHere(s, isSpace) then [s[0]] + (MarkTag(n) + MarkSsml(s[1..], n + 1, false, isSpace))
    else [s[0]] + MarkSsml(s[1..], n, insideTag, isSpace)
  }

  datatype DataMode = TextMode | SsmlMode

  /** Either mode, from a point where n marks have been given out. */
  function MarkBody(s: string, mode: DataMode, n: nat, insideTag: bool, isSpace: SpaceTest): string
  {
    if mode.TextMode? then MarkText(s, n, isSpace) else MarkSsml(s, n, insideTag, isSpace)
  }

  function Opening(mode: DataMode): string { if mode.TextMode? then "<speak>" else "" }

  function Closing(mode: DataMode): string { if mode.TextMode? then "</speak>" else "" }

  function InsertMarks(s: string, mode: DataMode, isSpace: SpaceTest): string
  {
    Opening(mode) + MarkBody(s, mode, 0, false, isSpace) + Closing(mode)
  }

  // ---- insert_index_marks

  /** insert_index_marks.  The server has checked the encoding of buf. */
  method InsertIndexMarks(buf: string, mode: DataMode, isSpace: SpaceTest) returns (marked: string)
    requires Utf8.Valid(buf)
    ensures marked == InsertMarks(buf, mode, isSpace)
  {
    hide MarkText, MarkSsml, MarkBody, Utf8.Valid, StepAt, Opening, Closing;
    var n: nat, insideTag, pos := 0, false, 0;
    marked := Opening(mode);
    assert buf[0..] == buf;
    while pos < |buf|
      invariant 0 <= pos <= |buf| && Utf8.Valid(buf[pos..])
      invariant mode.TextMode? ==> !insideTag
      invariant Opening(mode) + MarkBody(buf, mode, 0, false, isSpace)
                == marked + MarkBody(buf[pos..], mode, n, insideTag, isSpace)
    {
      ReadChar(buf, pos);
      MarkStep(marked, buf, pos, mode, n, insideTag, isSpace);
      var out;
      out, n, insideTag, pos := MarkChar(buf, pos, mode, n, insideTag, isSpace);
      marked := marked + out;
    }
    InsertEnd(marked, buf, mode, n, insideTag, isSpace);
    marked := marked + Closing(mode);
  }

  /** The body of the loop: the bytes appended, the next mark number and tag state
      and the position after the character at pos. */
  method MarkChar(buf: string, pos: nat, mode: DataMode, n: nat, insideTag: bool, isSpace: SpaceTest)
    returns (out: string, n': nat, insideTag': bool, pos': nat)
    requires pos < |buf| && Utf8.Valid(buf[pos..]) && (mode.TextMode? ==> !insideTag)
    ensures Utf8.ValidChar(buf[pos..])
    ensures (out, n', insideTag') == StepAt(buf[pos..], mode, n, insideTag, isSpace)
    ensures pos' == pos + Utf8.Skip(buf[pos]) <= |buf| && Utf8.Valid(buf[pos'..])
    ensures mode.TextMode? ==> !insideTag'
  {
    hide MarkTag, Utf8.Valid, Utf8.ValidChar, Utf8.CodePoint, Utf8.Encode;
    n', insideTag' := n, insideTag;
    ReadChar(buf, pos);
    var uChar := Utf8.CodePoint(buf[pos..]);
    var character := Utf8.Encode(uChar);
    pos' := pos + Utf8.Skip(buf[pos]);
    assert character == buf[pos..][..Utf8.Skip(buf[pos])];
    assert Utf8.Skip(buf[pos]) == 1 ==> character == [buf[pos]];
    if uChar == '<' as int {
      if mode.SsmlMode? {
        insideTag' := true;
        out := character;
      } else {
        out := "&lt;";
      }
    } else if uChar == '>' as int {
      if mode.SsmlMode? {
        insideTag' := false;
        out := character;
      } else {
        out := "&gt;";
      }
    } else if uChar == '&' as int {
      if mode.SsmlMode? {
        out := character;
      } else {
        out := "&amp;";
      }
    } else if (uChar == '.' as int || uChar == '?' as int || uChar == '!' as int) && !insideTag {
      out := character;
      assert buf[pos..][1..] == buf[pos'..];
      if pos' < |buf| {
        ReadChar(buf, pos');
        uChar := Utf8.CodePoint(buf[pos'..]);
        if isSpace(uChar) || uChar == '<' as int || uChar == '&' as int {
          out := character + MarkTag(n);
          n' := n + 1;
        }
      }
    } else {
      out := character;
    }
  }

  /** What one turn of the loop does with the character at the head of s: the bytes
      to append, the next mark number and whether the next character is in a tag. */
  ghost function StepAt(s: string, mode: DataMode, n: nat, insideTag: bool, isSpace: SpaceTest): (string, nat, bool)
    requires Utf8.ValidChar(s)
  {
    var c := s[0];
    if Utf8.Skip(c) > 1 then (s[..Utf8.Skip(c)], n, insideTag)
    else if c == '<' then if mode.TextMode? then ("&lt;", n, insideTag) else ("<", n, true)
    else if c == '>' then if mode.TextMode? then ("&gt;", n, insideTag) else (">", n, false)
    else if c == '&' then if mode.TextMode? then ("&amp;", n, insideTag) else ("&", n, insideTag)
    else if !insideTag && EndsHere(s, isSpace) then ([c] + MarkTag(n), n + 1, insideTag)
    else ([c], n, insideTag)
  }

  lemma InsertEnd(marked: string, buf: string, mode: DataMode, n: nat, insideTag: bool, isSpace: SpaceTest)
    ensures marked + MarkBody(buf[|buf|..], mode, n, insideTag, isSpace) == marked
  {}

  /** The character that read_utf8_char copies from a valid text. */
  lemma ReadChar(buf: string, pos: nat)
    requires pos < |buf| && Utf8.Valid(buf[pos..])
    ensures pos + Utf8.Skip(buf[pos]) <= |buf| && Utf8.Valid(buf[pos + Utf8.Skip(buf[pos])..])
    ensures Utf8.ValidChar(buf[pos..])
    ensures 0 <= Utf8.CodePoint(buf[pos..]) < 0x110000
    ensures Utf8.Encode(Utf8.CodePoint(buf[pos..])) == buf[pos..pos + Utf8.Skip(buf[pos])]
    ensures if Utf8.Skip(buf[pos]) == 1 then Utf8.CodePoint(buf[pos..]) == buf[pos] as int < 0x80
            else Utf8.CodePoint(buf[pos..]) >= 0x80 && buf[pos] as int >= 0x80
  {
    var s := buf[pos..];
    var k := Utf8.Skip(s[0]);
    Utf8.EncodeDecode(s);
    assert s[k..] == buf[pos + k..] && s[..k] == buf[pos..pos + k];
  }

  lemma MarkStep(marked: string, buf: string, pos: nat, mode: DataMode, n: nat, insideTag: bool, isSpace: SpaceTest)
    requires pos < |buf| && Utf8.ValidChar(buf[pos..]) && (mode.TextMode? ==> !insideTag)
    ensures pos + Utf8.Skip(buf[pos]) <= |buf|
    ensures var (out, n', tag) := StepAt(buf[pos..], mode, n, insideTag, isSpace);
            marked + MarkBody(buf[pos..], mode, n, insideTag, isSpace) ==
            marked + out + MarkBody(buf[pos + Utf8.Skip(buf[pos])..], mode, n', tag, isSpace)
  {
    var s := buf[pos..];
    var k := Utf8.Skip(s[0]);
    assert s[k..] == buf[pos + k..];
    CharStep(s, mode, n, insideTag, isSpace);
    var (out, n', tag) := StepAt(s, mode, n, insideTag, isSpace);
    hide *;
    Assoc(marked, out, MarkBody(s[k..], mode, n', tag, isSpace));
  }

  lemma CharStep(s: string, mode: DataMode, n: nat, insideTag: bool, isSpace: SpaceTest)
    requires Utf8.ValidChar(s) && (mode.TextMode? ==> !insideTag)
    ensures var (out, n', tag) := StepAt(s, mode, n, insideTag, isSpace);
            MarkBody(s, mode, n, insideTag, isSpace) == out + MarkBody(s[Utf8.Skip(s[0])..], mode, n', tag, isSpace)
  {
    var k := Utf8.Skip(s[0]);
    if k > 1 {
      Utf8.LongCharIsNotAscii(s);
      assert s == s[..k] + s[k..];
      CopyBytes(s[..k], s[k..], mode, n, insideTag, isSpace);
    } else if !insideTag && EndsHere(s, isSpace) {
      Assoc([s[0]], MarkTag(n), MarkBody(s[1..], mode, n + 1, insideTag, isSpace));
    }
  }

  /** Bytes outside ASCII are copied and get no mark. */
  lemma {:induction false} CopyBytes(p: string, s: string, mode: DataMode, n: nat, insideTag: bool, isSpace: SpaceTest)
    requires forall i | 0 <= i < |p| :: 0x80 <= p[i] as int
    ensures MarkBody(p + s, mode, n, insideTag, isSpace) == p + MarkBody(s, mode, n, insideTag, isSpace)
  {
    if p == "" {
      assert p + s == s;
    } else {
      assert (p + s)[0] == p[0] && (p + s)[1..] == p[1..] + s;
      CopyBytes(p[1..], s, mode, n, insideTag, isSpace);
      Assoc([p[0]], p[1..], MarkBody(s, mode, n, insideTag, isSpace));
      assert [p[0]] + p[1..] == p;
    }
  }

  // ---- find_index_mark and strip_index_marks

  /** find_index_mark: the text after the mark. */
  function FindIndexMark(buf: string, mark: nat): Option<string>
  {
    AfterFirst(buf, MarkTag(mark))
  }

  /** What follows the first '>' of s. */
  function AfterGt(s: string): (t: string)
    ensures |t| <= |s|
  {
    if s == "" then "" else if s[0] == '>' then s[1..] else AfterGt(s[1..])
  }

  /** A mark, of whatever number, starts here. */
  predicate HeadHere(s: string) { MARK_HEAD <= s }

  function StripMarks(s: string): string
    decreases |s|
  {
    match Find(s, MARK_HEAD)
    case None => s
    case Some(k) => s[..k] + StripMarks(AfterGt(s[k + 1..]))
  }

  /** TEXT mode ends the text at the closing speak tag. */
  function CutAtClosing(s: string): string
  {
    match Find(s, "</speak>")
    case None => s
    case Some(k) => s[..k]
  }

  function Stripped(buf: string, mode: DataMode): string
  {
    if mode.SsmlMode? then "<speak>" + StripMarks(buf) else CutAtClosing(StripMarks(buf))
  }

  method StripIndexMarks(buf: string, mode: DataMode) returns (str: string)
    ensures str == Stripped(buf, mode)
  {
    hide StripMarks, AfterGt, Find;
    str := if mode.SsmlMode? then "<speak>" else "";
    ghost var start := str;
    var pos := 0;
    assert buf[0..] == buf;
    while pos < |buf|
      invariant 0 <= pos <= |buf|
      invariant start + StripMarks(buf) == str + StripMarks(buf[pos..])
      decreases |buf| - pos
    {
      var head := Find(buf[pos..], MARK_HEAD);
      StripToHead(str, buf, pos);
      if head.None? {
        str := str + buf[pos..];
        pos := |buf|;
      } else {
        str := str + buf[pos..pos + head.value];
        pos := AfterTag(buf, pos + head.value + 1);
      }
    }
    StripEnd(str, buf);
    assert mode.TextMode? ==> str == StripMarks(buf);
    if mode.TextMode? {
      str := CutAtClosing(str);
    }
  }

  /** The inner loop: past the next '>', or to the end. */
  method AfterTag(buf: string, from: nat) returns (p: nat)
    requires from <= |buf|
    ensures from <= p <= |buf| && buf[p..] == AfterGt(buf[from..])
  {
    p := from;
    while p < |buf| && buf[p] != '>'
      invariant from <= p <= |buf| && AfterGt(buf[p..]) == AfterGt(buf[from..])
    {
      assert buf[p..][1..] == buf[p + 1..];
      p := p + 1;
    }
    if p < |buf| {
      assert buf[p..][1..] == buf[p + 1..];
      p := p + 1;
    }
  }

  lemma StripEnd(str: string, buf: string)
    ensures str + StripMarks(buf[|buf|..]) == str
    ensures "" + StripMarks(buf) == StripMarks(buf)
  {
    hide AfterGt;
  }

  lemma StripToHead(str: string, buf: string, pos: nat)
    requires pos < |buf|
    ensures match Find(buf[pos..], MARK_HEAD)
            case None => str + StripMarks(buf[pos..]) == str + buf[pos..] + StripMarks(buf[|buf|..])
            case Some(k) =>
              pos + k < |buf| &&
              str + StripMarks(buf[pos..]) == str + buf[pos..pos + k] + StripMarks(AfterGt(buf[pos + k + 1..]))
  {
    hide *;
    var s := buf[pos..];
    var f := Find(s, MARK_HEAD);
    StripUnfold(s);
    if f.None? {
      StripEnd(str + s, buf);
    } else {
      var k := f.value;
      assert s[k + 1..] == buf[pos + k + 1..] && s[..k] == buf[pos..pos + k];
      Assoc(str, s[..k], StripMarks(AfterGt(s[k + 1..])));
    }
  }

  /** Stripping, seen one byte at a time. */
  lemma StripStep(s: string)
    requires s != ""
    ensures StripMarks(s) == if HeadHere(s) then StripMarks(AfterGt(s[1..])) else [s[0]] + StripMarks(s[1..])
  {
    hide *;
    var f := Find(s[1..], MARK_HEAD);
    HeadStep(s);
    StripUnfold(s);
    StripUnfold(s[1..]);
    if HeadHere(s) {
      assert s[0 + 1..] == s[1..] && s[..0] + StripMarks(AfterGt(s[1..])) == StripMarks(AfterGt(s[1..]));
    } else if f.None? {
      assert s == [s[0]] + s[1..];
    } else {
      var k := f.value;
      assert s[1..][k + 1..] == s[k + 1 + 1..];
      Assoc([s[0]], s[1..][..k], StripMarks(AfterGt(s[k + 2..])));
      assert s[..k + 1] == [s[0]] + s[1..][..k];
    }
  }

  lemma HeadStep(s: string)
    requires s != ""
    ensures Find(s, MARK_HEAD) == if HeadHere(s) then Some(0)
                                 else match Find(s[1..], MARK_HEAD) case None => None case Some(i) => Some(i + 1)
  {}

  lemma StripUnfold(s: string)
    ensures match Find(s, MARK_HEAD)
            case None => StripMarks(s) == s
            case Some(k) => k < |s| && StripMarks(s) == s[..k] + StripMarks(AfterGt(s[k + 1..]))
  {
    hide AfterGt, Find;
  }

  // ---- resuming: finding and stripping marks in a marked TEXT message

  /** The number of sentence ends with a mark among the first p bytes of s. */
  function EndsBefore(s: string, p: nat, isSpace: SpaceTest): nat
    requires p <= |s|
  {
    if p == 0 then 0 else (if EndsHere(s, isSpace) then 1 else 0) + EndsBefore(s[1..], p - 1, isSpace)
  }

  /** What stands between the angle brackets of mark n. */
  function MarkInner(n: nat): string
  {
    "mark name=\"__spd_" + (Digits(n) + "\"/")
  }

  lemma MarkTagShape(n: nat)
    ensures MarkTag(n) == "<" + (MarkInner(n) + ">")
    ensures Avoids(MarkInner(n), {'<', '>', '&', '\n'})
    ensures HeadHere(MarkTag(n))
  {
    hide Digits, Avoids, HeadHere;
    MarkInnerAvoids(n);
    HeadOfConcat(Digits(n) + MARK_TAIL);
    TagFromInner(Digits(n));
  }

  lemma TagFromInner(d: string)
    ensures MARK_HEAD + (d + MARK_TAIL) == "<" + ("mark name=\"__spd_" + (d + "\"/") + ">")
  {}

  lemma HeadOfConcat(x: string)
    ensures HeadHere(MARK_HEAD + x)
  {}

  lemma MarkInnerAvoids(n: nat)
    ensures Avoids(MarkInner(n), {'<', '>', '&', '\n'})
  {
    hide Digits;
    var bad := {'<', '>', '&', '\n'};
    AvoidsConcat(Digits(n), "\"/", bad);
    AvoidsConcat("mark name=\"__spd_", Digits(n) + "\"/", bad);
  }

  /** A mark is found under no other number. */
  lemma MarkTagUnique(k: nat, n: nat, x: string)
    requires MarkTag(k) <= MarkTag(n) + x
    ensures k == n
  {
    var a, b := Digits(k), Digits(n);
    var y := (MarkTag(n) + x)[|MarkTag(k)|..];
    assert MARK_HEAD + (b + MARK_TAIL) + x == MARK_HEAD + (b + (MARK_TAIL + x));
    assert MarkTag(k) + y == MARK_HEAD + (a + (MARK_TAIL + y));
    assert a + (MARK_TAIL + y) == (MarkTag(n) + x)[|MARK_HEAD|..] == b + (MARK_TAIL + x);
    SplitUnique(a, b, MARK_TAIL + y, MARK_TAIL + x, {'"'});
    DigitsRoundTrip(k);
    DigitsRoundTrip(n);
  }

  /** The search skips text without '<'. */
  lemma {:induction false} SearchSkips(p: string, x: string, k: nat)
    requires Avoids(p, {'<'})
    ensures AfterFirst(p + x, MarkTag(k)) == AfterFirst(x, MarkTag(k))
  {
    if p == "" {
      assert p + x == x;
    } else {
      hide MarkTag, MarkInner, HeadHere;
      assert p[0] in p && (p + x)[0] == p[0] && (p + x)[1..] == p[1..] + x;
      MarkTagShape(k);
      SearchSkips(p[1..], x, k);
    }
  }

  /** The search for mark k at mark n: found, or skipped. */
  lemma SearchAtTag(n: nat, x: string, k: nat)
    ensures AfterFirst(MarkTag(n) + x, MarkTag(k)) == if k == n then Some(x) else AfterFirst(x, MarkTag(k))
  {
    hide MarkTag, MarkInner, AfterFirst, HeadHere;
    if MarkTag(k) <= MarkTag(n) + x {
      MarkTagUnique(k, n, x);
      SearchFound(MarkTag(n), x);
    } else {
      MarkTagShape(n);
      SearchPasses(MarkTag(n) + x, k);
      assert (MarkTag(n) + x)[1..] == MarkInner(n) + ">" + x;
      Assoc(MarkInner(n), ">", x);
      SearchSkips(MarkInner(n), ">" + x, k);
      SearchSkips(">", x, k);
    }
  }

  lemma SearchFound(t: string, x: string)
    ensures AfterFirst(t + x, t) == Some(x)
  {}

  lemma SearchPasses(y: string, k: nat)
    requires y != "" && !(MarkTag(k) <= y)
    ensures AfterFirst(y, MarkTag(k)) == AfterFirst(y[1..], MarkTag(k))
  {
    hide MarkTag;
  }

  lemma EscapeCharPlain(c: char)
    ensures Avoids(EscapeChar(c), {'<', '>'})
  {}

  /** The search passes the first byte of a marked text, and its mark if it has one. */
  lemma SearchStep(s: string, n: nat, tail: string, k: nat, isSpace: SpaceTest)
    requires s != ""
    ensures AfterFirst(MarkText(s, n, isSpace) + tail, MarkTag(k)) ==
            if !EndsHere(s, isSpace) then AfterFirst(MarkText(s[1..], n, isSpace) + tail, MarkTag(k))
            else if k == n then Some(MarkText(s[1..], n + 1, isSpace) + tail)
            else AfterFirst(MarkText(s[1..], n + 1, isSpace) + tail, MarkTag(k))
  {
    var e := EscapeChar(s[0]);
    EscapeCharPlain(s[0]);
    var m := if EndsHere(s, isSpace) then n + 1 else n;
    var rest := MarkText(s[1..], m, isSpace);
    var end := if EndsHere(s, isSpace) then MarkTag(n) + rest else rest;
    assert MarkText(s, n, isSpace) == e + end;
    hide *;
    Assoc(e, end, tail);
    SearchSkips(e, end + tail, k);
    if m != n {
      Assoc(MarkTag(n), rest, tail);
      SearchAtTag(n, rest + tail, k);
    }
  }

  /** In marked text, mark n + j is found right after the j-th marked sentence end. */
  lemma {:induction false} FindInMarked(s: string, n: nat, p: nat, tail: string, isSpace: SpaceTest)
    requires p < |s| && EndsHere(s[p..], isSpace)
    ensures var k := n + EndsBefore(s, p, isSpace);
            AfterFirst(MarkText(s, n, isSpace) + tail, MarkTag(k)) == Some(MarkText(s[p + 1..], k + 1, isSpace) + tail)
  {
    hide MarkText, MarkTag, AfterFirst, EndsHere;
    var k := n + EndsBefore(s, p, isSpace);
    SearchStep(s, n, tail, k, isSpace);
    if p == 0 {
      assert s[0..] == s;
    } else {
      assert s[1..][p - 1..] == s[p..] && s[1..][p..] == s[p + 1..];
      FindInMarked(s[1..], if EndsHere(s, isSpace) then n + 1 else n, p - 1, tail, isSpace);
    }
  }

  /** A number that was never given out is not found. */
  lemma {:induction false} NotInMarked(s: string, n: nat, k: nat, tail: string, isSpace: SpaceTest)
    requires k < n || n + EndsBefore(s, |s|, isSpace) <= k
    ensures AfterFirst(MarkText(s, n, isSpace) + tail, MarkTag(k)) == AfterFirst(tail, MarkTag(k))
  {
    hide MarkTag, AfterFirst, EndsHere;
    if s == "" {
      assert "" + tail == tail;
    } else {
      hide MarkText;
      SearchStep(s, n, tail, k, isSpace);
      NotInMarked(s[1..], if EndsHere(s, isSpace) then n + 1 else n, k, tail, isSpace);
    }
  }

  /** Stripping copies text without '<'. */
  lemma {:induction false} StripCopies(p: string, x: string)
    requires Avoids(p, {'<'})
    ensures StripMarks(p + x) == p + StripMarks(x)
  {
    hide StripMarks, AfterGt;
    if p == "" {
      assert p + x == x && "" + StripMarks(x) == StripMarks(x);
    } else {
      assert p[0] in p && (p + x)[0] == p[0] && (p + x)[1..] == p[1..] + x;
      StripStep(p + x);
      StripCopies(p[1..], x);
      Assoc([p[0]], p[1..], StripMarks(x));
      assert [p[0]] + p[1..] == p;
    }
  }

  lemma {:induction false} AfterGtSkips(p: string, x: string)
    requires Avoids(p, {'>'})
    ensures AfterGt(p + (">" + x)) == x
  {
    if p == "" {
      assert p + (">" + x) == ">" + x;
    } else {
      assert p[0] in p && (p + (">" + x))[0] == p[0] && (p + (">" + x))[1..] == p[1..] + (">" + x);
      AfterGtSkips(p[1..], x);
    }
  }

  /** Stripping removes a mark. */
  lemma StripTag(n: nat, x: string)
    ensures StripMarks(MarkTag(n) + x) == StripMarks(x)
  {
    hide StripMarks, AfterGt, MarkTag, MarkInner;
    MarkTagShape(n);
    var t := MarkTag(n) + x;
    StripStep(t);
    assert t[1..] == MarkInner(n) + (">" + x);
    AfterGtSkips(MarkInner(n), x);
    assert MarkTag(n)[..|MARK_HEAD|] == t[..|MARK_HEAD|];
  }

  /** Stripping the marks of a marked text leaves the escaped text. */
  lemma {:induction false} StripMarkedText(s: string, n: nat, tail: string, isSpace: SpaceTest)
    ensures StripMarks(MarkText(s, n, isSpace) + tail) == EscapeText(s) + StripMarks(tail)
  {
    hide StripMarks, MarkTag, EndsHere;
    if s == "" {
      assert "" + tail == tail && "" + StripMarks(tail) == StripMarks(tail);
    } else {
      StripOne(s, n, tail, isSpace);
      StripMarkedText(s[1..], if EndsHere(s, isSpace) then n + 1 else n, tail, isSpace);
      Assoc(EscapeChar(s[0]), EscapeText(s[1..]), StripMarks(tail));
    }
  }

  lemma StripOne(s: string, n: nat, tail: string, isSpace: SpaceTest)
    requires s != ""
    ensures StripMarks(MarkText(s, n, isSpace) + tail) ==
            EscapeChar(s[0]) + StripMarks(MarkText(s[1..], if EndsHere(s, isSpace) then n + 1 else n, isSpace) + tail)
  {
    hide StripMarks, MarkTag, EndsHere;
    var e := EscapeChar(s[0]);
    EscapeCharPlain(s[0]);
    var rest := MarkText(s[1..], if EndsHere(s, isSpace) then n + 1 else n, isSpace);
    var end := if EndsHere(s, isSpace) then MarkTag(n) + rest else rest;
    Assoc(e, end, tail);
    StripCopies(e, end + tail);
    if EndsHere(s, isSpace) {
      Assoc(MarkTag(n), rest, tail);
      StripTag(n, rest + tail);
    }
  }

  lemma {:induction false} EscapeTextPlain(s: string)
    ensures Avoids(EscapeText(s), {'<', '>'})
  {
    if s == "" {
    } else {
      EscapeCharPlain(s[0]);
      EscapeTextPlain(s[1..]);
      AvoidsConcat(EscapeChar(s[0]), EscapeText(s[1..]), {'<', '>'});
    }
  }

  lemma {:induction false} FindSkips(p: string, x: string)
    requires Avoids(p, {'<'}) && "</speak>" <= x
    ensures Find(p + x, "</speak>") == Some(|p|)
  {
    if p == "" {
      assert p + x == x;
    } else {
      assert p[0] in p && (p + x)[0] == p[0] && (p + x)[1..] == p[1..] + x;
      FindSkips(p[1..], x);
    }
  }

  lemma ClosingTagStays()
    ensures StripMarks("</speak>") == "</speak>"
  {
    hide StripMarks, AfterGt;
    StripStep("</speak>");
    StripCopies("/speak>", "");
    StripUnfold("");
    assert "</speak>"[1..] == "/speak>" + "" && "/speak>" + "" == "/speak>"
           && ["</speak>"[0]] + "/speak>" == "</speak>";
  }

  /** Where a message is resumed.  For every sentence end at p that got a mark, its
      mark is found by the number of marked sentence ends before p, and what is
      stripped from there is the escaped form of exactly the text after p. */
  lemma ResumePoint(s: string, p: nat, isSpace: SpaceTest)
    requires p < |s| && EndsHere(s[p..], isSpace)
    ensures var after := FindIndexMark(InsertMarks(s, TextMode, isSpace), EndsBefore(s, p, isSpace));
            after.Some? && Stripped(after.value, TextMode) == EscapeText(s[p + 1..])
  {
    hide StripMarks, MarkText, MarkTag, AfterFirst, EndsHere, EscapeText, EndsBefore, Find;
    var k := EndsBefore(s, p, isSpace);
    var body, close := MarkText(s, 0, isSpace), "</speak>";
    SpeakTagPassed(body + close, k);
    Assoc("<speak>", body, close);
    FindInMarked(s, 0, p, close, isSpace);
    var u := s[p + 1..];
    StripMarkedText(u, k + 1, close, isSpace);
    ClosingTagStays();
    EscapeTextPlain(u);
    FindSkips(EscapeText(u), close);
    assert (EscapeText(u) + close)[..|EscapeText(u)|] == EscapeText(u);
  }

  /** The numbers given out are exactly 0, 1, ... up to the number of marked ends. */
  lemma NoFurtherMarks(s: string, k: nat, isSpace: SpaceTest)
    requires EndsBefore(s, |s|, isSpace) <= k
    ensures FindIndexMark(InsertMarks(s, TextMode, isSpace), k) == None
  {
    hide MarkText, MarkTag, AfterFirst, EndsBefore;
    var body, close := MarkText(s, 0, isSpace), "</speak>";
    SpeakTagPassed(body + close, k);
    Assoc("<speak>", body, close);
    NotInMarked(s, 0, k, close, isSpace);
    ClosingTagPassed(k);
  }

  /** The search passes the opening speak tag. */
  lemma SpeakTagPassed(x: string, k: nat)
    ensures AfterFirst("<speak>" + x, MarkTag(k)) == AfterFirst(x, MarkTag(k))
  {
    hide AfterFirst, MarkTag, MarkInner;
    var y := "<speak>" + x;
    MarkTagShape(k);
    assert MarkTag(k)[1] == MARK_HEAD[1] && y[1] == 's';
    SearchPasses(y, k);
    assert y[1..] == "speak>" + x;
    SearchSkips("speak>", x, k);
  }

  lemma ClosingTagPassed(k: nat)
    ensures AfterFirst("</speak>", MarkTag(k)) == None
  {
    hide AfterFirst, MarkTag, MarkInner;
    var y := "</speak>";
    MarkTagShape(k);
    assert MarkTag(k)[1] == MARK_HEAD[1] && y[1] == '/';
    SearchPasses(y, k);
    assert y[1..] == "/speak>" + "";
    SearchSkips("/speak>", "", k);
    EmptySearch(k);
  }

  lemma EmptySearch(k: nat)
    ensures AfterFirst("", MarkTag(k)) == None
  {}
}
