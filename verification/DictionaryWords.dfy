/** Patterns of the dumbtts dictionary and the words they match (dic_compare_word in
    src/libs/dumbtts/libdumbtts_dic.c).

    Texts are sequences of wide characters, as get_unichar reads them one by one. */
module DictionaryWords {
  import opened CStrings

  type Text = seq<int>

  /** The classification of characters in src/libs/dumbtts/fctype.c. */
  datatype Ctype = Ctype(isAlnum: int -> bool, isLower: int -> bool, isSpace: int -> bool, toLower: int -> int)

  predicate Special(c: int) { c in {'_' as int, '+' as int, '[' as int, '`' as int, '(' as int} }

  /** The facts about the classification that the index relies on: lower case letters are
      left alone, only letters and digits become such, and the characters with a meaning
      in patterns are neither. */
  ghost predicate Sane(ct: Ctype)
  {
    (forall c | ct.isLower(c) :: ct.toLower(c) == c)
    && (forall c | ct.isAlnum(ct.toLower(c)) :: ct.isAlnum(c))
    && (forall c | Special(c) :: !ct.isAlnum(c))
    && ct.toLower(0) == 0
  }

  /** A character of the pattern matches one of the text: lower case letters match either
      case.  At the end of the text 0 is read. */
  predicate Same(pc: int, sc: int, ct: Ctype)
  {
    (if ct.isLower(pc) then ct.toLower(sc) else sc) == pc
  }

  function SkipSpaces(s: Text, ct: Ctype): (r: Text)
    ensures |r| <= |s|
  {
    if s != [] && ct.isSpace(s[0]) then SkipSpaces(s[1..], ct) else s
  }

  /** strchr(s, c) + 1. */
  function Behind(s: Text, c: int): (r: Option<Text>)
    ensures r.Some? ==> |r.value| < |s|
  {
    if s == [] then None else if s[0] == c then Some(s[1..]) else Behind(s[1..], c)
  }

  /** A character class after its bracket: the pattern after the class, if it has sc. */
  function InClass(pat: Text, sc: int, ct: Ctype): (r: Option<Text>)
    ensures r.Some? ==> |r.value| < |pat|
  {
    if pat == [] || pat[0] == ']' as int then None
    else if Same(pat[0], sc, ct) then Behind(pat[1..], ']' as int)
    else InClass(pat[1..], sc, ct)
  }

  /** What the walk over one alternative comes to. */
  datatype Walk =
    | Found(pat: Text, str: Text)   // what is behind the alternative, in pattern and text
    | Mismatch(pat: Text)           // what is behind the character that differs
    | Broken                        // the pattern ended

  function Alternative(pat: Text, str: Text, ct: Ctype): (r: Walk)
    ensures r.Found? ==> |r.pat| < |pat|
    ensures r.Mismatch? ==> |r.pat| < |pat|
  {
    if pat == [] then Broken
    else if pat[0] == ')' as int then Found(pat[1..], str)
    else if pat[0] == '|' as int then
      (match Behind(pat[1..], ')' as int)
       case None => Broken
       case Some(p) => Found(p, str))
    else if str == [] || !Same(pat[0], str[0], ct) then Mismatch(pat[1..])
    else Alternative(pat[1..], str[1..], ct)
  }

  /** The pattern from the next bar or parenthesis on. */
  function ToBar(pat: Text): (r: Text)
    ensures |r| <= |pat|
  {
    if pat == [] || pat[0] == '|' as int || pat[0] == ')' as int then pat else ToBar(pat[1..])
  }

  /** The alternatives of a group: what is behind it in pattern and text. */
  function Group(pat: Text, str: Text, ct: Ctype): (r: Option<(Text, Text)>)
    ensures r.Some? ==> |r.value.0| < |pat|
    decreases |pat|
  {
    match Alternative(pat, str, ct)
    case Broken => None
    case Found(p, s) => Some((p, s))
    case Mismatch(p) =>
      var q := ToBar(p);
      if q == [] || q[0] != '|' as int then None else Group(q[1..], str, ct)
  }

  /** The text behind the match of a pattern whose first n groups were matched. */
  function Match(pat: Text, str: Text, n: nat, ct: Ctype): Option<Text>
    decreases |pat|
  {
    if pat == [] then if str != [] && ct.isAlnum(str[0]) then None else Some(str)
    else
      var pc, p := pat[0], pat[1..];
      if pc == '_' as int then Match(p, SkipSpaces(str, ct), n, ct)
      else if pc == '+' as int then
        if str == [] || !ct.isSpace(str[0]) then None else Match(p, SkipSpaces(str[1..], ct), n, ct)
      else if pc == '[' as int then
        if str == [] then None
        else (match InClass(p, str[0], ct)
              case None => None
              case Some(q) => Match(q, str[1..], n, ct))
      else if pc == '`' as int then
        if str != [] && str[0] == '\'' as int then Match(p, str[1..], n, ct) else Match(p, str, n, ct)
      else if pc == '(' as int then
        if n >= 10 then None
        else (match Group(p, str, ct)
              case None => None
              case Some((q, s)) => Match(q, s, n + 1, ct))
      else
        if str == [] || !Same(pc, str[0], ct) then None else Match(p, str[1..], n, ct)
  }

  /** A pattern of the lists begins with a character that stands for itself. */
  predicate Begins(pat: Text)
  {
    pat != [] && !Special(pat[0])
  }

  /** dic_compare_word: wc was read from the text already. */
  function Compare(pat: Text, wc: int, str: Text, ct: Ctype): Option<Text>
    requires Begins(pat)
  {
    if !Same(pat[0], wc, ct) then None else Match(pat[1..], str, 0, ct)
  }

  // ---- the loops of dic_compare_word

  method PassSpaces(s: Text, ct: Ctype) returns (str: Text)
    ensures str == SkipSpaces(s, ct)
  {
    str := s;
    while str != []
      invariant SkipSpaces(str, ct) == SkipSpaces(s, ct)
      decreases |str|
    {
      if !ct.isSpace(str[0]) {
        break;
      }
      str := str[1..];
    }
  }

  method Strchr(s: Text, c: int) returns (r: Option<Text>)
    ensures r == Behind(s, c)
  {
    var p := s;
    while p != [] && p[0] != c
      invariant Behind(p, c) == Behind(s, c)
      decreases |p|
    {
      p := p[1..];
    }
    r := if p == [] then None else Some(p[1..]);
  }

  method PassClass(class_: Text, sc: int, ct: Ctype) returns (r: Option<Text>)
    ensures r == InClass(class_, sc, ct)
  {
    var pat := class_;
    while pat != []
      invariant InClass(pat, sc, ct) == InClass(class_, sc, ct)
      decreases |pat|
    {
      var pc := pat[0];
      pat := pat[1..];
      if pc == ']' as int {
        return None;
      }
      if Same(pc, sc, ct) {
        r := Strchr(pat, ']' as int);
        return;
      }
    }
    return None;
  }

  method PassGroup(group: Text, str: Text, ct: Ctype) returns (r: Option<(Text, Text)>)
    ensures r == Group(group, str, ct)
  {
    hide Same;
    var pat := group;
    while true
      invariant Group(pat, str, ct) == Group(group, str, ct)
      decreases |pat|
    {
      ghost var from := pat;
      var sstr := str;
      var found, closed := false, false;
      while true
        invariant |pat| <= |from| && Alternative(pat, sstr, ct) == Alternative(from, str, ct)
        invariant !found
        decreases |pat|
      {
        if pat == [] {
          return None;
        }
        var pc := pat[0];
        pat := pat[1..];
        if pc == '|' as int || pc == ')' as int {
          found, closed := true, pc == ')' as int;
          break;
        }
        if sstr == [] || !Same(pc, sstr[0], ct) {
          break;
        }
        sstr := sstr[1..];
      }
      if found {
        if !closed {
          var behind := Strchr(pat, ')' as int);
          if behind.None? {
            return None;
          }
          pat := behind.value;
        }
        return Some((pat, sstr));
      }
      ghost var mismatch := pat;
      while pat != [] && pat[0] != '|' as int && pat[0] != ')' as int
        invariant |pat| <= |mismatch| && ToBar(pat) == ToBar(mismatch)
        decreases |pat|
      {
        pat := pat[1..];
      }
      if pat == [] || pat[0] != '|' as int {
        return None;
      }
      pat := pat[1..];
    }
  }

  /** dic_compare_word; the text of the replacement is not part of this model. */
  method DicCompareWord(abbr: Text, wc: int, text: Text, ct: Ctype) returns (res: Option<Text>)
    requires Begins(abbr)
    ensures res == Compare(abbr, wc, text, ct)
  {
    hide Same, Match, InClass, Group, SkipSpaces;
    var pat, str, nmatch := abbr[1..], text, 0;
    if !Same(abbr[0], wc, ct) {
      return None;
    }
    while true
      invariant Match(pat, str, nmatch, ct) == Match(abbr[1..], text, 0, ct)
      decreases |pat|
    {
      MatchStep(pat, str, nmatch, ct);
      if pat == [] {
        if str == [] {
          break;
        }
        if !ct.isAlnum(str[0]) {
          break;
        }
        return None;
      }
      var pc := pat[0];
      pat := pat[1..];
      if pc == '_' as int {
        str := PassSpaces(str, ct);
        continue;
      }
      if pc == '+' as int {
        if str == [] || !ct.isSpace(str[0]) {
          return None;
        }
        str := PassSpaces(str[1..], ct);
        continue;
      }
      if pc == '[' as int {
        if str == [] {
          return None;
        }
        var behind := PassClass(pat, str[0], ct);
        if behind.None? {
          return None;
        }
        pat, str := behind.value, str[1..];
        continue;
      }
      if pc == '`' as int {
        if str != [] && str[0] == '\'' as int {
          str := str[1..];
        }
        continue;
      }
      if pc != '(' as int {
        if str == [] || !Same(pc, str[0], ct) {
          return None;
        }
        str := str[1..];
        continue;
      }
      if nmatch >= 10 {
        return None;
      }
      var behind := PassGroup(pat, str, ct);
      if behind.None? {
        return None;
      }
      pat, str, nmatch := behind.value.0, behind.value.1, nmatch + 1;
    }
    return Some(str);
  }

  lemma MatchStep(pat: Text, str: Text, n: nat, ct: Ctype)
    ensures Match(pat, str, n, ct) ==
            if pat == [] then if str != [] && ct.isAlnum(str[0]) then None else Some(str)
            else if pat[0] == '_' as int then Match(pat[1..], SkipSpaces(str, ct), n, ct)
            else if pat[0] == '+' as int then
              if str == [] || !ct.isSpace(str[0]) then None else Match(pat[1..], SkipSpaces(str[1..], ct), n, ct)
            else if pat[0] == '[' as int then
              if str == [] || InClass(pat[1..], str[0], ct).None? then None
              else Match(InClass(pat[1..], str[0], ct).value, str[1..], n, ct)
            else if pat[0] == '`' as int then
              Match(pat[1..], if str != [] && str[0] == '\'' as int then str[1..] else str, n, ct)
            else if pat[0] == '(' as int then
              if n >= 10 || Group(pat[1..], str, ct).None? then None
              else Match(Group(pat[1..], str, ct).value.0, Group(pat[1..], str, ct).value.1, n + 1, ct)
            else if str == [] || !Same(pat[0], str[0], ct) then None
            else Match(pat[1..], str[1..], n, ct)
  {
    hide Same, InClass, Group, SkipSpaces;
  }

  // ---- what the parts of a pattern accept

  /** The pattern character accepts the character of the text: it is equal to it or, if it is
      a lower case letter, to its lower case. */
  predicate Accepts(pc: int, sc: int, ct: Ctype)
  {
    (pc == sc && !ct.isLower(pc)) || (ct.isLower(pc) && pc == ct.toLower(sc))
  }

  /** The part up to index k holds none of these characters, and one of them stands at k,
      or k is the end. */
  ghost predicate UpTo(pat: Text, k: nat, stops: set<int>)
  {
    k <= |pat| && (forall j | 0 <= j < k :: pat[j] !in stops) && (k < |pat| ==> pat[k] in stops)
  }

  lemma {:induction false} BehindIs(s: Text, c: int, k: nat)
    requires UpTo(s, k, {c})
    ensures Behind(s, c) == if k < |s| then Some(s[k + 1..]) else None
    decreases k
  {
    if k == 0 {
    } else {
      UpToShift(s, k, {c});
      BehindIs(s[1..], c, k - 1);
    }
  }

  lemma UpToShift(s: Text, k: nat, stops: set<int>)
    requires UpTo(s, k, stops) && k > 0
    ensures UpTo(s[1..], k - 1, stops) && s[0] !in stops
    ensures k < |s| ==> s[1..][k..] == s[k + 1..]
  {}

  /** A class matches if and only if it is closed and one of its characters, those before
      the first closing bracket, accepts the one of the text; the pattern goes on behind
      that bracket. */
  lemma {:induction false} ClassIff(pat: Text, sc: int, ct: Ctype, k: nat)
    requires UpTo(pat, k, {']' as int})
    ensures InClass(pat, sc, ct) ==
            if k < |pat| && exists j :: 0 <= j < k && Accepts(pat[j], sc, ct) then Some(pat[k + 1..]) else None
    decreases k
  {
    hide Accepts, Same;
    if k == 0 {
    } else {
      UpToShift(pat, k, {']' as int});
      ClassIff(pat[1..], sc, ct, k - 1);
      BehindIs(pat[1..], ']' as int, k - 1);
      SameIsAccepts(pat[0], sc, ct);
      AnyShift(pat, sc, ct, k);
    }
  }

  lemma SameIsAccepts(pc: int, sc: int, ct: Ctype)
    ensures Same(pc, sc, ct) <==> Accepts(pc, sc, ct)
  {}

  lemma AnyShift(pat: Text, sc: int, ct: Ctype, k: nat)
    requires 0 < k <= |pat|
    ensures (exists j :: 0 <= j < k && Accepts(pat[j], sc, ct)) <==>
            Accepts(pat[0], sc, ct) || exists j :: 0 <= j < k - 1 && Accepts(pat[1..][j], sc, ct)
  {
    hide Accepts;
    assert forall j | 0 < j < k :: pat[j] == pat[1..][j - 1];
    assert forall j | 0 <= j < k - 1 :: pat[1..][j] == pat[j + 1];
  }

  /** The alternative stands at the head of the text. */
  ghost predicate AtHead(alt: Text, str: Text, ct: Ctype)
  {
    |alt| <= |str| && forall i | 0 <= i < |alt| :: Accepts(alt[i], str[i], ct)
  }

  /** The text of a group behind its parenthesis: the alternatives with bars between. */
  function GroupText(alts: seq<Text>): Text
    requires alts != []
  {
    if |alts| == 1 then alts[0] + [')' as int] else alts[0] + ['|' as int] + GroupText(alts[1..])
  }

  /** No bar or closing parenthesis. */
  ghost predicate Bare(alt: Text)
  {
    forall i | 0 <= i < |alt| :: alt[i] != '|' as int && alt[i] != ')' as int
  }

  ghost predicate Alternatives(alts: seq<Text>)
  {
    alts != [] && forall i | 0 <= i < |alts| :: Bare(alts[i])
  }

  lemma {:induction false} WalkIs(alt: Text, stop: int, rest: Text, str: Text, ct: Ctype)
    requires Bare(alt) && (stop == '|' as int || stop == ')' as int)
    ensures var w := Alternative(alt + [stop] + rest, str, ct);
            if AtHead(alt, str, ct) then w == Alternative([stop] + rest, str[|alt|..], ct)
            else w.Mismatch? && ToBar(w.pat) == [stop] + rest
    decreases alt
  {
    hide Same, Accepts, Behind;
    var pat := alt + [stop] + rest;
    if alt == [] {
      assert pat == [stop] + rest && str[0..] == str;
    } else {
      assert pat[0] == alt[0] && pat[1..] == alt[1..] + [stop] + rest;
      if str == [] || !Same(alt[0], str[0], ct) {
        if str != [] { SameIsAccepts(alt[0], str[0], ct); }
        ToBarIs(alt[1..], stop, rest);
      } else {
        SameIsAccepts(alt[0], str[0], ct);
        WalkIs(alt[1..], stop, rest, str[1..], ct);
        AtHeadStep(alt, str, ct);
      }
    }
  }

  lemma AtHeadStep(alt: Text, str: Text, ct: Ctype)
    requires alt != [] && str != [] && Accepts(alt[0], str[0], ct)
    ensures AtHead(alt, str, ct) <==> AtHead(alt[1..], str[1..], ct)
    ensures AtHead(alt, str, ct) ==> str[1..][|alt| - 1..] == str[|alt|..]
  {
    hide Accepts;
    if AtHead(alt[1..], str[1..], ct) {
      assert forall i | 0 < i < |alt| :: alt[i] == alt[1..][i - 1] && str[i] == str[1..][i - 1];
    }
    if AtHead(alt, str, ct) {
      assert forall i | 0 <= i < |alt| - 1 :: alt[1..][i] == alt[i + 1] && str[1..][i] == str[i + 1];
    }
  }

  lemma {:induction false} ToBarIs(alt: Text, stop: int, rest: Text)
    requires Bare(alt) && (stop == '|' as int || stop == ')' as int)
    ensures ToBar(alt + [stop] + rest) == [stop] + rest
    decreases alt
  {
    var pat := alt + [stop] + rest;
    if alt == [] {
      assert pat == [stop] + rest;
    } else {
      assert pat[0] == alt[0] && pat[1..] == alt[1..] + [stop] + rest;
      ToBarIs(alt[1..], stop, rest);
    }
  }

  /** Behind the closing parenthesis of a group. */
  lemma {:induction false} BehindGroup(alts: seq<Text>, rest: Text)
    requires Alternatives(alts)
    ensures Behind(GroupText(alts) + rest, ')' as int) == Some(rest)
    decreases |alts|
  {
    var pat := GroupText(alts) + rest;
    if |alts| == 1 {
      assert pat == alts[0] + ([')' as int] + rest) && ([')' as int] + rest)[1..] == rest;
      BehindPlain(alts[0], [')' as int] + rest);
    } else {
      var tail := GroupText(alts[1..]) + rest;
      assert pat == alts[0] + (['|' as int] + tail) && (['|' as int] + tail)[1..] == tail;
      BehindPlain(alts[0], ['|' as int] + tail);
      BehindGroup(alts[1..], rest);
    }
  }

  lemma {:induction false} BehindPlain(alt: Text, x: Text)
    requires Bare(alt)
    ensures Behind(alt + x, ')' as int) == Behind(x, ')' as int)
    decreases alt
  {
    if alt == [] {
      assert alt + x == x;
    } else {
      assert (alt + x)[0] == alt[0] && (alt + x)[1..] == alt[1..] + x;
      BehindPlain(alt[1..], x);
    }
  }

  /** The alternative at i is the first of them that stands at the head of the text. */
  ghost predicate FirstAtHead(alts: seq<Text>, i: nat, str: Text, ct: Ctype)
  {
    i < |alts| && AtHead(alts[i], str, ct) && forall j | 0 <= j < i :: !AtHead(alts[j], str, ct)
  }

  /** A group matches if and only if one of its alternatives stands at the head of the text;
      the first such one counts, and the pattern goes on behind the group. */
  lemma {:induction false} GroupIff(alts: seq<Text>, rest: Text, str: Text, ct: Ctype)
    requires Alternatives(alts)
    ensures var g := Group(GroupText(alts) + rest, str, ct);
            if exists i :: FirstAtHead(alts, i, str, ct)
            then exists i: nat :: FirstAtHead(alts, i, str, ct) && i < |alts| && |alts[i]| <= |str|
                                  && g == Some((rest, str[|alts[i]|..]))
            else g == None && forall a | a in alts :: !AtHead(a, str, ct)
    decreases |alts|
  {
    hide AtHead;
    var alt := alts[0];
    AtHeadFits(alt, str, ct);
    if |alts| == 1 {
      assert GroupText(alts) + rest == alt + [')' as int] + rest;
      WalkIs(alt, ')' as int, rest, str, ct);
      WalkCloses(rest, str[if AtHead(alt, str, ct) then |alt| else 0..], ct);
      if AtHead(alt, str, ct) {
        assert FirstAtHead(alts, 0, str, ct);
      }
    } else {
      var tail := GroupText(alts[1..]) + rest;
      assert GroupText(alts) + rest == alt + ['|' as int] + tail;
      WalkIs(alt, '|' as int, tail, str, ct);
      if AtHead(alt, str, ct) {
        assert FirstAtHead(alts, 0, str, ct);
        BehindGroup(alts[1..], rest);
        assert (['|' as int] + tail)[1..] == tail;
      } else {
        assert (['|' as int] + tail)[1..] == tail;
        GroupIff(alts[1..], rest, str, ct);
        FirstShift(alts, str, ct);
      }
    }
  }

  lemma AtHeadFits(alt: Text, str: Text, ct: Ctype)
    ensures AtHead(alt, str, ct) ==> |alt| <= |str|
  {}

  lemma WalkCloses(rest: Text, str: Text, ct: Ctype)
    ensures Alternative([')' as int] + rest, str, ct) == Found(rest, str)
  {
    assert ([')' as int] + rest)[1..] == rest;
  }

  lemma FirstShift(alts: seq<Text>, str: Text, ct: Ctype)
    requires alts != [] && !AtHead(alts[0], str, ct)
    ensures forall i: nat :: FirstAtHead(alts[1..], i, str, ct) <==> FirstAtHead(alts, i + 1, str, ct)
    ensures !FirstAtHead(alts, 0, str, ct)
    ensures forall i: nat | FirstAtHead(alts, i, str, ct) :: i > 0 && FirstAtHead(alts[1..], i - 1, str, ct)
  {
    hide AtHead;
    forall i: nat ensures FirstAtHead(alts[1..], i, str, ct) <==> FirstAtHead(alts, i + 1, str, ct) {
      assert forall j | 0 <= j < |alts| - 1 :: alts[1..][j] == alts[j + 1];
      if FirstAtHead(alts[1..], i, str, ct) {
        assert forall j | 0 < j < i + 1 :: alts[j] == alts[1..][j - 1];
      }
      if FirstAtHead(alts, i + 1, str, ct) {
        assert forall j | 0 <= j < i :: alts[1..][j] == alts[j + 1];
      }
    }
  }

  /** Every group that is closed has such alternatives. */
  lemma {:induction false} GroupSplits(pat: Text) returns (alts: seq<Text>, rest: Text)
    requires ')' as int in pat
    ensures Alternatives(alts) && pat == GroupText(alts) + rest
  {
    if pat[0] == ')' as int {
      alts, rest := [[]], pat[1..];
      assert pat == [] + [')' as int] + rest;
    } else {
      alts, rest := GroupSplits(pat[1..]);
      if pat[0] == '|' as int {
        alts := [[]] + alts;
        assert pat == [] + ['|' as int] + pat[1..];
      } else {
        var first, others := [pat[0]] + alts[0], alts[1..];
        assert pat == [pat[0]] + (GroupText(alts) + rest);
        alts := [first] + others;
        assert alts[1..] == others;
      }
    }
  }

  /** A group that is not closed matches nothing. */
  lemma {:induction false} OpenGroup(pat: Text, str: Text, ct: Ctype)
    requires ')' as int !in pat
    ensures Group(pat, str, ct) == None
    decreases |pat|
  {
    hide Same;
    WalkOpen(pat, str, ct);
    var w := Alternative(pat, str, ct);
    if w.Mismatch? {
      ToBarOpen(w.pat);
      var q := ToBar(w.pat);
      if q != [] {
        OpenGroup(q[1..], str, ct);
      }
    }
  }

  lemma {:induction false} WalkOpen(pat: Text, str: Text, ct: Ctype)
    requires ')' as int !in pat
    ensures var w := Alternative(pat, str, ct);
            w.Broken? || (w.Mismatch? && |w.pat| < |pat| && ')' as int !in w.pat)
    decreases |pat|
  {
    hide Same;
    if pat == [] {
    } else if pat[0] == '|' as int {
      BehindNone(pat[1..], ')' as int);
    } else if str == [] || !Same(pat[0], str[0], ct) {
    } else {
      WalkOpen(pat[1..], str[1..], ct);
    }
  }

  lemma {:induction false} BehindNone(s: Text, c: int)
    requires c !in s
    ensures Behind(s, c) == None
  {
    if s == [] {
    } else {
      BehindNone(s[1..], c);
    }
  }

  lemma {:induction false} ToBarOpen(pat: Text)
    requires ')' as int !in pat
    ensures ')' as int !in ToBar(pat) && |ToBar(pat)| <= |pat|
  {
    if pat == [] || pat[0] == '|' as int {
    } else {
      ToBarOpen(pat[1..]);
    }
  }

  /** White space is skipped up to the first character that is none. */
  lemma {:induction false} SkipSpacesIs(s: Text, ct: Ctype, k: nat)
    requires k <= |s| && (forall j | 0 <= j < k :: ct.isSpace(s[j])) && (k < |s| ==> !ct.isSpace(s[k]))
    ensures SkipSpaces(s, ct) == s[k..]
    decreases k
  {
    if k == 0 {
    } else {
      assert s[1..][k - 1..] == s[k..];
      SkipSpacesIs(s[1..], ct, k - 1);
    }
  }

  // ---- what a match is

  lemma {:induction false} SkipSpacesRest(s: Text, ct: Ctype)
    ensures SkipSpaces(s, ct) == s[|s| - |SkipSpaces(s, ct)|..]
  {
    if s == [] || !ct.isSpace(s[0]) {
    } else {
      SkipSpacesRest(s[1..], ct);
    }
  }

  lemma {:induction false} AlternativeRest(pat: Text, str: Text, ct: Ctype)
    ensures var w := Alternative(pat, str, ct);
            w.Found? ==> |w.str| <= |str| && w.str == str[|str| - |w.str|..]
  {
    if pat == [] || pat[0] == ')' as int || pat[0] == '|' as int || str == [] || !Same(pat[0], str[0], ct) {
    } else {
      AlternativeRest(pat[1..], str[1..], ct);
    }
  }

  lemma {:induction false} GroupRest(pat: Text, str: Text, ct: Ctype)
    ensures var g := Group(pat, str, ct);
            g.Some? ==> |g.value.1| <= |str| && g.value.1 == str[|str| - |g.value.1|..]
    decreases |pat|
  {
    AlternativeRest(pat, str, ct);
    var w := Alternative(pat, str, ct);
    if !w.Mismatch? {
    } else {
      var q := ToBar(w.pat);
      if q != [] && q[0] == '|' as int {
        GroupRest(q[1..], str, ct);
      }
    }
  }

  /** A match ends inside the text where a word ends. */
  lemma {:induction false} MatchEndsWord(pat: Text, str: Text, n: nat, ct: Ctype)
    requires Match(pat, str, n, ct).Some?
    ensures var rest := Match(pat, str, n, ct).value;
            |rest| <= |str| && rest == str[|str| - |rest|..] && (rest == [] || !ct.isAlnum(rest[0]))
    decreases |pat|
  {
    hide Match, InClass, Group, SkipSpaces, Same;
    MatchStep(pat, str, n, ct);
    if pat == [] {
    } else {
      var pc, p := pat[0], pat[1..];
      if pc == '_' as int {
        SkipSpacesRest(str, ct);
        MatchEndsWord(p, SkipSpaces(str, ct), n, ct);
      } else if pc == '+' as int {
        SkipSpacesRest(str[1..], ct);
        MatchEndsWord(p, SkipSpaces(str[1..], ct), n, ct);
      } else if pc == '[' as int {
        MatchEndsWord(InClass(p, str[0], ct).value, str[1..], n, ct);
      } else if pc == '`' as int {
        MatchEndsWord(p, if str != [] && str[0] == '\'' as int then str[1..] else str, n, ct);
      } else if pc == '(' as int {
        GroupRest(p, str, ct);
        MatchEndsWord(Group(p, str, ct).value.0, Group(p, str, ct).value.1, n + 1, ct);
      } else {
        MatchEndsWord(p, str[1..], n, ct);
      }
    }
  }

  /** A pattern without special characters matches exactly the words that begin with it, in
      either case for its lower case letters, and end there. */
  lemma {:induction false} LiteralMatch(pat: Text, str: Text, n: nat, ct: Ctype)
    requires forall c | c in pat :: !Special(c)
    ensures Match(pat, str, n, ct) ==
            if AtHead(pat, str, ct) && (|pat| == |str| || !ct.isAlnum(str[|pat|]))
            then Some(str[|pat|..]) else None
  {
    hide Match, InClass, Group, SkipSpaces, Same, Accepts;
    MatchStep(pat, str, n, ct);
    if pat == [] {
    } else if str == [] {
      assert pat[0] in pat;
    } else {
      assert pat[0] in pat && forall c | c in pat[1..] :: c in pat;
      LiteralMatch(pat[1..], str[1..], n, ct);
      SameIsAccepts(pat[0], str[0], ct);
      AllAccepted(pat, str, ct);
    }
  }

  /** So does a whole pattern, whose first character is compared with the one read before. */
  lemma CompareLiteral(pat: Text, wc: int, str: Text, ct: Ctype)
    requires pat != [] && forall c | c in pat :: !Special(c)
    ensures Begins(pat)
            && Compare(pat, wc, str, ct) ==
               if AtHead(pat, [wc] + str, ct) && (|pat| == |str| + 1 || !ct.isAlnum(str[|pat| - 1]))
               then Some(str[|pat| - 1..]) else None
  {
    hide Match, Same, Accepts;
    assert pat[0] in pat && forall c | c in pat[1..] :: c in pat;
    var text := [wc] + str;
    assert text[1..] == str && text[0] == wc;
    SameIsAccepts(pat[0], wc, ct);
    LiteralMatch(pat[1..], str, 0, ct);
    AllAccepted(pat, text, ct);
  }

  lemma AllAccepted(pat: Text, str: Text, ct: Ctype)
    requires pat != [] && str != []
    ensures AtHead(pat, str, ct) <==> Accepts(pat[0], str[0], ct) && AtHead(pat[1..], str[1..], ct)
    ensures |pat| <= |str| ==> str[1..][|pat| - 1..] == str[|pat|..]
  {
    hide Accepts;
    if Accepts(pat[0], str[0], ct) {
      AtHeadStep(pat, str, ct);
    }
  }

  // ---- the way of a word through the index

  /** The place of a character among the 32 children of a node. */
  function Slot(c: int, ct: Ctype): (n: nat)
    ensures n < 32
  {
    ct.toLower(c) % 32
  }

  /** The slots of the letters and digits at the head of a text. */
  function Path(s: Text, ct: Ctype): seq<nat>
  {
    if s == [] || !ct.isAlnum(s[0]) then [] else [Slot(s[0], ct)] + Path(s[1..], ct)
  }

  /** A match agrees with the text in the letters and digits at the head of the pattern. */
  lemma {:induction false} MatchedPath(pat: Text, str: Text, n: nat, ct: Ctype)
    requires Sane(ct) && Match(pat, str, n, ct).Some?
    ensures Path(pat, ct) <= Path(str, ct)
  {
    hide Match, InClass, Group, SkipSpaces;
    MatchStep(pat, str, n, ct);
    if pat == [] || !ct.isAlnum(pat[0]) {
    } else {
      assert !Special(pat[0]);
      SameSlot(pat[0], str[0], ct);
      MatchedPath(pat[1..], str[1..], n, ct);
    }
  }

  lemma SameSlot(pc: int, sc: int, ct: Ctype)
    requires Sane(ct) && ct.isAlnum(pc) && Same(pc, sc, ct)
    ensures Slot(pc, ct) == Slot(sc, ct) && ct.isAlnum(sc)
  {
    assert ct.isLower(pc) ==> ct.toLower(pc) == pc && ct.isAlnum(ct.toLower(sc));
  }

  /** So the path of the pattern is a prefix of the path of the text. */
  lemma ComparedPath(pat: Text, wc: int, str: Text, ct: Ctype)
    requires Sane(ct) && Begins(pat) && ct.isAlnum(pat[0]) && Compare(pat, wc, str, ct).Some?
    ensures ct.isAlnum(wc) && Path(pat, ct) <= Path([wc] + str, ct)
  {
    hide Match;
    SameSlot(pat[0], wc, ct);
    MatchedPath(pat[1..], str, 0, ct);
    assert ([wc] + str)[1..] == str;
  }
}
