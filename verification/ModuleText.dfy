/** Text handling in output modules (src/modules/module_utils.c): removing markup. */
module ModuleText {
  import opened CStrings

  // ---- module_strip_ssml

  /** Tags are dropped; entities are decoded, inside tags as well. */
  function StripSsml(s: string, omit: bool): string
  {
    if s == "" then ""
    else if s[0] == '<' then StripSsml(s[1..], true)
    else if s[0] == '>' then StripSsml(s[1..], false)
    else if "&lt;" <= s then "<" + StripSsml(s[4..], omit)
    else if "&gt;" <= s then ">" + StripSsml(s[4..], omit)
    else if "&amp;" <= s then "&" + StripSsml(s[5..], omit)
    else if omit then StripSsml(s[1..], omit)
    else [s[0]] + StripSsml(s[1..], omit)
  }

  /** strncmp(&message[i], p, strlen(p)) == 0. */
  predicate Matches(message: string, i: nat, p: string)
    requires i <= |message|
    ensures Matches(message, i, p) <==> p <= message[i..]
  {
    i + |p| <= |message| && message[i..i + |p|] == p
  }

  /** module_strip_ssml; out fits the strlen(message) + 1 bytes allocated for it. */
  method ModuleStripSsml(message: string) returns (out: string)
    ensures out == StripSsml(message, false)
    ensures |out| <= |message|
  {
    hide StripSsml, Matches;
    out := "";
    var omit, i := false, 0;
    StripEnds(message, false);
    while i < |message|
      invariant 0 <= i <= |message| && |out| <= i
      invariant StripSsml(message, false) == out + StripSsml(message[i..], omit)
    {
      StripTurn(out, message, i, omit);
      var piece := "";
      ghost var from, was := i, omit;
      if message[i] == '<' {
        omit := true;
      } else if message[i] == '>' {
        omit := false;
      } else if Matches(message, i, "&lt;") {
        i := i + 3;
        piece := "<";
      } else if Matches(message, i, "&gt;") {
        i := i + 3;
        piece := ">";
      } else if Matches(message, i, "&amp;") {
        i := i + 4;
        piece := "&";
      } else if !omit {
        piece := [message[i]];
      }
      i := i + 1;
      assert Turn(message[from..], was) == (piece, omit, i - from);
      out := out + piece;
    }
    StripEnds(message, omit);
  }

  lemma StripEnds(message: string, omit: bool)
    ensures message[0..] == message && "" + StripSsml(message, omit) == StripSsml(message, omit)
    ensures StripSsml(message[|message|..], omit) == ""
  {}

  /** One turn of the loop at the head of s: the output, the new omit flag and the
      number of bytes passed. */
  ghost function Turn(s: string, omit: bool): (string, bool, nat)
    requires s != ""
  {
    if s[0] == '<' then ("", true, 1)
    else if s[0] == '>' then ("", false, 1)
    else if "&lt;" <= s then ("<", omit, 4)
    else if "&gt;" <= s then (">", omit, 4)
    else if "&amp;" <= s then ("&", omit, 5)
    else if omit then ("", omit, 1)
    else ([s[0]], omit, 1)
  }

  lemma StripTurn(out: string, message: string, i: nat, omit: bool)
    requires i < |message|
    ensures var (o, omit', k) := Turn(message[i..], omit);
            i + k <= |message|
            && out + StripSsml(message[i..], omit) == out + o + StripSsml(message[i + k..], omit')
  {
    var s := message[i..];
    var (o, omit', k) := Turn(s, omit);
    assert s[k..] == message[i + k..];
    TurnUnfolds(s, omit);
    hide *;
    Assoc(out, o, StripSsml(s[k..], omit'));
  }

  lemma TurnUnfolds(s: string, omit: bool)
    requires s != ""
    ensures var (o, omit', k) := Turn(s, omit);
            k <= |s| && StripSsml(s, omit) == o + StripSsml(s[k..], omit')
  {}

  /** Text without markup characters is copied. */
  lemma {:induction false} StripCopies(p: string, x: string)
    requires Avoids(p, {'<', '>', '&'})
    ensures StripSsml(p + x, false) == p + StripSsml(x, false)
  {
    hide StripSsml;
    if p == "" {
      assert p + x == x && "" + StripSsml(x, false) == StripSsml(x, false);
    } else {
      var s := p + x;
      assert p[0] in p && s[0] == p[0] && s[1..] == p[1..] + x;
      TurnUnfolds(s, false);
      StripCopies(p[1..], x);
      Assoc([p[0]], p[1..], StripSsml(x, false));
      assert p == [p[0]] + p[1..];
    }
  }

  /** A tag without entities is dropped. */
  lemma {:induction false} StripDropsTag(inner: string, x: string)
    requires Avoids(inner, {'<', '>', '&'})
    ensures StripSsml(inner + (">" + x), true) == StripSsml(x, false)
  {
    var s := inner + (">" + x);
    if inner == "" {
      assert s == ">" + x && s[1..] == x;
    } else {
      assert inner[0] in inner && s[0] == inner[0] && s[1..] == inner[1..] + (">" + x);
      StripDropsTag(inner[1..], x);
    }
  }

  /** Which characters and entities are heard, inside tags (omit) and outside. */
  lemma StripIs(c: char, x: string, omit: bool)
    ensures StripSsml("&lt;" + x, omit) == "<" + StripSsml(x, omit)
    ensures StripSsml("&gt;" + x, omit) == ">" + StripSsml(x, omit)
    ensures StripSsml("&amp;" + x, omit) == "&" + StripSsml(x, omit)
    ensures StripSsml("<" + x, omit) == StripSsml(x, true) && StripSsml(">" + x, omit) == StripSsml(x, false)
    ensures var s := [c] + x;
            c != '<' && c != '>' && !("&lt;" <= s) && !("&gt;" <= s) && !("&amp;" <= s) ==>
              StripSsml(s, omit) == if omit then StripSsml(x, true) else [c] + StripSsml(x, false)
    ensures StripSsml("", omit) == ""
  {
    hide StripSsml;
    TurnUnfolds("&lt;" + x, omit);
    TurnUnfolds("&gt;" + x, omit);
    TurnUnfolds("&amp;" + x, omit);
    TurnUnfolds("<" + x, omit);
    TurnUnfolds(">" + x, omit);
    TurnUnfolds([c] + x, omit);
    StripEnds("", omit);
    assert ("&lt;" + x)[4..] == x && ("&gt;" + x)[4..] == x && ("&amp;" + x)[5..] == x;
    assert ("<" + x)[1..] == x && (">" + x)[1..] == x && ([c] + x)[1..] == x && ""[0..] == "";
    assert ("&gt;" + x)[1] == 'g' && ("&amp;" + x)[1] == 'a';
    assert [] + StripSsml(x, true) == StripSsml(x, true) && [] + StripSsml(x, false) == StripSsml(x, false);
  }

  lemma StripTag(inner: string, x: string)
    requires Avoids(inner, {'<', '>', '&'})
    ensures StripSsml("<" + (inner + ">") + x, false) == StripSsml(x, false)
  {
    var s := "<" + (inner + ">") + x;
    assert s[1..] == inner + (">" + x);
    StripDropsTag(inner, x);
  }
}
