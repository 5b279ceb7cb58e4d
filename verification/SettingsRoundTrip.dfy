/** The settings that a module reads are the ones that the server sent. */
module SettingsRoundTrip {
  import opened CStrings
  import opened Settings
  import OutputFraming

  // ---- reading one line

  lemma {:induction false} TokenAt(k: string, c: char, x: string)
    requires c !in k
    ensures UpTo(k + ([c] + x), c) == k && After(k + ([c] + x), c) == x
  {
    var s := k + ([c] + x);
    if k == "" {
      assert s == [c] + x && s[1..] == x;
    } else {
      assert s[0] == k[0] && s[1..] == k[1..] + ([c] + x);
      TokenAt(k[1..], c, x);
    }
  }

  lemma StrtokAt(k: string, c: char, x: string)
    requires c !in k && k != ""
    ensures Strtok(k + ([c] + x), c) == Some((k, x))
  {
    TokenAt(k, c, x);
    assert k[0] in k && (k + ([c] + x))[0] == k[0];
  }

  lemma StrtokNone()
    ensures Strtok("\n", '\n') == None
  {
    assert "\n"[1..] == "";
  }

  /** The names of the items are different and hold no delimiter. */
  lemma ItemIsNamed(i: Item)
    ensures Named(ItemName(i)) == Some(i)
    ensures ItemName(i) != "" && ItemName(i)[0] != '.' && '=' !in ItemName(i) && '\n' !in ItemName(i)
  {
    var n := ItemName(i);
    assert n != "" && |n| == match i
                              case Pitch => 5 case Rate => 4 case Volume => 6 case Punctuation => 16 case Spelling => 13
                              case CapLetRecogn => 14 case Voice => 5 case Language => 8 case SynthesisVoice => 15;
    assert n[0] == match i
                   case Pitch => 'p' case Rate => 'r' case Volume => 'v' case Punctuation => 'p' case Spelling => 's'
                   case CapLetRecogn => 'c' case Voice => 'v' case Language => 'l' case SynthesisVoice => 's';
  }

  /** A line that the server prints, read by the module. */
  lemma SetPrinted(s: MsgSettings, i: Item, v: string)
    requires '\n' !in v
    ensures SetLine(s, Line(i, v)) == if v == "" then (s, SETTINGS_BAD_SYNTAX) else Store(s, i, v)
  {
    hide Strtok, Store, Named, ItemName;
    ItemIsNamed(i);
    var k := ItemName(i);
    assert Line(i, v) == k + (['='] + (v + "\n"));
    StrtokAt(k, '=', v + "\n");
    if v == "" {
      assert v + "\n" == "\n";
      StrtokNone();
    } else {
      assert v + "\n" == v + (['\n'] + "");
      StrtokAt(v, '\n', "");
    }
  }

  /** One step of the reading loop. */
  function Step(s: MsgSettings, err: int, i: Item, v: string): (MsgSettings, int)
  {
    if err != SETTINGS_OK then (s, err)
    else if v == "" then (s, SETTINGS_BAD_SYNTAX)
    else Store(s, i, v)
  }

  lemma ReadPrinted(s: MsgSettings, err: int, i: Item, v: string, x: string)
    requires '\n' !in v
    ensures ReadSettings(Line(i, v) + x, s, err) ==
            var (s', err') := Step(s, err, i, v); ReadSettings(x, s', err')
  {
    hide SetLine, Store, OutputFraming.GetLine, ItemName;
    ItemIsNamed(i);
    var l := ItemName(i) + "=" + v;
    assert Line(i, v) + x == l + ("\n" + x);
    OutputFraming.GetLineCons(l, x);
    SetPrinted(s, i, v);
    assert l[0] == ItemName(i)[0] && (l + "\n")[0] == l[0] && l + "\n" == Line(i, v);
  }

  lemma ReadEnd(s: MsgSettings, err: int, x: string)
    ensures ReadSettings(".\n" + x, s, err) == (s, err, x)
  {
    assert ".\n" + x == "." + ("\n" + x) && "." + "\n" == ".\n";
    OutputFraming.GetLineCons(".", x);
  }

  // ---- reading all of them

  ghost predicate LineFree(s: MsgSettings)
  {
    (s.language.Some? ==> '\n' !in s.language.value) && (s.name.Some? ==> '\n' !in s.name.value)
  }

  /** The module's settings t after the items of s. */
  function Stored(t: MsgSettings, err: int, s: MsgSettings, items: seq<Item>): (MsgSettings, int)
    decreases items
  {
    if items == [] then (t, err)
    else var (t', err') := Step(t, err, items[0], Printed(s, items[0])); Stored(t', err', s, items[1..])
  }

  lemma PrintedLineFree(s: MsgSettings, i: Item)
    requires LineFree(s)
    ensures '\n' !in Printed(s, i)
  {
    hide PrintInt;
    PrintIntNonEmpty(s.pitch);
    PrintIntNonEmpty(s.rate);
    PrintIntNonEmpty(s.volume);
  }

  lemma {:induction false} ReadSent(t: MsgSettings, err: int, s: MsgSettings, items: seq<Item>, x: string)
    requires LineFree(s)
    ensures ReadSettings(Sent(s, items) + x, t, err) ==
            (Stored(t, err, s, items).0, Stored(t, err, s, items).1, x)
    decreases items
  {
    hide ReadSettings, Step, Line, Printed, LineFree;
    if items == [] {
      ReadEnd(t, err, x);
    } else {
      var i, rest := items[0], Sent(s, items[1..]);
      PrintedLineFree(s, i);
      Assoc(Line(i, Printed(s, i)), rest, x);
      ReadPrinted(t, err, i, Printed(s, i), rest + x);
      var (t', err') := Step(t, err, i, Printed(s, i));
      ReadSent(t', err', s, items[1..], x);
    }
  }

  // ---- storing what was printed

  ghost predicate IntRange(n: int) { -0x8000_0000 <= n < 0x8000_0000 }

  lemma NumberRoundTrip(n: int)
    requires IntRange(n)
    ensures PrintInt(n) != "" && Number(PrintInt(n)) == if -100 <= n <= 100 then Some(n) else None
  {
    hide PrintInt, Strtol;
    PrintIntNonEmpty(n);
    PrintReadRoundTrip(n);
  }

  /** The value of item i in s can be carried: it is in range, of a known mode or voice,
      or a name that neither ends its line nor reads as an empty one. */
  ghost predicate Carried(s: MsgSettings, i: Item)
  {
    match i
    case Pitch => -100 <= s.pitch <= 100
    case Rate => -100 <= s.rate <= 100
    case Volume => -100 <= s.volume <= 100
    case Punctuation => 0 <= s.punctuation <= 2
    case Spelling => 0 <= s.spelling <= 1
    case CapLetRecogn => 0 <= s.capLetRecogn <= 2
    case Voice => 0 <= s.voiceType <= 8
    case Language => Nameable(s.language)
    case SynthesisVoice => Nameable(s.name)
  }

  ghost predicate Nameable(name: Option<string>)
  {
    name.Some? ==> name.value != "" && name.value != "NULL" && '\n' !in name.value
  }

  /** t with item i as in s. */
  function With(t: MsgSettings, s: MsgSettings, i: Item): MsgSettings
  {
    match i
    case Pitch => t.(pitch := s.pitch)
    case Rate => t.(rate := s.rate)
    case Volume => t.(volume := s.volume)
    case Punctuation => t.(punctuation := s.punctuation)
    case Spelling => t.(spelling := s.spelling)
    case CapLetRecogn => t.(capLetRecogn := s.capLetRecogn)
    case Voice => t.(voiceType := s.voiceType)
    case Language => t.(language := s.language)
    case SynthesisVoice => t.(name := s.name)
  }

  ghost predicate Ints(s: MsgSettings)
  {
    IntRange(s.pitch) && IntRange(s.rate) && IntRange(s.volume)
  }

  /** An item is stored as it was exactly if it can be carried. */
  lemma StoreIff(t: MsgSettings, s: MsgSettings, i: Item)
    requires Ints(s) && LineFree(s)
    ensures Carried(s, i) ==> Step(t, SETTINGS_OK, i, Printed(s, i)) == (With(t, s, i), SETTINGS_OK)
    ensures !Carried(s, i) ==>
              var (t', err') := Step(t, SETTINGS_OK, i, Printed(s, i));
              err' != SETTINGS_OK || With(t', s, i) != t'
  {
    hide PrintInt, Strtol, Number;
    match i {
      case Pitch => NumberRoundTrip(s.pitch);
      case Rate => NumberRoundTrip(s.rate);
      case Volume => NumberRoundTrip(s.volume);
      case Punctuation => PunctRoundTrip(s.punctuation);
      case Spelling => SpellRoundTrip(s.spelling);
      case CapLetRecogn => RecognRoundTrip(s.capLetRecogn);
      case Voice => VoiceRoundTrip(s.voiceType);
      case Language =>
      case SynthesisVoice =>
    }
  }

  lemma PunctRoundTrip(n: int)
    ensures Punct2Str(n) != "" && Str2Punct(Punct2Str(n)) == if 0 <= n <= 2 then Some(n) else None
  {}

  lemma SpellRoundTrip(n: int)
    ensures Spell2Str(n) != "" && Str2Spell(Spell2Str(n)) == if 0 <= n <= 1 then Some(n) else None
  {}

  lemma RecognRoundTrip(n: int)
    ensures Recogn2Str(n) != "" && Str2Recogn(Recogn2Str(n)) == if 0 <= n <= 2 then Some(n) else None
  {}

  lemma VoiceRoundTrip(n: int)
    ensures Voice2Str(n) != "" && Str2Voice(Voice2Str(n)) == if 0 <= n <= 8 then n else 0
  {}

  /** Settings that agree in item i. */
  ghost predicate Agree(t: MsgSettings, s: MsgSettings, i: Item)
  {
    With(t, s, i) == t
  }

  /** Storing one item leaves the others alone. */
  lemma StepOther(t: MsgSettings, err: int, s: MsgSettings, j: Item, v: string, i: Item)
    requires i != j
    ensures Agree(Step(t, err, j, v).0, s, i) <==> Agree(t, s, i)
  {
    hide Number, Str2Punct, Str2Spell, Str2Recogn, Str2Voice, Str2Name;
  }

  lemma {:induction false} StoredOther(t: MsgSettings, err: int, s: MsgSettings, items: seq<Item>, i: Item)
    requires i !in items
    ensures Agree(Stored(t, err, s, items).0, s, i) <==> Agree(t, s, i)
    decreases items
  {
    hide Step, Printed, Agree;
    if items == [] {
    } else {
      var v := Printed(s, items[0]);
      StepOther(t, err, s, items[0], v, i);
      StoredOther(Step(t, err, items[0], v).0, Step(t, err, items[0], v).1, s, items[1..], i);
    }
  }

  lemma {:induction false} ErrorStays(t: MsgSettings, err: int, s: MsgSettings, items: seq<Item>)
    requires err != SETTINGS_OK
    ensures Stored(t, err, s, items).1 != SETTINGS_OK
    decreases items
  {
    hide Store, Printed;
    if items == [] {
    } else {
      ErrorStays(t, err, s, items[1..]);
    }
  }

  /** Items are all stored as they were exactly if all can be carried. */
  lemma {:induction false} StoredIff(t: MsgSettings, s: MsgSettings, items: seq<Item>)
    requires Ints(s) && LineFree(s) && forall j, k | 0 <= j < k < |items| :: items[j] != items[k]
    ensures var (t', err') := Stored(t, SETTINGS_OK, s, items);
            err' == SETTINGS_OK && (forall i | i in items :: Agree(t', s, i))
            <==> forall i | i in items :: Carried(s, i)
    decreases items
  {
    hide Step, Printed, Carried, Ints, LineFree, Agree;
    if items == [] {
    } else {
      var i, rest := items[0], items[1..];
      assert items == [i] + rest && i !in rest;
      var (u, err) := Step(t, SETTINGS_OK, i, Printed(s, i));
      StoreAgrees(t, s, i);
      StoredOther(u, err, s, rest, i);
      if err == SETTINGS_OK {
        StoredIff(u, s, rest);
      } else {
        ErrorStays(u, err, s, rest);
      }
      assert forall j :: j in items <==> j == i || j in rest;
    }
  }

  lemma StoreAgrees(t: MsgSettings, s: MsgSettings, i: Item)
    requires Ints(s) && LineFree(s)
    ensures var (t', err') := Step(t, SETTINGS_OK, i, Printed(s, i));
            err' == SETTINGS_OK && Agree(t', s, i) <==> Carried(s, i)
  {
    hide Step, Printed, Carried, Ints, LineFree;
    StoreIff(t, s, i);
  }

  lemma AgreeInAll(t: MsgSettings, s: MsgSettings)
    ensures (forall i | i in ITEMS :: Agree(t, s, i)) <==> t == s
  {
    if forall i | i in ITEMS :: Agree(t, s, i) {
      assert Agree(t, s, ITEMS[0]) && Agree(t, s, ITEMS[1]) && Agree(t, s, ITEMS[2]) && Agree(t, s, ITEMS[3]);
      assert Agree(t, s, ITEMS[4]) && Agree(t, s, ITEMS[5]) && Agree(t, s, ITEMS[6]) && Agree(t, s, ITEMS[7]);
      assert Agree(t, s, ITEMS[8]);
    }
  }

  // ---- names with a line feed

  lemma {:induction false} TokenHasNoEnd(s: string, c: char)
    ensures c !in UpTo(s, c)
  {
    if s == "" {
    } else {
      TokenHasNoEnd(s[1..], c);
    }
  }

  lemma SetLineFree(t: MsgSettings, line: string)
    requires LineFree(t)
    ensures LineFree(SetLine(t, line).0)
  {
    hide SkipAll, UpTo, After, Named, Number, Str2Punct, Str2Spell, Str2Recogn, Str2Voice;
    var item := Strtok(line, '=');
    if item.Some? {
      TokenHasNoEnd(SkipAll(item.value.1, '\n'), '\n');
    }
  }

  /** No module ever has a name with a line feed from its server. */
  lemma {:induction false} ReadLineFree(input: string, t: MsgSettings, err: int)
    requires LineFree(t)
    ensures LineFree(ReadSettings(input, t, err).0)
    decreases |input|
  {
    hide SetLine, LineFree;
    var got := OutputFraming.GetLine(input);
    if got.None? || got.value.0 == ".\n" {
    } else {
      if err != SETTINGS_OK {
        ReadLineFree(got.value.1, t, err);
      } else {
        SetLineFree(t, got.value.0);
        ReadLineFree(got.value.1, SetLine(t, got.value.0).0, SetLine(t, got.value.0).1);
      }
    }
  }

  // ---- the round trip

  ghost predicate AllCarried(s: MsgSettings)
  {
    forall i | i in ITEMS :: Carried(s, i)
  }

  lemma CarriedLineFree(s: MsgSettings)
    requires AllCarried(s)
    ensures LineFree(s)
  {
    assert ITEMS[7] == Language && ITEMS[8] == SynthesisVoice;
    assert Carried(s, ITEMS[7]) && Carried(s, ITEMS[8]);
  }

  /** A module that reads what the server sent answers OK and has the same settings in all
      nine fields exactly if every field can be carried: numbers from -100 to 100, known
      modes, a known voice type or none, and names that are absent, or neither empty, nor
      "NULL", nor with a line feed.  It then has read just what was sent. */
  lemma RoundTrip(s: MsgSettings, t: MsgSettings, x: string)
    requires Ints(s) && LineFree(t)
    ensures var (t', err, rest) := ReadSettings(Sent(s, ITEMS) + x, t, SETTINGS_OK);
            (err == SETTINGS_OK && t' == s <==> AllCarried(s)) && (AllCarried(s) ==> rest == x)
  {
    hide ReadSettings, Sent, Stored, Carried, LineFree, Agree, Ints;
    if LineFree(s) {
      ReadSent(t, SETTINGS_OK, s, ITEMS, x);
      assert forall j, k | 0 <= j < k < |ITEMS| :: ITEMS[j] != ITEMS[k];
      StoredIff(t, s, ITEMS);
      AgreeInAll(Stored(t, SETTINGS_OK, s, ITEMS).0, s);
    } else {
      ReadLineFree(Sent(s, ITEMS) + x, t, SETTINGS_OK);
      if AllCarried(s) {
        CarriedLineFree(s);
      }
    }
  }

  /** The server sends and the module reads. */
  method Exchange(s: MsgSettings, client: Module) returns (err: int)
    requires Ints(s) && LineFree(client.msgSettings)
    modifies client
    ensures err == SETTINGS_OK && client.msgSettings == s <==> AllCarried(s)
  {
    hide *;
    RoundTrip(s, client.msgSettings, "");
    var data := OutputSendSettings(s);
    assert data + "" == data;
    var stdin := new OutputFraming.ModuleInput(data);
    err := client.DoSet(stdin);
  }

  // ---- settings that the server does not send

  /** A number of any size is read: beyond the range of a long as its bound, and then as the
      int of its lowest 32 bits; it is stored if that is from -100 to 100. */
  lemma NumberOfAny(n: int, w: int)
    requires -0x8000_0000 <= w < 0x8000_0000
    requires var long := if n > 0x7fff_ffff_ffff_ffff then 0x7fff_ffff_ffff_ffff
                         else if n < -0x8000_0000_0000_0000 then -0x8000_0000_0000_0000 else n;
             (long - w) % 0x1_0000_0000 == 0
    ensures Number(PrintInt(n)) == if -100 <= w <= 100 then Some(w) else None
  {
    hide PrintInt, Strtol;
    PrintReadRoundTrip(n);
  }

  /** Text without a number is refused. */
  lemma NoNumber(t: MsgSettings, v: string, i: Item)
    requires Strtol(v) == None && (i == Pitch || i == Rate || i == Volume)
    ensures Store(t, i, v) == (t, SETTINGS_BAD_ITEM)
  {}

  /** A refused value changes nothing: of the numbers and of the three modes. */
  lemma Refused(t: MsgSettings, i: Item, v: string)
    requires i != Voice && i != Language && i != SynthesisVoice
    ensures Store(t, i, v).1 == SETTINGS_OK || Store(t, i, v) == (t, SETTINGS_BAD_ITEM)
    ensures i == Punctuation ==> (Store(t, i, v).1 == SETTINGS_OK <==> v == "all" || v == "none" || v == "some")
    ensures i == Spelling ==> (Store(t, i, v).1 == SETTINGS_OK <==> v == "on" || v == "off")
    ensures i == CapLetRecogn ==> (Store(t, i, v).1 == SETTINGS_OK <==> v == "none" || v == "spell" || v == "icon")
  {
    hide Number;
  }

  const NAMES := {"pitch", "rate", "volume", "punctuation_mode", "spelling_mode", "cap_let_recogn", "voice", "language",
                  "synthesis_voice"}

  /** A line with another name than the nine is refused. */
  lemma UnknownItem(t: MsgSettings, k: string, v: string)
    requires k !in NAMES && k != "" && '=' !in k && v != "" && '\n' !in v
    ensures SetLine(t, k + (['='] + (v + "\n"))) == (t, SETTINGS_BAD_ITEM)
  {
    hide Strtok, Store;
    StrtokAt(k, '=', v + "\n");
    assert v + "\n" == v + (['\n'] + "");
    StrtokAt(v, '\n', "");
  }

  /** After an error nothing more is stored, and the error stays, up to the terminator. */
  lemma {:induction false} FirstErrorStays(input: string, t: MsgSettings, err: int)
    requires err != SETTINGS_OK
    ensures ReadSettings(input, t, err).0 == t
    ensures ReadSettings(input, t, err).1 in {err, SETTINGS_BAD_SYNTAX}
    decreases |input|
  {
    hide SetLine, OutputFraming.GetLine;
    var got := OutputFraming.GetLine(input);
    if got.None? || got.value.0 == ".\n" {
    } else {
      GotShorter(input);
      FirstErrorStays(got.value.1, t, err);
    }
  }

  lemma GotShorter(input: string)
    requires OutputFraming.GetLine(input).Some?
    ensures |OutputFraming.GetLine(input).value.1| < |input|
  {}

  /** Input that ends before the terminator is bad syntax. */
  lemma NoTerminator(t: MsgSettings, err: int)
    ensures ReadSettings("", t, err) == (t, SETTINGS_BAD_SYNTAX, "")
  {}

  /** The names as doc/ssip.texi and the modules have them. */
  lemma DocumentedNames()
    ensures Voice2Str(1) == "male1" && Voice2Str(2) == "male2" && Voice2Str(3) == "male3"
    ensures Voice2Str(4) == "female1" && Voice2Str(5) == "female2" && Voice2Str(6) == "female3"
    ensures Voice2Str(7) == "child_male" && Voice2Str(8) == "child_female"
    ensures Punct2Str(0) == "all" && Punct2Str(1) == "none" && Punct2Str(2) == "some"
    ensures Spell2Str(0) == "off" && Spell2Str(1) == "on"
    ensures Recogn2Str(0) == "none" && Recogn2Str(1) == "spell" && Recogn2Str(2) == "icon"
    ensures ItemName(Pitch) == "pitch" && ItemName(Rate) == "rate" && ItemName(Volume) == "volume"
    ensures ItemName(Punctuation) == "punctuation_mode" && ItemName(Spelling) == "spelling_mode"
    ensures ItemName(CapLetRecogn) == "cap_let_recogn" && ItemName(Voice) == "voice"
    ensures ItemName(Language) == "language" && ItemName(SynthesisVoice) == "synthesis_voice"
  {}

  /** An unknown voice is none. */
  lemma UnknownVoice(v: string)
    requires v !in {"male1", "male2", "male3", "female1", "female2", "female3", "child_male", "child_female"}
    ensures Str2Voice(v) == 0
  {}

  lemma {:induction false} SkippedAll(delims: string, c: char, x: string)
    requires (forall i | 0 <= i < |delims| :: delims[i] == c) && (x != "" ==> x[0] != c)
    ensures SkipAll(delims + x, c) == x
  {
    if delims == "" {
      assert delims + x == x;
    } else {
      assert (delims + x)[0] == delims[0] && (delims + x)[1..] == delims[1..] + x;
      SkippedAll(delims[1..], c, x);
    }
  }

  /** strtok passes all delimiters before its token, and one behind it. */
  lemma StrtokIs(delims: string, k: string, c: char, x: string)
    requires (forall i | 0 <= i < |delims| :: delims[i] == c) && c !in k
    ensures Strtok(delims, c) == None
    ensures k != "" ==> Strtok(delims + (k + ([c] + x)), c) == Some((k, x)) && Strtok(delims + k, c) == Some((k, ""))
  {
    hide SkipAll, UpTo, After;
    SkippedAll(delims, c, "");
    assert delims + "" == delims;
    if k != "" {
      assert k[0] in k && (k + ([c] + x))[0] == k[0];
      SkippedAll(delims, c, k + ([c] + x));
      SkippedAll(delims, c, k);
      TokenAt(k, c, x);
      WholeToken(k, c);
    }
  }

  lemma {:induction false} WholeToken(k: string, c: char)
    requires c !in k
    ensures UpTo(k, c) == k && After(k, c) == ""
  {
    if k == "" {
    } else {
      assert k[0] in k && k == [k[0]] + k[1..];
      WholeToken(k[1..], c);
    }
  }

  /** A line without a name, or without an equals sign behind it, is bad syntax. */
  lemma NoName(t: MsgSettings, delims: string, k: string)
    requires (forall i | 0 <= i < |delims| :: delims[i] == '=') && '=' !in k && k != ""
    ensures SetLine(t, delims) == (t, SETTINGS_BAD_SYNTAX) && SetLine(t, delims + k) == (t, SETTINGS_BAD_SYNTAX)
  {
    hide Strtok;
    StrtokIs(delims, k, '=', "");
    StrtokIs("", "", '\n', "");
  }
}
